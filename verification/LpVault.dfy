/**
 The nodes' capital: deposits, what standing bids have locked, pending withdrawals, and each
 node's terms per asset.

 `VaultState` holds the stored records; its members say what each entry point does to them
 and to the host. The class `Vault` updates the records in place and is proved against them.
 */
module LpVault {
  import opened Ledger

  /** A backing must age this many seconds before it can fill. */
  const MIN_BACKING_AGE: nat := 3_600

  datatype Node = Node(deposited: int, committed: int, filled: int, joinedAt: nat)

  datatype Appetite = Appetite(maxExposure: int, exposure: int, minDiscountBps: nat, active: bool, backedAt: nat)

  datatype WithdrawRequest = WithdrawRequest(amount: int, unlockAt: nat)

  datatype VaultConfig = VaultConfig(usdc: Address, minDeposit: int, withdrawTimelock: nat)

  datatype VaultState = VaultState(
    config: VaultConfig,
    maxSingleFillBps: nat,
    nodes: map<Address, Node>,
    appetites: map<(Address, Address), Appetite>,
    withdrawals: map<Address, WithdrawRequest>)
  {
    function NodeOrNew(node: Address, now: nat): Node {
      if node in nodes then nodes[node] else Node(0, 0, 0, now)
    }

    function Reserved(node: Address): int {
      if node in withdrawals then withdrawals[node].amount else 0
    }

    function SingleFillCap(deposited: int): int {
      DivTrunc(deposited * maxSingleFillBps, BPS_DENOMINATOR)
    }

    function SetMaxSingleFillBps(bps: nat): Result<VaultState> {
      if bps == 0 || bps > BPS_DENOMINATOR then Err(Vault(VaultError.InvalidBps))
      else Ok(this.(maxSingleFillBps := bps))
    }

    function Deposit(l: LedgerState, node: Address, amount: int): Result<(VaultState, LedgerState)> {
      var state := NodeOrNew(node, l.now);
      if amount <= 0 then Err(Vault(VaultError.InvalidAmount))
      else if state.deposited == 0 && amount < config.minDeposit then Err(Vault(BelowMinDeposit))
      else
        var paid :- l.Transfer(config.usdc, node, VaultContract, amount);
        var total := state.deposited + amount;
        Ok((this.(nodes := nodes[node := state.(deposited := total)]),
            paid.Publish(Event.Deposit(node, amount, total))))
    }

    function RequestWithdrawal(l: LedgerState, node: Address, amount: int): Result<(VaultState, LedgerState)> {
      if amount <= 0 then Err(Vault(VaultError.InvalidAmount))
      else if node in withdrawals then Err(Vault(WithdrawalPending))
      else if node !in nodes then Err(Vault(UnknownNode))
      else if nodes[node].deposited - nodes[node].committed < amount then Err(Vault(InsufficientFreeBalance))
      else
        var unlockAt := l.now + config.withdrawTimelock;
        Ok((this.(withdrawals := withdrawals[node := WithdrawRequest(amount, unlockAt)]),
            l.Publish(WithdrawRequested(node, amount, unlockAt))))
    }

    function CancelWithdrawal(l: LedgerState, node: Address): Result<(VaultState, LedgerState)> {
      if node !in withdrawals then Err(Vault(NoWithdrawalPending))
      else Ok((this.(withdrawals := withdrawals - {node}),
               l.Publish(WithdrawCancelled(node, withdrawals[node].amount))))
    }

    function ExecuteWithdrawal(l: LedgerState, node: Address): Result<(VaultState, LedgerState)> {
      if node !in withdrawals then Err(Vault(NoWithdrawalPending))
      else if l.now < withdrawals[node].unlockAt then Err(Vault(TimelockNotElapsed))
      else if node !in nodes then Err(Vault(UnknownNode))
      else
        var amount := withdrawals[node].amount;
        var state := nodes[node];
        if state.deposited - state.committed < amount then Err(Vault(InsufficientFreeBalance))
        else
          var paid :- l.Transfer(config.usdc, VaultContract, node, amount);
          var total := state.deposited - amount;
          Ok((this.(nodes := nodes[node := state.(deposited := total)], withdrawals := withdrawals - {node}),
              paid.Publish(Event.Withdraw(node, amount, total))))
    }

    /** Editing a live backing keeps its age; arming or re-arming one restarts it. */
    function SetAppetite(l: LedgerState, node: Address, asset: Address, maxExposure: int,
                         minDiscountBps: nat, active: bool): Result<(VaultState, LedgerState)>
    {
      if maxExposure < 0 then Err(Vault(VaultError.InvalidAmount))
      else if minDiscountBps >= BPS_DENOMINATOR then Err(Vault(VaultError.InvalidBps))
      else if node !in nodes then Err(Vault(UnknownNode))
      else
        var key := (node, asset);
        var exposure := if key in appetites then appetites[key].exposure else 0;
        var backedAt := if key in appetites && appetites[key].active && active
                        then appetites[key].backedAt else l.now;
        Ok((this.(appetites := appetites[key := Appetite(maxExposure, exposure, minDiscountBps, active, backedAt)]),
            l.Publish(AppetiteSet(node, asset, maxExposure, minDiscountBps, active))))
    }

    function ReduceExposure(node: Address, asset: Address, amount: int): Result<VaultState> {
      if amount <= 0 then Err(Vault(VaultError.InvalidAmount))
      else if (node, asset) !in appetites then Err(Vault(NoAppetite))
      else
        var a := appetites[(node, asset)];
        var left := if amount > a.exposure then 0 else a.exposure - amount;
        Ok(this.(appetites := appetites[(node, asset) := a.(exposure := left)]))
    }

    function Commit(l: LedgerState, node: Address, asset: Address, amount: int, discountBps: nat)
      : Result<(VaultState, LedgerState)>
    {
      if amount <= 0 then Err(Vault(VaultError.InvalidAmount))
      else if node !in nodes then Err(Vault(UnknownNode))
      else if (node, asset) !in appetites then Err(Vault(NoAppetite))
      else
        var n := nodes[node];
        var a := appetites[(node, asset)];
        if !a.active then Err(Vault(AppetiteInactive))
        else if l.now - a.backedAt < MIN_BACKING_AGE then Err(Vault(BackingTooYoung))
        else if discountBps < a.minDiscountBps then Err(Vault(DiscountBelowFloor))
        else if n.deposited - n.committed - Reserved(node) < amount then Err(Vault(InsufficientFreeBalance))
        else if a.exposure + amount > a.maxExposure then Err(Vault(ExposureExceeded))
        else if amount > SingleFillCap(n.deposited) then Err(Vault(SingleFillCapExceeded))
        else Ok((Shift(node, asset, amount), l.Publish(Committed(node, asset, amount))))
    }

    function Release(l: LedgerState, node: Address, asset: Address, amount: int)
      : Result<(VaultState, LedgerState)>
    {
      if amount <= 0 then Err(Vault(VaultError.InvalidAmount))
      else if node !in nodes then Err(Vault(UnknownNode))
      else if (node, asset) !in appetites then Err(Vault(NoAppetite))
      else if nodes[node].committed < amount || appetites[(node, asset)].exposure < amount then
        Err(Vault(CommitUnderflow))
      else Ok((Shift(node, asset, -amount), l.Publish(Released(node, asset, amount))))
    }

    /** Adds `amount` to what `node` has locked, and to its exposure on `asset`. */
    function Shift(node: Address, asset: Address, amount: int): VaultState
      requires node in nodes && (node, asset) in appetites
    {
      var n := nodes[node];
      var a := appetites[(node, asset)];
      this.(nodes := nodes[node := n.(committed := n.committed + amount)],
            appetites := appetites[(node, asset) := a.(exposure := a.exposure + amount)])
    }

    function PayOut(l: LedgerState, node: Address, asset: Address, to: Address, amount: int)
      : Result<(VaultState, LedgerState)>
    {
      if amount <= 0 then Err(Vault(VaultError.InvalidAmount))
      else if node !in nodes then Err(Vault(UnknownNode))
      else if (node, asset) !in appetites then Err(Vault(NoAppetite))
      else
        var n := nodes[node];
        if n.committed < amount || n.deposited < amount then Err(Vault(CommitUnderflow))
        else
          var paid :- l.Transfer(config.usdc, VaultContract, to, amount);
          Ok((this.(nodes := nodes[node := n.(committed := n.committed - amount,
                                              deposited := n.deposited - amount,
                                              filled := n.filled + amount)]),
              paid.Publish(PaidOut(node, asset, to, amount))))
    }

    function FreeBalance(node: Address): int {
      if node !in nodes then 0
      else
        var free := nodes[node].deposited - nodes[node].committed - Reserved(node);
        if free < 0 then 0 else free
    }
  }

  // ---- what the records allow ----

  /**
   The node can lock `amount` on the asset: an aged backing that is on, that much uncommitted and
   unreserved deposit, room under the ceiling, and no more of the deposit in one fill than the cap.
   */
  predicate Affords(v: VaultState, now: nat, node: Address, asset: Address, amount: int) {
    && amount > 0 && node in v.nodes && (node, asset) in v.appetites
    && var n, a := v.nodes[node], v.appetites[(node, asset)];
       && a.active && now >= a.backedAt + MIN_BACKING_AGE
       && n.committed + (if node in v.withdrawals then v.withdrawals[node].amount else 0) + amount <= n.deposited
       && a.exposure + amount <= a.maxExposure
       && amount * BPS_DENOMINATOR <= n.deposited * v.maxSingleFillBps
  }

  /** It can, and its terms accept the discount. */
  predicate Backs(v: VaultState, now: nat, node: Address, asset: Address, amount: int, discountBps: nat) {
    Affords(v, now, node, asset, amount) && discountBps >= v.appetites[(node, asset)].minDiscountBps
  }

  /** Rounding the cap down refuses nothing that fits under it, and lets nothing past it. */
  lemma CapIsExact(amount: int, deposited: int, bps: nat)
    requires amount > 0
    ensures amount <= DivTrunc(deposited * bps, BPS_DENOMINATOR) <==> amount * BPS_DENOMINATOR <= deposited * bps
  {
  }

  lemma CommitsExactlyWhen(v: VaultState, l: LedgerState, node: Address, asset: Address, amount: int, discountBps: nat)
    ensures v.Commit(l, node, asset, amount, discountBps).Ok? <==> Backs(v, l.now, node, asset, amount, discountBps)
  {
    if amount > 0 && node in v.nodes {
      CapIsExact(amount, v.nodes[node].deposited, v.maxSingleFillBps);
    }
  }

  lemma LargestCommitted(v: VaultState, l: LedgerState, node: Address, asset: Address, discountBps: nat, capacity: int)
    requires forall amount :: 0 < amount <= capacity <==> Backs(v, l.now, node, asset, amount, discountBps)
    ensures forall amount :: 0 < amount <= capacity <==> v.Commit(l, node, asset, amount, discountBps).Ok?
  {
    forall amount: int
      ensures 0 < amount <= capacity <==> v.Commit(l, node, asset, amount, discountBps).Ok?
    {
      CommitsExactlyWhen(v, l, node, asset, amount, discountBps);
    }
  }

  class Vault {
    const host: Host
    const config: VaultConfig
    var maxSingleFillBps: nat
    var nodes: map<Address, Node>
    var appetites: map<(Address, Address), Appetite>
    var withdrawals: map<Address, WithdrawRequest>

    constructor (host: Host, s: VaultState)
      ensures this.host == host && State() == s
    {
      this.host := host;
      config := s.config;
      maxSingleFillBps, nodes, appetites, withdrawals := s.maxSingleFillBps, s.nodes, s.appetites, s.withdrawals;
    }

    function State(): VaultState
      reads this
    {
      VaultState(config, maxSingleFillBps, nodes, appetites, withdrawals)
    }

    method Restore(s: VaultState)
      requires s.config == config
      modifies this
      ensures State() == s
    {
      maxSingleFillBps, nodes, appetites, withdrawals := s.maxSingleFillBps, s.nodes, s.appetites, s.withdrawals;
    }

    method SetMaxSingleFillBps(bps: nat) returns (r: Result<()>)
      modifies this
      ensures match old(State()).SetMaxSingleFillBps(bps)
              case Ok(v) => r.Ok? && State() == v
              case Err(e) => r == Err(e)
    {
      if bps == 0 || bps > BPS_DENOMINATOR {
        return Err(Error.Vault(VaultError.InvalidBps));
      }
      maxSingleFillBps := bps;
      return Ok(());
    }

    method Deposit(node: Address, amount: int) returns (r: Result<()>)
      modifies this, host
      ensures match old(State()).Deposit(old(host.State()), node, amount)
              case Ok((v, l)) => r.Ok? && State() == v && host.State() == l
              case Err(e) => r == Err(e)
    {
      if amount <= 0 {
        return Err(Error.Vault(VaultError.InvalidAmount));
      }
      var state := if node in nodes then nodes[node] else Node(0, 0, 0, host.now);
      if state.deposited == 0 && amount < config.minDeposit {
        return Err(Error.Vault(BelowMinDeposit));
      }
      r := Receive(node, amount, state);
    }

    /** Takes the funds in, and only then writes the record. */
    method Receive(node: Address, amount: int, before: Node) returns (r: Result<()>)
      modifies this, host
      ensures match old(host.State()).Transfer(config.usdc, node, VaultContract, amount)
              case Err(e) => r == Err(e)
              case Ok(paid) =>
                var total := before.deposited + amount;
                && r.Ok? && host.State() == paid.Publish(Event.Deposit(node, amount, total))
                && State() == old(State()).(nodes := old(nodes)[node := before.(deposited := total)])
    {
      var _ :- host.Transfer(config.usdc, node, VaultContract, amount);
      var state := before.(deposited := before.deposited + amount);
      nodes := nodes[node := state];
      host.Publish(Event.Deposit(node, amount, state.deposited));
      return Ok(());
    }

    method Record(node: Address, state: Node)
      modifies this
      ensures State() == old(State()).(nodes := old(nodes)[node := state])
    {
      nodes := nodes[node := state];
    }

    method RequestWithdrawal(node: Address, amount: int) returns (r: Result<()>)
      modifies this, host
      ensures match old(State()).RequestWithdrawal(old(host.State()), node, amount)
              case Ok((v, l)) => r.Ok? && State() == v && host.State() == l
              case Err(e) => r == Err(e)
    {
      if amount <= 0 {
        return Err(Error.Vault(VaultError.InvalidAmount));
      }
      if node in withdrawals {
        return Err(Error.Vault(WithdrawalPending));
      }
      if node !in nodes {
        return Err(Error.Vault(UnknownNode));
      }
      var state := nodes[node];
      if state.deposited - state.committed < amount {
        return Err(Error.Vault(InsufficientFreeBalance));
      }
      var unlockAt := host.now + config.withdrawTimelock;
      withdrawals := withdrawals[node := WithdrawRequest(amount, unlockAt)];
      host.Publish(WithdrawRequested(node, amount, unlockAt));
      return Ok(());
    }

    method CancelWithdrawal(node: Address) returns (r: Result<()>)
      modifies this, host
      ensures match old(State()).CancelWithdrawal(old(host.State()), node)
              case Ok((v, l)) => r.Ok? && State() == v && host.State() == l
              case Err(e) => r == Err(e)
    {
      if node !in withdrawals {
        return Err(Error.Vault(NoWithdrawalPending));
      }
      var req := withdrawals[node];
      withdrawals := withdrawals - {node};
      host.Publish(WithdrawCancelled(node, req.amount));
      return Ok(());
    }

    method ExecuteWithdrawal(node: Address) returns (r: Result<()>)
      modifies this, host
      ensures match old(State()).ExecuteWithdrawal(old(host.State()), node)
              case Ok((v, l)) => r.Ok? && State() == v && host.State() == l
              case Err(e) => r == Err(e)
    {
      if node !in withdrawals {
        return Err(Error.Vault(NoWithdrawalPending));
      }
      var req := withdrawals[node];
      if host.now < req.unlockAt {
        return Err(Error.Vault(TimelockNotElapsed));
      }
      if node !in nodes {
        return Err(Error.Vault(UnknownNode));
      }
      var state := nodes[node];
      if state.deposited - state.committed < req.amount {
        return Err(Error.Vault(InsufficientFreeBalance));
      }
      state := state.(deposited := state.deposited - req.amount);
      nodes := nodes[node := state];
      withdrawals := withdrawals - {node};
      var _ :- host.Transfer(config.usdc, VaultContract, node, req.amount);
      host.Publish(Event.Withdraw(node, req.amount, state.deposited));
      return Ok(());
    }

    method SetAppetite(node: Address, asset: Address, maxExposure: int, minDiscountBps: nat, active: bool)
      returns (r: Result<()>)
      modifies this, host
      ensures match old(State()).SetAppetite(old(host.State()), node, asset, maxExposure, minDiscountBps, active)
              case Ok((v, l)) => r.Ok? && State() == v && host.State() == l
              case Err(e) => r == Err(e)
    {
      if maxExposure < 0 {
        return Err(Error.Vault(VaultError.InvalidAmount));
      }
      if minDiscountBps >= BPS_DENOMINATOR {
        return Err(Error.Vault(VaultError.InvalidBps));
      }
      if node !in nodes {
        return Err(Error.Vault(UnknownNode));
      }
      var exposure, backedAt := 0, host.now;
      if (node, asset) in appetites {
        var prev := appetites[(node, asset)];
        exposure := prev.exposure;
        if prev.active && active {
          backedAt := prev.backedAt;
        }
      }
      appetites := appetites[(node, asset) := Appetite(maxExposure, exposure, minDiscountBps, active, backedAt)];
      host.Publish(AppetiteSet(node, asset, maxExposure, minDiscountBps, active));
      return Ok(());
    }

    method ReduceExposure(node: Address, asset: Address, amount: int) returns (r: Result<()>)
      modifies this
      ensures match old(State()).ReduceExposure(node, asset, amount)
              case Ok(v) => r.Ok? && State() == v
              case Err(e) => r == Err(e)
    {
      if amount <= 0 {
        return Err(Error.Vault(VaultError.InvalidAmount));
      }
      if (node, asset) !in appetites {
        return Err(Error.Vault(NoAppetite));
      }
      var appetite := appetites[(node, asset)];
      appetite := appetite.(exposure := if amount > appetite.exposure then 0 else appetite.exposure - amount);
      appetites := appetites[(node, asset) := appetite];
      return Ok(());
    }

    method Commit(node: Address, asset: Address, amount: int, discountBps: nat) returns (r: Result<()>)
      modifies this, host
      ensures match old(State()).Commit(old(host.State()), node, asset, amount, discountBps)
              case Ok((v, l)) => r.Ok? && State() == v && host.State() == l
              case Err(e) => r == Err(e)
    {
      if amount <= 0 {
        return Err(Error.Vault(VaultError.InvalidAmount));
      }
      if node !in nodes {
        return Err(Error.Vault(UnknownNode));
      }
      if (node, asset) !in appetites {
        return Err(Error.Vault(NoAppetite));
      }
      var state, appetite := nodes[node], appetites[(node, asset)];
      if !appetite.active {
        return Err(Error.Vault(AppetiteInactive));
      }
      if host.now - appetite.backedAt < MIN_BACKING_AGE {
        return Err(Error.Vault(BackingTooYoung));
      }
      if discountBps < appetite.minDiscountBps {
        return Err(Error.Vault(DiscountBelowFloor));
      }
      var reserved := if node in withdrawals then withdrawals[node].amount else 0;
      if state.deposited - state.committed - reserved < amount {
        return Err(Error.Vault(InsufficientFreeBalance));
      }
      if appetite.exposure + amount > appetite.maxExposure {
        return Err(Error.Vault(ExposureExceeded));
      }
      var singleFillCap := DivTrunc(state.deposited * maxSingleFillBps, BPS_DENOMINATOR);
      if amount > singleFillCap {
        return Err(Error.Vault(SingleFillCapExceeded));
      }
      Shift(node, asset, amount);
      host.Publish(Committed(node, asset, amount));
      return Ok(());
    }

    /** Writes both records a commitment or a release moves. */
    method Shift(node: Address, asset: Address, amount: int)
      requires node in nodes && (node, asset) in appetites
      modifies this
      ensures State() == old(State()).Shift(node, asset, amount)
    {
      var state, appetite := nodes[node], appetites[(node, asset)];
      nodes := nodes[node := state.(committed := state.committed + amount)];
      appetites := appetites[(node, asset) := appetite.(exposure := appetite.exposure + amount)];
    }

    method Release(node: Address, asset: Address, amount: int) returns (r: Result<()>)
      modifies this, host
      ensures match old(State()).Release(old(host.State()), node, asset, amount)
              case Ok((v, l)) => r.Ok? && State() == v && host.State() == l
              case Err(e) => r == Err(e)
    {
      if amount <= 0 {
        return Err(Error.Vault(VaultError.InvalidAmount));
      }
      if node !in nodes {
        return Err(Error.Vault(UnknownNode));
      }
      if (node, asset) !in appetites {
        return Err(Error.Vault(NoAppetite));
      }
      var state, appetite := nodes[node], appetites[(node, asset)];
      if state.committed < amount || appetite.exposure < amount {
        return Err(Error.Vault(CommitUnderflow));
      }
      Shift(node, asset, -amount);
      host.Publish(Released(node, asset, amount));
      return Ok(());
    }

    method PayOut(node: Address, asset: Address, to: Address, amount: int) returns (r: Result<()>)
      modifies this, host
      ensures match old(State()).PayOut(old(host.State()), node, asset, to, amount)
              case Ok((v, l)) => r.Ok? && State() == v && host.State() == l
              case Err(e) => r == Err(e)
    {
      if amount <= 0 {
        return Err(Error.Vault(VaultError.InvalidAmount));
      }
      if node !in nodes {
        return Err(Error.Vault(UnknownNode));
      }
      if (node, asset) !in appetites {
        return Err(Error.Vault(NoAppetite));
      }
      var state := nodes[node];
      if state.committed < amount || state.deposited < amount {
        return Err(Error.Vault(CommitUnderflow));
      }
      state := state.(committed := state.committed - amount);
      state := state.(deposited := state.deposited - amount);
      state := state.(filled := state.filled + amount);
      Record(node, state);
      r := Remit(node, asset, to, amount);
    }

    method Remit(node: Address, asset: Address, to: Address, amount: int) returns (r: Result<()>)
      modifies host
      ensures match old(host.State()).Transfer(config.usdc, VaultContract, to, amount)
              case Ok(paid) => r.Ok? && host.State() == paid.Publish(PaidOut(node, asset, to, amount))
              case Err(e) => r == Err(e)
    {
      var _ :- host.Transfer(config.usdc, VaultContract, to, amount);
      host.Publish(PaidOut(node, asset, to, amount));
      return Ok(());
    }

    /**
     The node's capacity on `asset` at this discount. It is exact in both directions: in this very
     state a commit succeeds for every positive amount up to it and for no other, whatever the
     sign of the headroom.
     */
    method QuoteCapacity(node: Address, asset: Address, discountBps: nat) returns (capacity: int)
      ensures capacity >= 0
      ensures forall amount :: 0 < amount <= capacity <==>
                                 Backs(State(), host.now, node, asset, amount, discountBps)
      ensures forall amount :: 0 < amount <= capacity <==>
                                 State().Commit(host.State(), node, asset, amount, discountBps).Ok?
    {
      capacity := Room(node, asset, discountBps);
      LargestCommitted(State(), host.State(), node, asset, discountBps, capacity);
    }

    /** The least of the three bounds, or nothing when the terms do not take the bid at all. */
    method Room(node: Address, asset: Address, discountBps: nat) returns (capacity: int)
      ensures capacity >= 0
      ensures forall amount :: 0 < amount <= capacity <==>
                                 Backs(State(), host.now, node, asset, amount, discountBps)
    {
      if node !in nodes || (node, asset) !in appetites {
        return 0;
      }
      var state, appetite := nodes[node], appetites[(node, asset)];
      if !appetite.active
        || discountBps < appetite.minDiscountBps
        || host.now - appetite.backedAt < MIN_BACKING_AGE
      {
        return 0;
      }
      var reserved := if node in withdrawals then withdrawals[node].amount else 0;
      capacity := state.deposited - state.committed - reserved;
      var headroom := appetite.maxExposure - appetite.exposure;
      if headroom < capacity {
        capacity := headroom;
      }
      var singleFillCap := DivTrunc(state.deposited * maxSingleFillBps, BPS_DENOMINATOR);
      if singleFillCap < capacity {
        capacity := singleFillCap;
      }
      if capacity < 0 {
        capacity := 0;
      }
    }
  }
}
