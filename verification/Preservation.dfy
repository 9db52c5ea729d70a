/**
 Every call keeps the invariant, and no call of the layer changes what the vault and the
 router hold beyond their obligations.
 */
module Preservation {
  import opened Ledger
  import opened LpVault
  import opened SettlementRouter
  import opened FifoQueue
  import opened ExitAuction
  import opened Totals
  import opened Chain
  import opened Invariant
  import opened Settlement
  import opened Effects
  import opened Changes

  ghost predicate SameSurplus(w: World, w': World) {
    VaultSurplus(w') == VaultSurplus(w) && forall token :: RouterSurplus(w', token) == RouterSurplus(w, token)
  }

  ghost predicate Keeps(w: World, w': World) {
    Inv(w') && SameSurplus(w, w')
  }

  lemma StillCovered(w: World, w': World)
    requires Covered(w) && SameSurplus(w, w')
    ensures Covered(w')
  {
  }

  // ---- capital and terms ----

  /** A call that leaves exits, escrows and lines alone, and moves no commitment. */
  lemma OnlyCapital(w: World, v: VaultState, l: LedgerState)
    requires Inv(w)
    requires forall n :: CommittedBy(v, n) == CommittedBy(w.vault, n) && FilledBy(v, n) == FilledBy(w.vault, n)
    requires forall k :: k in w.vault.appetites ==> k in v.appetites
    requires Solvent(v) && Limits(w.(vault := v, ledger := l))
    requires VaultSurplus(w.(vault := v, ledger := l)) == VaultSurplus(w)
    requires forall t :: l.Balance(t, RouterContract) == w.ledger.Balance(t, RouterContract)
    ensures Keeps(w, w.(vault := v, ledger := l))
  {
    var w' := w.(vault := v, ledger := l);
    assert SameSurplus(w, w');
    StillCovered(w, w');
    assert Books(w'.auction, w'.vault);
  }

  lemma DepositMoney(w: World, node: User, amount: int)
    requires w.vault.Deposit(w.ledger, node, amount).Ok?
    ensures var (v, l) := w.vault.Deposit(w.ledger, node, amount).value;
            && VaultSurplus(w.(vault := v, ledger := l)) == VaultSurplus(w)
            && forall t :: l.Balance(t, RouterContract) == w.ledger.Balance(t, RouterContract)
  {
    var (v, l) := w.vault.Deposit(w.ledger, node, amount).value;
    DepositsSet(w.vault, node, v.nodes[node]);
    TransferMoves(w.ledger, w.vault.config.usdc, node, VaultContract, amount);
    var paid := w.ledger.Transfer(w.vault.config.usdc, node, VaultContract, amount).value;
    assert forall t, h :: l.Balance(t, h) == paid.Balance(t, h);
  }

  lemma DepositVault(w: World, node: User, amount: int)
    requires Solvent(w.vault) && w.vault.Deposit(w.ledger, node, amount).Ok?
    ensures var (v, l) := w.vault.Deposit(w.ledger, node, amount).value;
            && Solvent(v) && l.now == w.ledger.now
            && v == w.vault.(nodes := v.nodes)
            && (forall n :: CommittedBy(v, n) == CommittedBy(w.vault, n) && FilledBy(v, n) == FilledBy(w.vault, n))
  {
    var v := w.vault.Deposit(w.ledger, node, amount).value.0;
    assert forall n :: n in v.nodes && n != node ==> Uncommitted(v, n) == Uncommitted(w.vault, n);
    assert node in w.vault.nodes ==> Uncommitted(w.vault, node) >= 0;
  }

  lemma DepositKeeps(w: World, node: User, amount: int)
    requires Inv(w) && w.vault.Deposit(w.ledger, node, amount).Ok?
    ensures Keeps(w, OnVault(w, w.vault.Deposit(w.ledger, node, amount)).value)
  {
    var (v, l) := w.vault.Deposit(w.ledger, node, amount).value;
    DepositVault(w, node, amount);
    DepositMoney(w, node, amount);
    OnlyCapital(w, v, l);
  }

  lemma WithdrawalMoney(w: World, node: User)
    requires w.vault.ExecuteWithdrawal(w.ledger, node).Ok?
    ensures var (v, l) := w.vault.ExecuteWithdrawal(w.ledger, node).value;
            && VaultSurplus(w.(vault := v, ledger := l)) == VaultSurplus(w)
            && forall t :: l.Balance(t, RouterContract) == w.ledger.Balance(t, RouterContract)
  {
    var (v, l) := w.vault.ExecuteWithdrawal(w.ledger, node).value;
    var amount := w.vault.withdrawals[node].amount;
    DepositsSet(w.vault, node, v.nodes[node]);
    TransferMoves(w.ledger, w.vault.config.usdc, VaultContract, node, amount);
    var paid := w.ledger.Transfer(w.vault.config.usdc, VaultContract, node, amount).value;
    assert forall t, h :: l.Balance(t, h) == paid.Balance(t, h);
  }

  lemma WithdrawalVault(w: World, node: User)
    requires Solvent(w.vault) && w.vault.ExecuteWithdrawal(w.ledger, node).Ok?
    ensures var (v, l) := w.vault.ExecuteWithdrawal(w.ledger, node).value;
            && Solvent(v) && l.now == w.ledger.now
            && v == w.vault.(nodes := v.nodes, withdrawals := v.withdrawals)
            && (forall n :: CommittedBy(v, n) == CommittedBy(w.vault, n) && FilledBy(v, n) == FilledBy(w.vault, n))
  {
    var v := w.vault.ExecuteWithdrawal(w.ledger, node).value.0;
    assert forall m :: m in v.nodes ==> m in w.vault.nodes && Uncommitted(v, m) == Uncommitted(w.vault, m);
  }

  lemma ExecuteWithdrawalKeeps(w: World, node: User)
    requires Inv(w) && w.vault.ExecuteWithdrawal(w.ledger, node).Ok?
    ensures Keeps(w, OnVault(w, w.vault.ExecuteWithdrawal(w.ledger, node)).value)
  {
    var (v, l) := w.vault.ExecuteWithdrawal(w.ledger, node).value;
    WithdrawalVault(w, node);
    WithdrawalMoney(w, node);
    OnlyCapital(w, v, l);
  }

  predicate OnTerms(call: Call) {
    || call.RequestWithdrawal? || call.CancelWithdrawal?
    || call.SetAppetite? || call.ReduceExposure? || call.SetMaxSingleFillBps?
  }

  /** Requests, cancellations and terms leave nodes' money and every balance alone. */
  lemma TermsLeave(w: World, call: Call)
    requires Apply(w, call).Ok? && OnTerms(call)
    ensures var w' := Step(w, call);
            && w' == w.(vault := w'.vault, ledger := w'.ledger)
            && w'.vault.nodes == w.vault.nodes && w'.vault.config == w.vault.config
            && w'.ledger.balances == w.ledger.balances && w'.ledger.now == w.ledger.now
            && forall k :: k in w.vault.appetites ==> k in w'.vault.appetites
  {
  }

  lemma TermsLimits(w: World, call: Call)
    requires Limits(w) && Apply(w, call).Ok? && OnTerms(call)
    ensures Limits(Step(w, call))
  {
  }

  lemma TermsSolvent(w: World, call: Call)
    requires Solvent(w.vault) && Limits(w) && Apply(w, call).Ok? && OnTerms(call)
    ensures Solvent(Step(w, call).vault) && Limits(Step(w, call))
  {
    TermsLimits(w, call);
    var v := Step(w, call).vault;
    assert forall n :: n in v.nodes && !(call.RequestWithdrawal? && n == call.node) ==>
                         Uncommitted(v, n) >= Uncommitted(w.vault, n);
  }

  lemma TermsMoney(w: World, w': World)
    requires w'.vault.nodes == w.vault.nodes && w'.vault.config == w.vault.config
    requires w'.ledger.balances == w.ledger.balances
    ensures VaultSurplus(w') == VaultSurplus(w)
    ensures forall t :: w'.ledger.Balance(t, RouterContract) == w.ledger.Balance(t, RouterContract)
  {
    assert forall t, h :: w'.ledger.Balance(t, h) == w.ledger.Balance(t, h);
  }

  lemma TermsKeep(w: World, call: Call)
    requires Inv(w) && Apply(w, call).Ok? && OnTerms(call)
    ensures Keeps(w, Step(w, call))
  {
    var w' := Step(w, call);
    TermsLeave(w, call);
    TermsSolvent(w, call);
    TermsMoney(w, w');
    OnlyCapital(w, w'.vault, w'.ledger);
  }

  // ---- the exit ----

  /** The auction after exit `x` changed, or was added at the next id. */
  predicate Recorded(a: AuctionState, a': AuctionState, x: Exit) {
    if x.id in a.exits then a' == SetExit(a, x)
    else x.id == a.nextId && a' == AuctionState(x.id + 1, a.exits[x.id := x])
  }

  lemma RecordedTotals(a: AuctionState, a': AuctionState, x: Exit, m: Measure)
    requires Registry(a) && Recorded(a, a', x)
    ensures Ledgered(m, a') == Ledgered(m, a) + Weight(m, x) - WeightAt(m, a.exits, x.id)
  {
    if x.id in a.exits {
      LedgeredSet(m, a, x);
    } else {
      LedgeredNew(m, a, x);
    }
  }

  lemma RecordedRegistry(a: AuctionState, a': AuctionState, x: Exit)
    requires Registry(a) && Recorded(a, a', x) && WellFormed(x)
    ensures Registry(a')
  {
  }

  ghost predicate RouterMoves(w: World, l: LedgerState, x: Exit) {
    forall t :: l.Balance(t, RouterContract) == w.ledger.Balance(t, RouterContract)
                  + Weight(HeldTokens(t), x) - WeightAt(HeldTokens(t), w.auction.exits, x.id)
  }

  /** What a call that changes exit `x` (or adds it) has to show. */
  lemma OneExit(w: World, w': World, x: Exit)
    requires Registry(w.auction) && Covered(w) && WellFormed(x) && Recorded(w.auction, w'.auction, x)
    requires Lines(w'.auction, w'.queue) && Custody(w'.auction, w'.router) && Books(w'.auction, w'.vault)
    requires Solvent(w'.vault) && Limits(w')
    requires VaultSurplus(w') == VaultSurplus(w) && RouterMoves(w, w'.ledger, x)
    ensures Keeps(w, w')
  {
    forall t
      ensures RouterSurplus(w', t) == RouterSurplus(w, t)
    {
      RecordedTotals(w.auction, w'.auction, x, HeldTokens(t));
    }
    StillCovered(w, w');
    RecordedRegistry(w.auction, w'.auction, x);
  }

  lemma CustodyKept(a: AuctionState, r: RouterState, x: Exit)
    requires Custody(a, r) && x.id in a.exits && SameTerms(a.exits[x.id], x)
    requires x.Live() && a.exits[x.id].Live()
    ensures Custody(SetExit(a, x), r)
  {
  }

  lemma CustodyEnds(a: AuctionState, r: RouterState, x: Exit)
    requires Custody(a, r) && x.id in a.exits && SameTerms(a.exits[x.id], x) && !x.Live()
    ensures Custody(SetExit(a, x), r.(escrows := r.escrows - {x.id}))
  {
  }

  lemma LedgersWithNew(a: AuctionState, q: QueueState, r: RouterState, v: VaultState, x: Exit)
    requires Registry(a) && Lines(a, q) && Custody(a, r) && Books(a, v)
    requires x.id == a.nextId && WellFormed(x) && x.status == Status.Open && x.bestNode.None?
    ensures var a' := AuctionState(a.nextId + 1, a.exits[x.id := x]);
            && Lines(a', q) && Books(a', v)
            && Custody(a', r.(escrows := r.escrows[x.id := EscrowRecord(x.seller, x.asset, x.amount)]))
  {
    var a' := AuctionState(a.nextId + 1, a.exits[x.id := x]);
    forall asset, i
      ensures i in q.Line(asset) <==> QueuedOn(a', asset, i)
    {
      assert i in q.Line(asset) <==> QueuedOn(a, asset, i);
    }
    forall n
      ensures CommittedBy(v, n) == Ledgered(LiveBids(n), a') && FilledBy(v, n) == Ledgered(SettledBids(n), a')
    {
      LedgeredNew(LiveBids(n), a, x);
      LedgeredNew(SettledBids(n), a, x);
    }
  }

  lemma OpenedMoney(w: World, w': World, x: Exit)
    requires Registry(w.auction) && Limits(w) && OpenedTo(w, w', x)
    ensures Limits(w') && VaultSurplus(w') == VaultSurplus(w) && RouterMoves(w, w'.ledger, x)
  {
  }

  lemma OpenedKeeps(w: World, w': World, x: Exit)
    requires Inv(w) && OpenedTo(w, w', x)
    ensures Keeps(w, w')
  {
    LedgersWithNew(w.auction, w.queue, w.router, w.vault, x);
    OpenedMoney(w, w', x);
    OneExit(w, w', x);
  }

  /** Paying out a winning bid moves it from the node's commitment to what it filled. */
  lemma PaidBooks(a: AuctionState, v: VaultState, x: Exit, y: Exit)
    requires Registry(a) && Books(a, v) && Solvent(v)
    requires x.id in a.exits && x == a.exits[x.id] && x.Live() && x.bestNode.Some?
    requires y == x.(status := Status.Settled)
    requires x.bestNode.value in v.nodes
    ensures Books(SetExit(a, y), Paid(v, x.bestNode.value, x.bestUsdc))
  {
    BooksSet(a, v, y, Paid(v, x.bestNode.value, x.bestUsdc));
  }

  lemma PaidSolvent(v: VaultState, n: Address, gross: int)
    requires Solvent(v) && n in v.nodes && 0 <= gross <= v.nodes[n].committed
    ensures Solvent(Paid(v, n, gross))
  {
    var v' := Paid(v, n, gross);
    assert forall m :: m in v'.nodes ==> m in v.nodes && Uncommitted(v', m) == Uncommitted(v, m);
  }

  lemma FilledVaultMoney(w: World, w': World, x: Exit)
    requires Inv(w) && Known(w, x)
    requires Filled(w, w', x)
    ensures VaultSurplus(w') == VaultSurplus(w)
  {
    var node := x.bestNode.value;
    DepositsSet(w.vault, node, w'.vault.nodes[node]);
    SettlementAtContracts(w.router, w.vault.config.usdc, EscrowRecord(x.seller, x.asset, x.amount),
                          node, x.amount, x.bestUsdc);
  }

  lemma FilledRouterMoney(w: World, w': World, x: Exit)
    requires Inv(w) && Known(w, x)
    requires Filled(w, w', x)
    ensures RouterMoves(w, w'.ledger, x.(status := Status.Settled))
  {
    SettlementAtContracts(w.router, w.vault.config.usdc, EscrowRecord(x.seller, x.asset, x.amount),
                          x.bestNode.value, x.amount, x.bestUsdc);
    forall t
      ensures w'.ledger.Balance(t, RouterContract) == w.ledger.Balance(t, RouterContract) - Weight(HeldTokens(t), x)
    {
    }
  }

  lemma FilledKeeps(w: World, w': World, x: Exit)
    requires Inv(w) && Known(w, x) && Fillable(w, x)
    requires Filled(w, w', x)
    ensures Keeps(w, w')
  {
    var y := x.(status := Status.Settled);
    FilledVaultMoney(w, w', x);
    FilledRouterMoney(w, w', x);
    PaidBooks(w.auction, w.vault, x, y);
    PaidSolvent(w.vault, x.bestNode.value, x.bestUsdc);
    CustodyEnds(w.auction, w.router, y);
    LeaveLineEffect(w, w.ledger, x, y);
    OneExit(w, w', y);
  }

  lemma QueuedKeeps(w: World, w': World, x: Exit)
    requires Inv(w) && Known(w, x) && x.status == Status.Open
    requires QueuedTo(w, w', x)
    ensures Keeps(w, w')
  {
    var y := x.(status := Status.Queued);
    LinesJoined(w.auction, w.queue, w.ledger, y);
    CustodyKept(w.auction, w.router, y);
    QueuedBooks(w, x);
    SameBalances(w, w', y);
    OneExit(w, w', y);
  }

  lemma QueuedBooks(w: World, x: Exit)
    requires Registry(w.auction) && Books(w.auction, w.vault)
    requires Known(w, x) && x.status == Status.Open
    ensures Books(SetExit(w.auction, x.(status := Status.Queued)), w.vault)
  {
    BooksSet(w.auction, w.vault, x.(status := Status.Queued), w.vault);
  }

  // ---- bids ----

  lemma CommitSolvent(v: VaultState, now: nat, n: Address, asset: Address, amount: int)
    requires Solvent(v) && Lockable(v, now, n, asset, amount) && amount >= 0
    ensures Solvent(v.Shift(n, asset, amount))
  {
    var v' := v.Shift(n, asset, amount);
    assert v'.withdrawals == v.withdrawals;
    forall m | m in v'.nodes
      ensures v'.nodes[m].committed >= 0 && Uncommitted(v', m) >= 0
    {
      assert v'.Reserved(m) == v.Reserved(m);
      assert Uncommitted(v, m) >= 0;
    }
  }

  lemma ReleaseSolvent(v: VaultState, x: Exit)
    requires Solvent(v) && Releasable(v, x) && x.bestUsdc >= 0
    requires x.bestNode.Some? && x.bestNode.value in v.nodes ==> v.nodes[x.bestNode.value].committed >= x.bestUsdc
    ensures Solvent(LetGo(v, x))
  {
    var v' := LetGo(v, x);
    assert forall m :: m in v'.nodes ==> m in v.nodes && Uncommitted(v', m) >= Uncommitted(v, m);
  }

  /** Releasing moves nobody's deposit and forgets no terms. */
  lemma ReleaseMoney(v: VaultState, x: Exit)
    ensures Deposits(LetGo(v, x).nodes) == Deposits(v.nodes)
    ensures LetGo(v, x).config == v.config && LetGo(v, x).maxSingleFillBps == v.maxSingleFillBps
    ensures LetGo(v, x).appetites.Keys == v.appetites.Keys
    ensures forall k :: k in v.appetites ==> LetGo(v, x).appetites[k].backedAt == v.appetites[k].backedAt
  {
  }

  /** Once its bid is let go, an exit no longer counts in its bidder's commitment. */
  lemma CancelledBooks(w: World, x: Exit)
    requires Registry(w.auction) && Books(w.auction, w.vault) && Solvent(w.vault) && Known(w, x)
    ensures Books(SetExit(w.auction, x.AsCancelled()), LetGo(w.vault, x))
  {
    if x.bestNode.Some? {
      BidIsCommitted(w, x.id);
    }
    BooksSet(w.auction, w.vault, x.AsCancelled(), LetGo(w.vault, x));
  }

  lemma CancelledKeeps(w: World, w': World, x: Exit)
    requires Inv(w) && Known(w, x)
    requires Releasable(w.vault, x) && CancelledTo(w, w', x)
    ensures Keeps(w, w')
  {
    var y := x.AsCancelled();
    CancelledSolvent(w, x);
    CancelledBooks(w, x);
    CancelledMoney(w, w', x);
    CustodyEnds(w.auction, w.router, y);
    LeaveLineEffect(w, w.ledger, x, y);
    OneExit(w, w', y);
  }

  lemma CancelledSolvent(w: World, x: Exit)
    requires Registry(w.auction) && Books(w.auction, w.vault) && Solvent(w.vault)
    requires Known(w, x) && Releasable(w.vault, x)
    ensures Solvent(LetGo(w.vault, x))
  {
    if x.bestNode.Some? {
      BidIsCommitted(w, x.id);
    }
    ReleaseSolvent(w.vault, x);
  }

  lemma CancelledMoney(w: World, w': World, x: Exit)
    requires Registry(w.auction) && Limits(w) && Known(w, x)
    requires CancelledTo(w, w', x)
    ensures Limits(w') && VaultSurplus(w') == VaultSurplus(w) && RouterMoves(w, w'.ledger, x.AsCancelled())
  {
    ReleaseMoney(w.vault, x);
  }

  function Rebid(v: VaultState, x: Exit, node: Address, usdc: int): VaultState
    requires node in v.nodes && (node, x.asset) in v.appetites
  {
    LetGo(v.Shift(node, x.asset, usdc), x)
  }

  lemma RebidBooks(w: World, x: Exit, node: User, usdc: int)
    requires Registry(w.auction) && Books(w.auction, w.vault) && Solvent(w.vault) && Known(w, x)
    requires node in w.vault.nodes && (node, x.asset) in w.vault.appetites
    ensures Books(SetExit(w.auction, x.WithBid(node, usdc)), Rebid(w.vault, x, node, usdc))
  {
    if x.bestNode.Some? {
      BidIsCommitted(w, x.id);
    }
    BooksSet(w.auction, w.vault, x.WithBid(node, usdc), Rebid(w.vault, x, node, usdc));
  }

  lemma RebidSolvent(v: VaultState, now: nat, x: Exit, node: User, usdc: int)
    requires Solvent(v) && Lockable(v, now, node, x.asset, usdc) && usdc > x.bestUsdc >= 0
    requires x.bestNode == Some(node) || Releasable(v, x)
    requires x.bestNode.Some? && x.bestNode.value in v.nodes ==> v.nodes[x.bestNode.value].committed >= x.bestUsdc
    ensures Solvent(Rebid(v, x, node, usdc))
  {
    CommitSolvent(v, now, node, x.asset, usdc);
    ReleaseSolvent(v.Shift(node, x.asset, usdc), x);
  }

  lemma RebidDeposits(v: VaultState, x: Exit, node: User, usdc: int)
    requires node in v.nodes && (node, x.asset) in v.appetites
    ensures Deposits(Rebid(v, x, node, usdc).nodes) == Deposits(v.nodes)
  {
    var v1 := v.Shift(node, x.asset, usdc);
    assert Deposits(v1.nodes) == Deposits(v.nodes);
    ReleaseMoney(v1, x);
  }

  lemma RebidLimits(w: World, x: Exit, node: User, usdc: int, l: LedgerState)
    requires Limits(w) && l.now == w.ledger.now
    requires node in w.vault.nodes && (node, x.asset) in w.vault.appetites
    ensures Limits(w.(vault := Rebid(w.vault, x, node, usdc), ledger := l))
    ensures Rebid(w.vault, x, node, usdc).config == w.vault.config
  {
    ReleaseMoney(w.vault.Shift(node, x.asset, usdc), x);
  }

  lemma BidKeeps(w: World, w': World, x: Exit, node: User, usdc: int)
    requires Inv(w) && Known(w, x)
    requires x.bestNode == Some(node) || Releasable(w.vault, x)
    requires BidTo(w, w', x, node, usdc)
    ensures Keeps(w, w')
  {
    var y := x.WithBid(node, usdc);
    if x.bestNode.Some? {
      BidIsCommitted(w, x.id);
    }
    RebidSolvent(w.vault, w.ledger.now, x, node, usdc);
    RebidDeposits(w.vault, x, node, usdc);
    RebidBooks(w, x, node, usdc);
    RebidLimits(w, x, node, usdc, w'.ledger);
    CustodyKept(w.auction, w.router, y);
    LinesKept(w.auction, w.queue, y);
    SameBalances(w, w', y);
    OneExit(w, w', y);
  }

  lemma SameBalances(w: World, w': World, y: Exit)
    requires w'.ledger.balances == w.ledger.balances && w'.vault.config == w.vault.config
    requires Deposits(w'.vault.nodes) == Deposits(w.vault.nodes)
    requires y.id in w.auction.exits && SameTerms(w.auction.exits[y.id], y)
    requires y.Live() && w.auction.exits[y.id].Live()
    ensures VaultSurplus(w') == VaultSurplus(w) && RouterMoves(w, w'.ledger, y)
  {
    assert forall t, h :: w'.ledger.Balance(t, h) == w.ledger.Balance(t, h);
  }
}
