/**
 The rule book: every call of the layer succeeds exactly when conditions on the stored records
 hold. The conditions are written out here in full, in terms of amounts, prices, places and times.
 */
module Rules {
  import opened Ledger
  import opened LpVault
  import opened SettlementRouter
  import opened FifoQueue
  import opened ExitAuction
  import opened Chain
  import opened Invariant
  import opened Effects
  import opened Changes
  import opened Reachable
  import opened Guarantees
  import opened Rounding

  // ---- sales ----

  /**
   Once its window is over an open exit can be closed, by anybody: it settles exactly when its bid
   is acceptable and nobody waits on the asset, and takes the last place in line otherwise.
   */
  lemma CloseServesExactlyWhen(w: World, id: nat)
    requires Inv(w)
    ensures w.Close(id).Ok? <==>
              && id in w.auction.exits
              && var x := w.auction.exits[id];
                 && x.status == Status.Open && w.ledger.now > x.closesAt
                 && ((Acceptable(x) && forall y :: !QueuedOn(w.auction, x.asset, y))
                     || |w.queue.Line(x.asset)| < MAX_QUEUE_DEPTH)
    ensures w.Close(id).Ok? ==>
              var x, w' := w.auction.exits[id], w.Close(id).value;
              if Acceptable(x) && forall y :: !QueuedOn(w.auction, x.asset, y) then SettledIn(w'.auction, id)
              else && w'.auction.exits[id].status == Status.Queued
                   && w'.queue.Line(x.asset) == w.queue.Line(x.asset) + [id]
  {
    CloseEffect(w, id);
    if id in w.auction.exits && w.auction.exits[id].Live() {
      TurnMeansNobodyAhead(w, w.auction.exits[id]);
    }
  }

  /** After any run, whoever is first in a line and has an acceptable bid can be sold at once. */
  lemma {:induction false} FirstInLineIsServed(w0: World, calls: seq<Call>, asset: Address, seller: User)
    requires Genesis(w0) && Run(w0, calls).queue.Line(asset) != []
    requires var w, id := Run(w0, calls), Run(w0, calls).queue.Line(asset)[0];
             id in w.auction.exits ==> seller == w.auction.exits[id].seller
    ensures var w, id := Run(w0, calls), Run(w0, calls).queue.Line(asset)[0];
            && id in w.auction.exits && w.auction.exits[id].asset == asset
            && (w.AcceptBid(seller, id).Ok? <==> Acceptable(w.auction.exits[id]))
            && (Acceptable(w.auction.exits[id]) ==> SettledIn(w.AcceptBid(seller, id).value.auction, id))
  {
    ReachableHolds(w0, calls);
    FirstIsNext(Run(w0, calls), asset);
    StandingBidCanBePaid(Run(w0, calls), seller, Run(w0, calls).queue.Line(asset)[0]);
  }

  lemma FirstIsNext(w: World, asset: Address)
    requires Lines(w.auction, w.queue) && Registry(w.auction) && w.queue.Line(asset) != []
    ensures var id := w.queue.Line(asset)[0];
            && id in w.auction.exits && w.auction.exits[id].asset == asset && w.auction.exits[id].Live()
            && NobodyAhead(w, w.auction.exits[id])
  {
    var id := w.queue.Line(asset)[0];
    assert id in w.queue.Line(asset) && QueuedOn(w.auction, asset, id);
    TurnMeansNobodyAhead(w, w.auction.exits[id]);
  }

  // ---- bids ----

  /** The node can lock the bid, and the price is at or below its own floor price, unrounded. */
  predicate CanBack(v: VaultState, now: nat, node: Address, x: Exit, usdc: int) {
    && Affords(v, now, node, x.asset, usdc)
    && var floor := v.appetites[(node, x.asset)].minDiscountBps;
       floor > 0 ==> usdc * BPS_DENOMINATOR <= x.referenceUsdc * (BPS_DENOMINATOR - floor)
  }

  /** The rival's bid that would be displaced can be let go: its bidder still books it. */
  predicate RivalLetsGo(v: VaultState, node: Address, x: Exit) {
    x.bestNode.Some? && x.bestNode.value != node ==>
      && (x.bestNode.value, x.asset) in v.appetites
      && v.appetites[(x.bestNode.value, x.asset)].exposure >= x.bestUsdc
  }

  /** The rules for a bid, on the records alone. */
  predicate BidAllowed(w: World, node: Address, id: nat, usdc: int) {
    && id in w.auction.exits
    && var x := w.auction.exits[id];
       && x.Live() && (x.status == Status.Open ==> w.ledger.now <= x.closesAt)
       && usdc > x.bestUsdc
       && CanBack(w.vault, w.ledger.now, node, x, usdc)
       && RivalLetsGo(w.vault, node, x)
  }

  /** What the vault backs, with the floor unrounded. */
  lemma BackingIsExact(v: VaultState, now: nat, node: Address, x: Exit, usdc: int)
    requires x.referenceUsdc > 0 && usdc > 0
    ensures Backs(v, now, node, x.asset, usdc, DiscountBps(x.referenceUsdc, usdc)) <==> CanBack(v, now, node, x, usdc)
  {
    if (node, x.asset) in v.appetites && v.appetites[(node, x.asset)].minDiscountBps > 0 {
      FloorIsExact(x.referenceUsdc, usdc, v.appetites[(node, x.asset)].minDiscountBps);
    }
  }

  lemma BidTakenExactlyWhen(w: World, node: User, id: nat, usdc: int)
    requires Inv(w)
    ensures w.PlaceBid(node, id, usdc).Ok? <==> BidAllowed(w, node, id, usdc)
  {
    BidEffect(w, node, id, usdc);
    if TakesBids(w, id) {
      var x := w.auction.exits[id];
      assert WellFormed(x);
      if usdc > x.bestUsdc {
        BackingIsExact(w.vault, w.ledger.now, node, x, usdc);
        CommitsExactlyWhen(w.vault, w.ledger, node, x.asset, usdc, DiscountBps(x.referenceUsdc, usdc));
        RivalIsReleasable(w, x, node);
      }
    }
  }

  lemma RivalIsReleasable(w: World, x: Exit, node: Address)
    requires WellFormed(x)
    ensures x.bestNode == Some(node) || Releasable(w.vault, x) <==> RivalLetsGo(w.vault, node, x)
  {
  }

  // ---- every other call ----

  /** The rules for every call, on the records alone. */
  ghost predicate Allowed(w: World, call: Call) {
    var v := w.vault;
    match call
    case Deposit(node, amount) =>
      && 0 < amount <= w.ledger.Balance(v.config.usdc, node)
      && ((node in v.nodes && v.nodes[node].deposited > 0) || amount >= v.config.minDeposit)
    case RequestWithdrawal(node, amount) =>
      && amount > 0 && node !in v.withdrawals && node in v.nodes
      && amount <= v.nodes[node].deposited - v.nodes[node].committed
    case CancelWithdrawal(node) => node in v.withdrawals
    case ExecuteWithdrawal(node) => node in v.withdrawals && w.ledger.now >= v.withdrawals[node].unlockAt
    case SetAppetite(node, _, ceiling, floor, _) => ceiling >= 0 && floor < BPS_DENOMINATOR && node in v.nodes
    case ReduceExposure(node, asset, amount) => amount > 0 && (node, asset) in v.appetites
    case OpenExit(seller, asset, amount, reference, reserve, duration) =>
      && 0 < amount <= w.ledger.Balance(asset, seller) && reference > 0 && reserve >= 0
      && (duration.Some? ==> MIN_DURATION <= duration.value <= MAX_DURATION)
    case PlaceBid(node, id, usdc) => BidAllowed(w, node, id, usdc)
    case AcceptBid(signer, id) =>
      && id in w.auction.exits
      && var x := w.auction.exits[id];
         x.seller == signer && x.Live() && Fillable(w, x)
    case Close(id) =>
      && id in w.auction.exits
      && var x := w.auction.exits[id];
         && x.status == Status.Open && w.ledger.now > x.closesAt
         && (Fillable(w, x) || |w.queue.Line(x.asset)| < MAX_QUEUE_DEPTH)
    case Cancel(signer, id) =>
      && id in w.auction.exits
      && var x := w.auction.exits[id];
         x.seller == signer && x.Live() && Releasable(v, x)
    case SetProtocolFeeBps(bps) => bps <= MAX_PROTOCOL_FEE_BPS
    case SetMaxSingleFillBps(bps) => 0 < bps <= BPS_DENOMINATOR
    case SendTokens(token, from, _, amount) => 0 <= amount <= w.ledger.Balance(token, from)
    case Tick(_) => true
  }

  lemma CapitalAllowedExactlyWhen(w: World, call: Call)
    requires Solvent(w.vault) && !AuctionCall(call) && !call.ExecuteWithdrawal?
    ensures Apply(w, call).Ok? <==> Allowed(w, call)
  {
    if call.Deposit? && call.node in w.vault.nodes {
      assert Uncommitted(w.vault, call.node) >= 0;
    }
  }

  /** In a reachable state every call succeeds exactly when its rules allow it. */
  lemma AcceptedExactlyWhen(w: World, call: Call)
    requires Inv(w)
    ensures Apply(w, call).Ok? <==> Allowed(w, call)
  {
    match call {
      case OpenExit(seller, asset, amount, reference, reserve, duration) =>
        OpenEffect(w, seller, asset, amount, reference, reserve, duration);
      case PlaceBid(node, id, usdc) => BidTakenExactlyWhen(w, node, id, usdc);
      case AcceptBid(signer, id) => StandingBidCanBePaid(w, signer, id);
      case Close(id) =>
        CloseServesExactlyWhen(w, id);
        if id in w.auction.exits && w.auction.exits[id].status == Status.Open {
          TurnMeansNobodyAhead(w, w.auction.exits[id]);
        }
      case Cancel(signer, id) => CancelEffect(w, signer, id);
      case ExecuteWithdrawal(node) => WithdrawalAlwaysExecutes(w, node);
      case _ => CapitalAllowedExactlyWhen(w, call);
    }
  }

  // ---- what a refusal says ----

  predicate OnExit(w: World, call: Call) {
    (call.PlaceBid? || call.AcceptBid? || call.Close? || call.Cancel?) && call.exitId in w.auction.exits
  }

  predicate OpeningExplains(call: Call, e: AuctionError)
    requires call.OpenExit?
  {
    || (e.InvalidAmount? && (call.amount <= 0 || call.minAcceptUsdc < 0))
    || (e.InvalidReference? && call.referenceUsdc <= 0)
    || (e.InvalidDuration? && call.duration.Some? && !(MIN_DURATION <= call.duration.value <= MAX_DURATION))
  }

  ghost predicate AuctionExplains(w: World, call: Call, x: Exit, e: AuctionError) {
    match call
    case PlaceBid(_, _, usdc) =>
      || (e.ExitClosed? && !x.Live())
      || (e.BiddingOver? && x.status == Status.Open && w.ledger.now > x.closesAt)
      || (e.InvalidAmount? && usdc <= 0)
      || (e.BidTooLow? && usdc <= x.bestUsdc)
    case AcceptBid(_, _) =>
      || (e.ExitClosed? && !x.Live())
      || (e.NoBids? && x.bestNode.None?)
      || (e.ReserveNotMet? && x.bestUsdc < x.minAcceptUsdc)
      || (e.NotAtHead? && !NobodyAhead(w, x))
    case Close(_) =>
      (e.ExitClosed? && x.status != Status.Open) || (e.StillBidding? && w.ledger.now <= x.closesAt)
    case _ => e.ExitClosed? && !x.Live()
  }

  /** What the vault says of a bid it does not back. */
  predicate CommitExplains(w: World, node: Address, x: Exit, usdc: int, e: VaultError) {
    var v, key := w.vault, (node, x.asset);
    match e
    case UnknownNode => node !in v.nodes
    case NoAppetite => key !in v.appetites
    case _ =>
      && node in v.nodes && key in v.appetites
      && var n, a := v.nodes[node], v.appetites[key];
         match e
         case AppetiteInactive => !a.active
         case BackingTooYoung => w.ledger.now < a.backedAt + MIN_BACKING_AGE
         case DiscountBelowFloor => usdc * BPS_DENOMINATOR > x.referenceUsdc * (BPS_DENOMINATOR - a.minDiscountBps)
         case InsufficientFreeBalance => usdc > n.deposited - n.committed - v.Reserved(node)
         case ExposureExceeded => a.exposure + usdc > a.maxExposure
         case SingleFillCapExceeded => usdc * BPS_DENOMINATOR > n.deposited * v.maxSingleFillBps
         case _ => false
  }

  /** The only thing that can go wrong once a bid is backed, or in a cancellation. */
  predicate ReleaseExplains(w: World, call: Call) {
    && OnExit(w, call)
    && var x := w.auction.exits[call.exitId];
       if call.PlaceBid? then !RivalLetsGo(w.vault, call.node, x) else call.Cancel? && !Releasable(w.vault, x)
  }

  predicate CapitalExplains(w: World, call: Call, e: VaultError) {
    var v := w.vault;
    match call
    case Deposit(node, amount) =>
      || (e.InvalidAmount? && amount <= 0)
      || (e.BelowMinDeposit? && amount < v.config.minDeposit && !(node in v.nodes && v.nodes[node].deposited > 0))
    case RequestWithdrawal(node, amount) =>
      || (e.InvalidAmount? && amount <= 0)
      || (e.WithdrawalPending? && node in v.withdrawals)
      || (e.UnknownNode? && node !in v.nodes)
      || (e.InsufficientFreeBalance? && node in v.nodes
          && amount > v.nodes[node].deposited - v.nodes[node].committed)
    case CancelWithdrawal(node) => e.NoWithdrawalPending? && node !in v.withdrawals
    case ExecuteWithdrawal(node) =>
      || (e.NoWithdrawalPending? && node !in v.withdrawals)
      || (e.TimelockNotElapsed? && node in v.withdrawals && w.ledger.now < v.withdrawals[node].unlockAt)
    case SetAppetite(node, _, ceiling, floor, _) =>
      || (e.InvalidAmount? && ceiling < 0)
      || (e.InvalidBps? && floor >= BPS_DENOMINATOR)
      || (e.UnknownNode? && node !in v.nodes)
    case ReduceExposure(node, asset, amount) =>
      (e.InvalidAmount? && amount <= 0) || (e.NoAppetite? && (node, asset) !in v.appetites)
    case SetMaxSingleFillBps(bps) => e.InvalidBps? && !(0 < bps <= BPS_DENOMINATOR)
    case _ => false
  }

  /** The payer of a call that takes tokens in is short of them. */
  predicate Short(w: World, call: Call) {
    match call
    case Deposit(node, amount) => w.ledger.Balance(w.vault.config.usdc, node) < amount
    case OpenExit(seller, asset, amount, _, _, _) => w.ledger.Balance(asset, seller) < amount
    case SendTokens(token, from, _, amount) => w.ledger.Balance(token, from) < amount
    case _ => false
  }

  /** What the code of a refusal claims about the records. */
  ghost predicate Explains(w: World, call: Call, e: Error) {
    match e
    case Auction(e) =>
      if call.OpenExit? then OpeningExplains(call, e)
      else if OnExit(w, call) then AuctionExplains(w, call, w.auction.exits[call.exitId], e)
      else AuctionCall(call) && e.UnknownExit?
    case Unauthorized => OnExit(w, call) && (call.AcceptBid? || call.Cancel?)
                         && call.signer != w.auction.exits[call.exitId].seller
    case Vault(e) =>
      if !AuctionCall(call) then CapitalExplains(w, call, e)
      else
        || (e.CommitUnderflow? && ReleaseExplains(w, call))
        || (call.PlaceBid? && OnExit(w, call)
            && CommitExplains(w, call.node, w.auction.exits[call.exitId], call.usdcAmount, e))
    case Router(e) => e.InvalidBps? && call.SetProtocolFeeBps? && call.bps > MAX_PROTOCOL_FEE_BPS
    case Queue(e) =>
      && e.QueueFull? && call.Close? && OnExit(w, call)
      && |w.queue.Line(w.auction.exits[call.exitId].asset)| >= MAX_QUEUE_DEPTH
    case Token(e) =>
      if e.NegativeAmount? then call.SendTokens? && call.amount < 0 else Short(w, call)
  }

  lemma CapitalRefusal(w: World, call: Call)
    requires Solvent(w.vault) && !AuctionCall(call) && !call.ExecuteWithdrawal? && Apply(w, call).Err?
    ensures Explains(w, call, Apply(w, call).error)
  {
    if call.Deposit? && call.node in w.vault.nodes {
      assert Uncommitted(w.vault, call.node) >= 0;
    }
  }

  lemma CommitRefusal(w: World, node: Address, x: Exit, usdc: int)
    requires usdc > 0 && x.referenceUsdc > 0
    ensures var commit := w.vault.Commit(w.ledger, node, x.asset, usdc, DiscountBps(x.referenceUsdc, usdc));
            commit.Err? ==> commit.error.Vault? && CommitExplains(w, node, x, usdc, commit.error.vault)
  {
    if node in w.vault.nodes && (node, x.asset) in w.vault.appetites {
      CapIsExact(usdc, w.vault.nodes[node].deposited, w.vault.maxSingleFillBps);
      if w.vault.appetites[(node, x.asset)].minDiscountBps > 0 {
        FloorIsExact(x.referenceUsdc, usdc, w.vault.appetites[(node, x.asset)].minDiscountBps);
      }
    }
  }

  lemma BidRefusal(w: World, call: Call)
    requires Inv(w) && call.PlaceBid? && Apply(w, call).Err?
    ensures Explains(w, call, Apply(w, call).error)
  {
    if TakesBids(w, call.exitId) && call.usdcAmount > w.auction.exits[call.exitId].bestUsdc {
      var x := w.auction.exits[call.exitId];
      assert WellFormed(x);
      CommitRefusal(w, call.node, x, call.usdcAmount);
      RivalIsReleasable(w, x, call.node);
      if w.vault.Commit(w.ledger, call.node, x.asset, call.usdcAmount,
                        DiscountBps(x.referenceUsdc, call.usdcAmount)).Ok? {
        OnlyAnotherRefuses(w, call);
      }
    }
  }

  lemma SaleRefusal(w: World, call: Call)
    requires Inv(w) && (call.AcceptBid? || call.Close?) && Apply(w, call).Err?
    ensures Explains(w, call, Apply(w, call).error)
  {
    if call.exitId in w.auction.exits && w.auction.exits[call.exitId].Live() {
      FillEffect(w, call.exitId);
      TurnMeansNobodyAhead(w, w.auction.exits[call.exitId]);
      if call.Close? && w.auction.exits[call.exitId].status == Status.Open {
        LinesJoined(w.auction, w.queue, w.ledger, w.auction.exits[call.exitId].(status := Status.Queued));
      }
    }
  }

  /** A refused call names a reason that is true of the records. */
  lemma RefusalIsExplained(w: World, call: Call)
    requires Inv(w) && Apply(w, call).Err?
    ensures Explains(w, call, Apply(w, call).error)
  {
    match call {
      case PlaceBid(_, _, _) => BidRefusal(w, call);
      case AcceptBid(_, _) => SaleRefusal(w, call);
      case Close(_) => SaleRefusal(w, call);
      case Cancel(signer, id) => CancelEffect(w, signer, id);
      case OpenExit(seller, asset, amount, reference, reserve, duration) =>
        OpenEffect(w, seller, asset, amount, reference, reserve, duration);
      case ExecuteWithdrawal(node) => WithdrawalAlwaysExecutes(w, node);
      case _ => CapitalRefusal(w, call);
    }
  }

  /** The errors a refused auction call can report. */
  predicate MayReport(w: World, call: Call, e: Error) {
    match call
    case AcceptBid(_, _) => e.Auction? || e.Unauthorized?
    case Close(_) => e.Auction? || e == Error.Queue(QueueFull)
    case Cancel(_, _) => e.Auction? || e.Unauthorized? || e == Error.Vault(CommitUnderflow)
    case OpenExit(_, _, _, _, _, _) => e.Auction? || e == Error.Token(InsufficientBalance)
    case PlaceBid(node, id, _) =>
      || e.Auction?
      || (e.Vault? && e.vault in COMMIT_REFUSALS)
      || (e == Error.Vault(CommitUnderflow) && HeldByAnother(w, node, id))
    case _ => true
  }

  /** What the vault may say to a bid it will not back. */
  const COMMIT_REFUSALS: set<VaultError> :=
    {UnknownNode, NoAppetite, AppetiteInactive, BackingTooYoung, DiscountBelowFloor, InsufficientFreeBalance,
     ExposureExceeded, SingleFillCapExceeded}

  /** A bid may be told CommitUnderflow only on account of another node's bid. */
  lemma ExplainedMayReport(w: World, call: Call, e: Error)
    requires Registry(w.auction) && Explains(w, call, e)
    ensures MayReport(w, call, e)
  {
    if call.PlaceBid? && OnExit(w, call) {
      RivalIsReleasable(w, w.auction.exits[call.exitId], call.node);
    }
  }

  /** What a refused auction call can report. The checks missing here can never fire. */
  lemma WhoRefuses(w: World, call: Call)
    requires Inv(w) && Apply(w, call).Err?
    ensures MayReport(w, call, Apply(w, call).error)
  {
    RefusalIsExplained(w, call);
    ExplainedMayReport(w, call, Apply(w, call).error);
  }

  // ---- what calls leave behind besides ----

  /** Nodes never disappear, keep the time they joined, and join at their first deposit. */
  ghost predicate JoinsAt(v: VaultState, v': VaultState, now: nat, newcomer: set<Address>) {
    && v'.nodes.Keys == v.nodes.Keys + newcomer
    && forall n :: n in v'.nodes ==> v'.nodes[n].joinedAt == if n in v.nodes then v.nodes[n].joinedAt else now
  }

  lemma ChangeKeepsNodes(w: World, w': World, c: Change)
    requires Made(w, w', c)
    ensures JoinsAt(w.vault, w'.vault, w.ledger.now, {})
  {
  }

  lemma CapitalSets(w: World, call: Call)
    requires !AuctionCall(call) && Apply(w, call).Ok?
    ensures SetsOnly(w, Step(w, call), call)
  {
  }

  /** The clock and the two settings move by the calls made for that, and by no other. */
  ghost predicate SetsOnly(w: World, w': World, call: Call) {
    && w'.ledger.now == w.ledger.now + (if call.Tick? then call.seconds else 0)
    && w'.router.feeBps == (if call.SetProtocolFeeBps? then call.bps else w.router.feeBps)
    && w'.vault.maxSingleFillBps == (if call.SetMaxSingleFillBps? then call.bps else w.vault.maxSingleFillBps)
    && JoinsAt(w.vault, w'.vault, w.ledger.now, if call.Deposit? then {call.node} else {})
  }

  lemma CallSetsOnly(w: World, call: Call)
    requires Inv(w) && Apply(w, call).Ok?
    ensures SetsOnly(w, Step(w, call), call)
  {
    if AuctionCall(call) {
      CallMakes(w, call);
      ChangeWrites(w, Step(w, call), ChangeOf(w, call));
      ChangeKeepsNodes(w, Step(w, call), ChangeOf(w, call));
    } else {
      CapitalSets(w, call);
    }
  }

  /** The seconds the ticks of a run add up to. */
  function Elapsed(calls: seq<Call>): nat {
    if calls == [] then 0 else (if calls[0].Tick? then calls[0].seconds else 0) + Elapsed(calls[1..])
  }

  /** Over any run the clock shows exactly the ticks, and no node leaves or joins again. */
  lemma {:induction false} ClockOverRuns(w: World, calls: seq<Call>)
    requires Inv(w)
    ensures Run(w, calls).ledger.now == w.ledger.now + Elapsed(calls)
    ensures forall n :: n in w.vault.nodes ==>
              n in Run(w, calls).vault.nodes && Run(w, calls).vault.nodes[n].joinedAt == w.vault.nodes[n].joinedAt
    decreases |calls|
  {
    if calls != [] {
      StepKeeps(w, calls[0]);
      if Apply(w, calls[0]).Ok? {
        CallSetsOnly(w, calls[0]);
      }
      ClockOverRuns(Step(w, calls[0]), calls[1..]);
    }
  }
}
