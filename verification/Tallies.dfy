/**
 Counting: how often the log shows something is how many calls of the run made it happen, and
 the sales it shows a node winning are the settled exits it holds the bid of.
 */
module Tallies {
  import opened Ledger
  import opened ExitAuction
  import opened Totals
  import opened Chain
  import opened Invariant
  import opened Effects
  import opened Changes
  import opened Preservation
  import opened Reachable
  import opened Guarantees
  import opened EventLog
  import opened Conservation

  predicate OnAsset(a: AuctionState, id: nat, asset: Address) {
    id in a.exits && a.exits[id].asset == asset
  }

  predicate HeldBy(a: AuctionState, id: nat, n: Address) {
    id in a.exits && a.exits[id].bestNode == Some(n)
  }

  /** A successful `call` from `w` to `w'` is one of those counted. */
  predicate Makes(w: World, w': World, call: Call, t: Tally) {
    match t
    case Deposited(n) => call.Deposit? && call.node == n
    case Withdrawn(n) => call.ExecuteWithdrawal? && call.node == n
    case Bade(n) => call.PlaceBid? && call.node == n
    case Outbid(n) => call.PlaceBid? && HeldBy(w.auction, call.exitId, n)
    case BidsOn(a) => call.PlaceBid? && OnAsset(w.auction, call.exitId, a)
    case Won(n) => (call.AcceptBid? || call.Close?) && HeldBy(w.auction, call.exitId, n)
                   && SettledIn(w'.auction, call.exitId)
    case JoinedOn(a) => call.Close? && OnAsset(w.auction, call.exitId, a) && !SettledIn(w'.auction, call.exitId)
  }

  /** The successful calls of a run that count. */
  function CallsMade(w: World, calls: seq<Call>, t: Tally): nat
    decreases |calls|
  {
    if calls == [] then 0
    else
      (if Apply(w, calls[0]).Ok? && Makes(w, Step(w, calls[0]), calls[0], t) then 1 else 0)
      + CallsMade(Step(w, calls[0]), calls[1..], t)
  }

  // ---- one call ----

  predicate Counts(c: Change, t: Tally) {
    match c
    case Bids(x, node, _) =>
      || (t.Bade? && node == t.node) || (t.Outbid? && x.bestNode == Some(t.node)) || (t.BidsOn? && x.asset == t.asset)
    case Sells(x) => t.Won? && x.bestNode == Some(t.node)
    case Joins(x) => t.JoinedOn? && x.asset == t.asset
    case _ => false
  }

  lemma {:induction false} BidTally(w: World, w': World, x: Exit, node: User, usdc: int, t: Tally)
    requires usdc > 0 && w'.ledger.log == w.ledger.log + BidEvents(x, node, usdc)
    ensures Flowed(Times(t), w'.ledger.log)
         == Flowed(Times(t), w.ledger.log) + if Counts(Bids(x, node, usdc), t) then 1 else 0
  {
    var front := [Committed(node, x.asset, usdc)] + ReleaseEvents(x);
    var bid := Bid(x.asset, x.id, node, usdc, DiscountBps(x.referenceUsdc, usdc), x.bestNode);
    assert w'.ledger.log == (w.ledger.log + front) + [bid];
    FlowedAppend(Times(t), w.ledger.log + front, [bid]);
    FlowOfOne(Times(t), bid);
    FlowedAppend(Times(t), w.ledger.log, front);
    NothingYet(x, node, usdc, t);
  }

  lemma {:induction false} NothingYet(x: Exit, node: User, usdc: int, t: Tally)
    ensures Flowed(Times(t), [Committed(node, x.asset, usdc)] + ReleaseEvents(x)) == 0
  {
    NoFlow(Times(t), [Committed(node, x.asset, usdc)] + ReleaseEvents(x));
  }

  lemma {:induction false} SaleTally(w: World, w': World, x: Exit, t: Tally)
    requires Filled(w, w', x)
    ensures Flowed(Times(t), w'.ledger.log) == Flowed(Times(t), w.ledger.log) + if Counts(Sells(x), t) then 1 else 0
  {
    FilledFlow(w, w', x, Times(t));
  }

  lemma {:induction false} JoinTally(w: World, w': World, x: Exit, t: Tally)
    requires w'.ledger.log == w.ledger.log + QueueEvents(w, x)
    ensures Flowed(Times(t), w'.ledger.log) == Flowed(Times(t), w.ledger.log) + if Counts(Joins(x), t) then 1 else 0
  {
    FlowOfOne(Times(t), QueueEvents(w, x)[0]);
    FlowedAppend(Times(t), w.ledger.log, QueueEvents(w, x));
  }

  lemma {:induction false} CancelTally(w: World, w': World, x: Exit, t: Tally)
    requires w'.ledger.log == w.ledger.log + CancelEvents(w, x)
    ensures Flowed(Times(t), w'.ledger.log) == Flowed(Times(t), w.ledger.log)
  {
    QuietFlow(w, w', CancelEvents(w, x), Times(t));
  }

  lemma {:induction false} OpenTally(w: World, w': World, x: Exit, t: Tally)
    requires w'.ledger.log == w.ledger.log + OpenEvents(x)
    ensures Flowed(Times(t), w'.ledger.log) == Flowed(Times(t), w.ledger.log)
  {
    QuietFlow(w, w', OpenEvents(x), Times(t));
  }

  lemma {:induction false} ChangeTally(w: World, w': World, c: Change, t: Tally)
    requires Made(w, w', c)
    ensures Flowed(Times(t), w'.ledger.log) == Flowed(Times(t), w.ledger.log) + if Counts(c, t) then 1 else 0
  {
    match c {
      case Opens(x) => OpenTally(w, w', x, t);
      case Bids(x, node, usdc) => BidTally(w, w', x, node, usdc, t);
      case Sells(x) => SaleTally(w, w', x, t);
      case Joins(x) => JoinTally(w, w', x, t);
      case Drops(x) => CancelTally(w, w', x, t);
    }
  }

  /** A change counts exactly when its call does. */
  lemma CallCounts(w: World, w': World, call: Call, t: Tally)
    requires Registry(w.auction) && Names(w, call)
    requires !call.OpenExit? ==> w'.auction == SetExit(w.auction, After(ChangeOf(w, call)))
    ensures Counts(ChangeOf(w, call), t) <==> Makes(w, w', call, t)
  {
  }

  lemma {:induction false} CapitalTally(w: World, call: Call, t: Tally)
    requires !AuctionCall(call)
    ensures Flowed(Times(t), CapitalEvents(w, call)) == if Makes(w, w, call, t) then 1 else 0
  {
    CapitalFlow(w, call, Times(t));
  }

  lemma {:induction false} TallyStep(w: World, call: Call, t: Tally)
    requires Inv(w) && Apply(w, call).Ok?
    ensures Flowed(Times(t), Step(w, call).ledger.log)
         == Flowed(Times(t), w.ledger.log) + if Makes(w, Step(w, call), call, t) then 1 else 0
  {
    if AuctionCall(call) {
      CallMakes(w, call);
      ChangeWrites(w, Step(w, call), ChangeOf(w, call));
      CallCounts(w, Step(w, call), call, t);
      ChangeTally(w, Step(w, call), ChangeOf(w, call), t);
    } else {
      CapitalAppended(w, call);
      CapitalTally(w, call, t);
      FlowedAppend(Times(t), w.ledger.log, CapitalEvents(w, call));
    }
  }

  // ---- runs ----

  /** Over any run the log shows each of these things exactly as often as a call made it happen. */
  lemma {:induction false} TalliesCountCalls(w: World, calls: seq<Call>, t: Tally)
    requires Inv(w)
    ensures Flowed(Times(t), Run(w, calls).ledger.log) == Flowed(Times(t), w.ledger.log) + CallsMade(w, calls, t)
    decreases |calls|
  {
    if calls != [] {
      StepKeeps(w, calls[0]);
      if Apply(w, calls[0]).Ok? {
        TallyStep(w, calls[0], t);
      }
      TalliesCountCalls(Step(w, calls[0]), calls[1..], t);
    }
  }

  /** A change settles an exit for node `n` exactly when it counts as won by `n`. */
  lemma ChangeWon(w: World, w': World, c: Change, n: Address)
    requires Registry(w.auction) && Made(w, w', c)
    ensures Ledgered(WonBy(n), w'.auction) == Ledgered(WonBy(n), w.auction) + if Counts(c, Won(n)) then 1 else 0
  {
    ChangeWrites(w, w', c);
    RecordedTotals(w.auction, w'.auction, After(c), WonBy(n));
  }

  lemma WonStep(w: World, call: Call, n: Address)
    requires Inv(w) && Apply(w, call).Ok?
    ensures Ledgered(WonBy(n), Step(w, call).auction)
         == Ledgered(WonBy(n), w.auction) + if Makes(w, Step(w, call), call, Won(n)) then 1 else 0
  {
    if AuctionCall(call) {
      CallMakes(w, call);
      ChangeWrites(w, Step(w, call), ChangeOf(w, call));
      CallCounts(w, Step(w, call), call, Won(n));
      ChangeWon(w, Step(w, call), ChangeOf(w, call), n);
    } else {
      OtherCallsKeepExits(w, call);
    }
  }

  /** Over any run a node holds the bid of one more settled exit for every sale made to it. */
  lemma {:induction false} WonOverRuns(w: World, calls: seq<Call>, n: Address)
    requires Inv(w)
    ensures Ledgered(WonBy(n), Run(w, calls).auction) == Ledgered(WonBy(n), w.auction) + CallsMade(w, calls, Won(n))
    decreases |calls|
  {
    if calls != [] {
      StepKeeps(w, calls[0]);
      if Apply(w, calls[0]).Ok? {
        WonStep(w, calls[0], n);
      }
      WonOverRuns(Step(w, calls[0]), calls[1..], n);
    }
  }
}
