/**
 Price-only priority over whole runs, read off the event log: bids on an exit only rise, the
 last one is what the contracts hold the node to, and a sale is made at the highest of all.
 */
module Prices {
  import opened Ledger
  import opened SettlementRouter
  import opened ExitAuction
  import opened Chain
  import opened Invariant
  import opened Settlement
  import opened Effects
  import opened Changes
  import opened Reachable
  import opened Guarantees
  import opened NoOvertaking
  import opened EventLog

  ghost predicate Rising(quotes: seq<Quote>) {
    && (forall i :: 0 <= i < |quotes| ==> quotes[i].usdc > 0)
    && (forall i, j :: 0 <= i < j < |quotes| ==> quotes[i].usdc < quotes[j].usdc)
  }

  /** The exit's standing bid is the last of `quotes`. */
  predicate StandsAt(x: Exit, quotes: seq<Quote>) {
    if quotes == [] then x.bestNode == None && x.bestUsdc == 0
    else x.bestNode == Some(quotes[|quotes| - 1].node) && x.bestUsdc == quotes[|quotes| - 1].usdc
  }

  ghost predicate PricedAt(a: AuctionState, log: seq<Event>, id: nat) {
    && Rising(QuotesOn(log, id))
    && (id in a.exits && a.exits[id].status != Status.Cancelled ==> StandsAt(a.exits[id], QuotesOn(log, id)))
    && (id !in a.exits ==> QuotesOn(log, id) == [])
  }

  ghost predicate Priced(w: World) {
    forall id :: PricedAt(w.auction, w.ledger.log, id)
  }

  lemma {:induction false} NoQuotes(es: seq<Event>, id: nat)
    requires forall e :: e in es ==> QuoteIn(e, id) == []
    ensures QuotesOn(es, id) == []
  {
    if es != [] {
      NoQuotes(es[..|es| - 1], id);
    }
  }

  /** Events with no bid on `id` add no quote to it. */
  lemma {:induction false} QuietQuotes(log: seq<Event>, es: seq<Event>, id: nat)
    requires forall e :: e in es ==> QuoteIn(e, id) == []
    ensures QuotesOn(log + es, id) == QuotesOn(log, id)
  {
    QuotesAppend(log, es, id);
    NoQuotes(es, id);
    assert QuotesOn(log, id) + [] == QuotesOn(log, id);
  }

  lemma {:induction false} BidHasOneQuote(x: Exit, node: Address, usdc: int, id: nat)
    requires usdc > 0
    ensures QuotesOn(BidEvents(x, node, usdc), id) == if id == x.id then [Quote(node, usdc)] else []
  {
    var es := BidEvents(x, node, usdc);
    var front := [Committed(node, x.asset, usdc)] + ReleaseEvents(x);
    NoQuotes(front, id);
    assert es[..|es| - 1] == front;
  }

  /** Publishing events with no bid on `id`, without touching its standing bid, keeps its price. */
  lemma QuietPrice(w: World, w': World, es: seq<Event>, id: nat)
    requires PricedAt(w.auction, w.ledger.log, id) && w'.ledger.log == w.ledger.log + es
    requires forall e :: e in es ==> QuoteIn(e, id) == []
    requires id in w'.auction.exits && w'.auction.exits[id].status != Status.Cancelled ==>
               if id in w.auction.exits
               then && w.auction.exits[id].status != Status.Cancelled
                    && w'.auction.exits[id].bestNode == w.auction.exits[id].bestNode
                    && w'.auction.exits[id].bestUsdc == w.auction.exits[id].bestUsdc
               else StandsAt(w'.auction.exits[id], [])
    requires id !in w'.auction.exits ==> id !in w.auction.exits
    ensures PricedAt(w'.auction, w'.ledger.log, id)
  {
    QuietQuotes(w.ledger.log, es, id);
  }

  /** What `BidTo` says about the exit and the log, and nothing about the vault. */
  predicate BidRecorded(w: World, w': World, x: Exit, node: Address, usdc: int) {
    && usdc > x.bestUsdc >= 0
    && w'.auction == SetExit(w.auction, x.WithBid(node, usdc))
    && w'.ledger.log == w.ledger.log + BidEvents(x, node, usdc)
  }

  lemma RisingOn(quotes: seq<Quote>, x: Exit, q: Quote)
    requires Rising(quotes) && StandsAt(x, quotes) && q.usdc > x.bestUsdc >= 0
    ensures Rising(quotes + [q])
    ensures StandsAt(x.WithBid(q.node, q.usdc), quotes + [q])
  {
  }

  lemma BidPrice(w: World, w': World, x: Exit, node: Address, usdc: int, id: nat)
    requires PricedAt(w.auction, w.ledger.log, id)
    requires Known(w, x)
    requires BidRecorded(w, w', x, node, usdc)
    ensures PricedAt(w'.auction, w'.ledger.log, id)
  {
    var quotes := QuotesOn(w.ledger.log, id);
    var quotes' := QuotesOn(w'.ledger.log, id);
    assert quotes' == if id == x.id then quotes + [Quote(node, usdc)] else quotes by {
      QuotesAppend(w.ledger.log, BidEvents(x, node, usdc), id);
      BidHasOneQuote(x, node, usdc, id);
    }
    if id == x.id {
      RisingOn(quotes, x, Quote(node, usdc));
    }
  }

  lemma ChangePrice(w: World, w': World, c: Change, id: nat)
    requires Registry(w.auction) && PricedAt(w.auction, w.ledger.log, id) && Made(w, w', c)
    ensures PricedAt(w'.auction, w'.ledger.log, id)
  {
    if c.Bids? {
      BidPrice(w, w', c.exit, c.node, c.usdc, id);
    } else {
      ChangeWrites(w, w', c);
      ChangeAppended(w, w', c);
      ChangeSpeaks(w, c);
      QuietPrice(w, w', ChangeEvents(w, c), id);
    }
  }

  lemma PriceStep(w: World, call: Call)
    requires Inv(w) && Priced(w)
    ensures Priced(Step(w, call))
  {
    if Apply(w, call).Ok? {
      if AuctionCall(call) {
        CallMakes(w, call);
      } else {
        CapitalAppended(w, call);
        OtherCallsKeepExits(w, call);
      }
      forall id
        ensures PricedAt(Step(w, call).auction, Step(w, call).ledger.log, id)
      {
        assert PricedAt(w.auction, w.ledger.log, id);
        if AuctionCall(call) {
          ChangePrice(w, Step(w, call), ChangeOf(w, call), id);
        } else {
          QuietPrice(w, Step(w, call), CapitalEvents(w, call), id);
        }
      }
    }
  }

  lemma {:induction false} PriceOverRuns(w: World, calls: seq<Call>)
    requires Inv(w) && Priced(w)
    ensures Priced(Run(w, calls))
    decreases |calls|
  {
    if calls != [] {
      StepKeeps(w, calls[0]);
      PriceStep(w, calls[0]);
      PriceOverRuns(Step(w, calls[0]), calls[1..]);
    }
  }

  lemma {:induction false} PricedFromGenesis(w: World, calls: seq<Call>)
    requires Genesis(w)
    ensures Inv(Run(w, calls)) && Priced(Run(w, calls))
  {
    GenesisHolds(w);
    ReachableHolds(w, calls);
    assert forall id :: QuotesOn(w.ledger.log, id) == [];
    PriceOverRuns(w, calls);
  }

  /**
   A settled exit was sold to the author of the highest bid ever accepted on it, at that
   price and no less than the reserve; at the fee in force no other bid would have left the
   seller more.
   */
  lemma {:induction false} SoldAtTheHighestBid(w0: World, calls: seq<Call>, id: nat)
    requires Genesis(w0)
    requires id in Run(w0, calls).auction.exits && Run(w0, calls).auction.exits[id].status == Status.Settled
    ensures var w := Run(w0, calls);
            var x := w.auction.exits[id];
            var quotes := QuotesOn(w.ledger.log, id);
            && Rising(quotes) && quotes != []
            && x.bestNode == Some(quotes[|quotes| - 1].node)
            && x.bestUsdc >= x.minAcceptUsdc
            && NoneBetter(quotes, x.bestUsdc)
  {
    PricedFromGenesis(w0, calls);
    var w := Run(w0, calls);
    assert PricedAt(w.auction, w.ledger.log, id);
    assert WellFormed(w.auction.exits[id]);
    LastIsHighest(w.auction.exits[id], QuotesOn(w.ledger.log, id));
  }

  /** No quote is above `best`, and none would have left the seller more. */
  ghost predicate NoneBetter(quotes: seq<Quote>, best: int) {
    forall i :: 0 <= i < |quotes| ==> quotes[i].usdc <= best && NeverBetter(quotes[i].usdc, best)
  }

  lemma LastIsHighest(x: Exit, quotes: seq<Quote>)
    requires Rising(quotes) && StandsAt(x, quotes)
    ensures NoneBetter(quotes, x.bestUsdc)
  {
    forall i | 0 <= i < |quotes|
      ensures quotes[i].usdc <= x.bestUsdc && NeverBetter(quotes[i].usdc, x.bestUsdc)
    {
      HigherIsBetter(quotes[i].usdc, x.bestUsdc);
    }
  }

  /** At any fee the protocol may charge, `low` leaves the seller something, and no more than `high`. */
  ghost predicate NeverBetter(low: int, high: int) {
    forall feeBps: nat :: feeBps <= MAX_PROTOCOL_FEE_BPS ==> 0 < NetOf(low, feeBps) <= NetOf(high, feeBps)
  }

  lemma HigherIsBetter(low: int, high: int)
    requires 0 < low <= high
    ensures NeverBetter(low, high)
  {
    forall feeBps: nat | feeBps <= MAX_PROTOCOL_FEE_BPS
      ensures 0 < NetOf(low, feeBps) <= NetOf(high, feeBps)
    {
      FeeBounds(low, feeBps);
      NetIsMonotone(low, high, feeBps);
    }
  }

  function NetOf(gross: int, feeBps: nat): int {
    gross - Fee(gross, feeBps)
  }

  /** A higher gross never leaves the seller less: the fee grows no faster than the bid. */
  lemma NetIsMonotone(low: int, high: int, feeBps: nat)
    requires 0 < low <= high && feeBps <= MAX_PROTOCOL_FEE_BPS
    ensures NetOf(low, feeBps) <= NetOf(high, feeBps)
  {
    FeeBounds(low, feeBps);
    FeeBounds(high, feeBps);
    ScaleUp(low, high, feeBps);
    FloorsGrowSlowly(Fee(low, feeBps), Fee(high, feeBps), low * feeBps, high * feeBps, high - low);
  }

  lemma ScaleUp(low: int, high: int, feeBps: nat)
    requires low <= high && feeBps <= MAX_PROTOCOL_FEE_BPS
    ensures low * feeBps <= high * feeBps <= low * feeBps + (high - low) * MAX_PROTOCOL_FEE_BPS
  {
    var more := high - low;
    Scales(more, feeBps);
    assert high * feeBps == low * feeBps + more * feeBps;
  }

  lemma Scales(more: int, feeBps: nat)
    requires more >= 0 && feeBps <= MAX_PROTOCOL_FEE_BPS
    ensures 0 <= more * feeBps <= more * MAX_PROTOCOL_FEE_BPS
  {
    assert more * MAX_PROTOCOL_FEE_BPS == more * feeBps + more * (MAX_PROTOCOL_FEE_BPS - feeBps);
  }

  lemma FloorsGrowSlowly(f: int, g: int, a: int, b: int, extra: int)
    requires f * BPS_DENOMINATOR <= a < (f + 1) * BPS_DENOMINATOR
    requires g * BPS_DENOMINATOR <= b < (g + 1) * BPS_DENOMINATOR
    requires extra >= 0 && a <= b <= a + extra * MAX_PROTOCOL_FEE_BPS
    ensures g - f <= extra
  {
  }

  /**
   Bids are binding. Whatever happens after a bid stands on a live exit, as long as the exit lives
   the seller can take that price or better once it meets the reserve and the line allows it.
   */
  lemma {:induction false} QuoteCannotBeWithdrawn(w: World, calls: seq<Call>, id: nat)
    requires Inv(w) && id in w.auction.exits && w.auction.exits[id].bestNode.Some?
    requires id in Run(w, calls).auction.exits && Run(w, calls).auction.exits[id].Live()
    requires w.auction.exits[id].bestUsdc >= w.auction.exits[id].minAcceptUsdc
    ensures var w' := Run(w, calls);
            var x' := w'.auction.exits[id];
            && x'.bestUsdc >= w.auction.exits[id].bestUsdc
            && (w'.AcceptBid(x'.seller, id).Ok? <==> NobodyAhead(w', x'))
  {
    RunKeeps(w, calls);
    ExitOverRuns(w, calls, id);
    var w' := Run(w, calls);
    var x' := w'.auction.exits[id];
    assert WellFormed(x') && WellFormed(w.auction.exits[id]);
    StandingBidCanBePaid(w', x'.seller, id);
  }
}
