/**
 What the snapshot's rows say about bids, against the quotes on each exit: how many there were,
 which one stands, who made how many of them, whom the next one displaced, and at what fee rate
 the last one was settled.
 */
module BidHistory {
  import opened Ledger
  import opened SettlementRouter
  import opened ExitAuction
  import opened Totals
  import opened Chain
  import opened Invariant
  import opened Effects
  import opened Changes
  import opened Reachable
  import opened Guarantees
  import opened NoOvertaking
  import opened EventLog
  import opened Prices
  import opened SnapshotRows
  import opened Mirror
  import opened MirrorAssets
  import opened SnapshotRefines

  /** The author of the last quote. */
  function Lead(quotes: seq<Quote>): Option<Address> {
    if quotes == [] then None else Some(quotes[|quotes| - 1].node)
  }

  // ---- every bid event tells the truth ----

  /** A bid event names a known exit's asset, its discount off the reference, and whom it displaces. */
  predicate ToldRight(a: AuctionState, before: seq<Event>, e: Event) {
    e.Bid? ==>
      && e.exitId in a.exits && e.asset == a.exits[e.exitId].asset && e.usdcAmount > 0
      && e.discountBps == DiscountBps(a.exits[e.exitId].referenceUsdc, e.usdcAmount)
      && e.outbid == Lead(QuotesOn(before, e.exitId))
  }

  predicate AllToldRight(a: AuctionState, log: seq<Event>) {
    log == []
    || (AllToldRight(a, Init(log)) && ToldRight(a, Init(log), Last(log)))
  }

  ghost predicate TermsKept(a: AuctionState, a': AuctionState) {
    forall id :: id in a.exits ==>
      && id in a'.exits && a'.exits[id].asset == a.exits[id].asset
      && a'.exits[id].referenceUsdc == a.exits[id].referenceUsdc
  }

  lemma {:induction false} StillToldRight(a: AuctionState, a': AuctionState, log: seq<Event>)
    requires AllToldRight(a, log) && TermsKept(a, a')
    ensures AllToldRight(a', log)
  {
    if log != [] {
      StillToldRight(a, a', Init(log));
    }
  }

  lemma {:induction false} ToldGrows(a: AuctionState, log: seq<Event>, e: Event)
    requires AllToldRight(a, log) && ToldRight(a, log, e)
    ensures AllToldRight(a, log + [e])
  {
    assert Init(log + [e]) == log;
  }

  lemma {:induction false} QuietlyTold(a: AuctionState, log: seq<Event>, es: seq<Event>)
    requires AllToldRight(a, log) && forall e :: e in es ==> !e.Bid?
    ensures AllToldRight(a, log + es)
  {
    if es == [] {
      assert log + es == log;
    } else {
      assert log + es == (log + Init(es)) + [Last(es)] && Last(es) in es;
      QuietlyTold(a, log, Init(es));
      ToldGrows(a, log + Init(es), Last(es));
    }
  }

  lemma {:induction false} BidIsTold(a: AuctionState, log: seq<Event>, front: seq<Event>, bid: Event)
    requires AllToldRight(a, log) && ToldRight(a, log, bid) && forall e :: e in front ==> !e.Bid?
    ensures AllToldRight(a, log + (front + [bid]))
  {
    QuietlyTold(a, log, front);
    if bid.Bid? {
      QuietQuotes(log, front, bid.exitId);
    }
    assert log + (front + [bid]) == (log + front) + [bid];
    ToldGrows(a, log + front, bid);
  }

  lemma ChangeTold(w: World, w': World, c: Change)
    requires Registry(w.auction) && Made(w, w', c) && AllToldRight(w.auction, w.ledger.log)
    requires PricedAt(w.auction, w.ledger.log, c.exit.id)
    ensures AllToldRight(w'.auction, w'.ledger.log)
  {
    ChangeWrites(w, w', c);
    ChangeAppended(w, w', c);
    StillToldRight(w.auction, w'.auction, w.ledger.log);
    if c.Bids? {
      BidIsTold(w'.auction, w.ledger.log, [Committed(c.node, c.exit.asset, c.usdc)] + ReleaseEvents(c.exit),
                Bid(c.exit.asset, c.exit.id, c.node, c.usdc, DiscountBps(c.exit.referenceUsdc, c.usdc),
                    c.exit.bestNode));
    } else {
      ChangeSpeaks(w, c);
      QuietlyTold(w'.auction, w.ledger.log, ChangeEvents(w, c));
    }
  }

  lemma {:induction false} ToldOverRuns(w: World, calls: seq<Call>)
    requires Inv(w) && Priced(w) && AllToldRight(w.auction, w.ledger.log)
    ensures AllToldRight(Run(w, calls).auction, Run(w, calls).ledger.log)
    decreases |calls|
  {
    if calls != [] {
      var w' := Step(w, calls[0]);
      StepKeeps(w, calls[0]);
      PriceStep(w, calls[0]);
      if Apply(w, calls[0]).Ok? {
        if AuctionCall(calls[0]) {
          CallMakes(w, calls[0]);
          ChangeTold(w, w', ChangeOf(w, calls[0]));
        } else {
          CapitalAppended(w, calls[0]);
          OtherCallsKeepExits(w, calls[0]);
          QuietlyTold(w.auction, w.ledger.log, CapitalEvents(w, calls[0]));
        }
      }
      ToldOverRuns(w', calls[1..]);
    }
  }

  // ---- an exit's row ----

  /** The row counts the quotes and shows the last of them, with its discount. */
  predicate ShowsQuotes(r: ExitRow, reference: int, quotes: seq<Quote>) {
    && r.bidCount == |quotes|
    && if quotes == [] then r.bestBid == None && r.bestNode == None && r.bestDiscountBps == None
       else
         var last := quotes[|quotes| - 1];
         && last.usdc > 0 && r.bestBid == Some(last.usdc) && r.bestNode == Some(last.node)
         && r.bestDiscountBps == Some(DiscountBps(reference, last.usdc))
  }

  lemma {:induction false} RowShowsQuotes(a: AuctionState, log: seq<Event>, id: nat)
    requires AllToldRight(a, log) && id in a.exits
    ensures ShowsQuotes(ExitRowOf(log, a.exits[id].asset, id), a.exits[id].referenceUsdc, QuotesOn(log, id))
  {
    if log != [] {
      RowShowsQuotes(a, Init(log), id);
    }
  }

  // ---- a node's row ----

  /** How many of the quotes are by `n`. */
  function PlacedBy(quotes: seq<Quote>, n: Address): nat {
    if quotes == [] then 0
    else PlacedBy(quotes[..|quotes| - 1], n) + One(quotes[|quotes| - 1].node == n)
  }

  /** How many of them were followed by another. */
  function BeatenOf(quotes: seq<Quote>, n: Address): nat {
    if quotes == [] then 0 else PlacedBy(quotes[..|quotes| - 1], n)
  }

  /** The sum over all ids below `bound`. */
  function SumTo(f: nat -> nat, bound: nat): nat {
    if bound == 0 then 0 else SumTo(f, bound - 1) + f(bound - 1)
  }

  /** By exit: how many quotes on it are by `n`. */
  function QuotesBy(log: seq<Event>, n: Address): nat -> nat {
    (id: nat) => PlacedBy(QuotesOn(log, id), n)
  }

  /** By exit: how many quotes of `n` on it were followed by another. */
  function OutbidOn(log: seq<Event>, n: Address): nat -> nat {
    (id: nat) => BeatenOf(QuotesOn(log, id), n)
  }

  /** One term grows by `d`. */
  lemma {:induction false} SumGrows(f: nat -> nat, g: nat -> nat, k: nat, d: nat, bound: nat)
    requires forall id: nat :: g(id) == f(id) + if id == k then d else 0
    ensures SumTo(g, bound) == SumTo(f, bound) + if k < bound then d else 0
  {
    if bound > 0 {
      SumGrows(f, g, k, d, bound - 1);
    }
  }

  lemma {:induction false} OneMoreQuote(quotes: seq<Quote>, q: Quote, n: Address)
    ensures PlacedBy(quotes + [q], n) == PlacedBy(quotes, n) + One(q.node == n)
    ensures BeatenOf(quotes + [q], n) == BeatenOf(quotes, n) + One(Lead(quotes) == Some(n))
  {
    assert (quotes + [q])[..|quotes|] == quotes;
  }

  /** One more event adds at most one quote to an exit. */
  lemma {:induction false} QuoteGrows(log: seq<Event>, n: Address, id: nat)
    requires log != []
    ensures var e, before := Last(log), Init(log);
            && PlacedBy(QuotesOn(log, id), n)
                 == PlacedBy(QuotesOn(before, id), n) + One(e.Bid? && e.exitId == id && e.node == n)
            && BeatenOf(QuotesOn(log, id), n)
                 == BeatenOf(QuotesOn(before, id), n)
                    + One(e.Bid? && e.exitId == id && Lead(QuotesOn(before, id)) == Some(n))
  {
    var e, before := Last(log), Init(log);
    if e.Bid? && e.exitId == id {
      OneMoreQuote(QuotesOn(before, id), Quote(e.node, e.usdcAmount), n);
    } else {
      assert QuotesOn(before, id) + [] == QuotesOn(before, id);
    }
  }

  /** Over all exits it adds at most one, to the exit it names. */
  lemma {:induction false} SumsGrow(log: seq<Event>, n: Address, bound: nat)
    requires log != [] && Last(log).Bid? && Last(log).exitId < bound
    ensures var e, before := Last(log), Init(log);
            && SumTo(QuotesBy(log, n), bound) == SumTo(QuotesBy(before, n), bound) + One(e.node == n)
            && SumTo(OutbidOn(log, n), bound)
                 == SumTo(OutbidOn(before, n), bound) + One(Lead(QuotesOn(before, e.exitId)) == Some(n))
  {
    var e, before := Last(log), Init(log);
    forall id
      ensures QuotesBy(log, n)(id) == QuotesBy(before, n)(id) + if id == e.exitId then One(e.node == n) else 0
      ensures OutbidOn(log, n)(id) == OutbidOn(before, n)(id)
                + if id == e.exitId then One(Lead(QuotesOn(before, e.exitId)) == Some(n)) else 0
    {
      QuoteGrows(log, n, id);
    }
    SumGrows(QuotesBy(before, n), QuotesBy(log, n), e.exitId, One(e.node == n), bound);
    SumGrows(OutbidOn(before, n), OutbidOn(log, n), e.exitId, One(Lead(QuotesOn(before, e.exitId)) == Some(n)), bound);
  }

  lemma {:induction false} SumsStay(log: seq<Event>, n: Address, bound: nat)
    requires log != [] && !Last(log).Bid?
    ensures SumTo(QuotesBy(log, n), bound) == SumTo(QuotesBy(Init(log), n), bound)
    ensures SumTo(OutbidOn(log, n), bound) == SumTo(OutbidOn(Init(log), n), bound)
  {
    forall id
      ensures QuotesBy(log, n)(id) == QuotesBy(Init(log), n)(id)
      ensures OutbidOn(log, n)(id) == OutbidOn(Init(log), n)(id)
    {
      QuoteGrows(log, n, id);
    }
    SumGrows(QuotesBy(Init(log), n), QuotesBy(log, n), 0, 0, bound);
    SumGrows(OutbidOn(Init(log), n), OutbidOn(log, n), 0, 0, bound);
  }

  lemma BidRead(r: NodeRow, n: Address, e: Event)
    ensures NodeRead(r, n, e).bidsPlaced == r.bidsPlaced + One(e.Bid? && e.node == n)
    ensures NodeRead(r, n, e).bidsOutbid == r.bidsOutbid + One(e.Bid? && e.outbid == Some(n))
  {
  }

  /** One more event, and the row that counted the quotes before it counts them after it. */
  lemma CountsOneMore(r: NodeRow, a: AuctionState, log: seq<Event>, n: Address)
    requires log != [] && Registry(a) && ToldRight(a, Init(log), Last(log))
    requires r.bidsPlaced == SumTo(QuotesBy(Init(log), n), a.nextId)
    requires r.bidsOutbid == SumTo(OutbidOn(Init(log), n), a.nextId)
    ensures NodeRead(r, n, Last(log)).bidsPlaced == SumTo(QuotesBy(log, n), a.nextId)
    ensures NodeRead(r, n, Last(log)).bidsOutbid == SumTo(OutbidOn(log, n), a.nextId)
  {
    BidRead(r, n, Last(log));
    if Last(log).Bid? {
      SumsGrow(log, n, a.nextId);
    } else {
      SumsStay(log, n, a.nextId);
    }
  }

  /** A node's row counts its quotes, and those another quote followed. */
  lemma {:induction false} RowCountsQuotes(a: AuctionState, log: seq<Event>, n: Address)
    requires Registry(a) && AllToldRight(a, log)
    ensures NodeRowOf(log, n).bidsPlaced == SumTo(QuotesBy(log, n), a.nextId)
    ensures NodeRowOf(log, n).bidsOutbid == SumTo(OutbidOn(log, n), a.nextId)
  {
    if log == [] {
      NoneYet(n, a.nextId);
    } else {
      RowCountsQuotes(a, Init(log), n);
      CountsOneMore(NodeRowOf(Init(log), n), a, log, n);
    }
  }

  lemma {:induction false} NoneYet(n: Address, bound: nat)
    ensures SumTo(QuotesBy([], n), bound) == 0 == SumTo(OutbidOn([], n), bound)
  {
    if bound > 0 {
      NoneYet(n, bound - 1);
    }
  }

  /** The other counts of a row, as the log shows them. */
  lemma {:induction false} NodeRowTallies(log: seq<Event>, n: Address)
    ensures NodeRowOf(log, n).deposits == Flowed(Times(Deposited(n)), log)
    ensures NodeRowOf(log, n).withdrawals == Flowed(Times(Withdrawn(n)), log)
    ensures NodeRowOf(log, n).fillsWon == Flowed(Times(Won(n)), log)
  {
    if log != [] {
      NodeRowTallies(Init(log), n);
    }
  }

  lemma {:induction false} AssetRowTallies(log: seq<Event>, a: Address)
    ensures AssetRowOf(log, a).bids == Flowed(Times(BidsOn(a)), log)
    ensures AssetRowOf(log, a).queued == Flowed(Times(JoinedOn(a)), log)
  {
    if log != [] {
      AssetRowTallies(Init(log), a);
    }
  }

  // ---- the rate of a sale ----

  /** The fee rate in force at the call that settled exit `id`. */
  function RateAtSale(w: World, calls: seq<Call>, id: nat): nat
    decreases |calls|
  {
    if calls == [] || SettledIn(Step(w, calls[0]).auction, id) then w.router.feeBps
    else RateAtSale(Step(w, calls[0]), calls[1..], id)
  }

  /** The row of a settled exit shows the sale of the whole of it at that rate. */
  predicate SoldAt(w: World, id: nat, rate: nat) {
    SettledIn(w.auction, id) ==>
      var x := w.auction.exits[id];
      x.bestNode.Some? && ExitRowOf(w.ledger.log, x.asset, id).settlement == Some(SaleOf(x, rate))
  }

  lemma {:induction false} AboutAnother(w: World, w': World, c: Change, asset: Address, id: nat)
    requires Made(w, w', c) && c.exit.id != id
    ensures ExitRowOf(w'.ledger.log, asset, id) == ExitRowOf(w.ledger.log, asset, id)
  {
    ChangeAppended(w, w', c);
    ExitIdle(w.ledger.log, ChangeEvents(w, c), asset, id);
  }

  /** Nothing touches the row of an exit that was sold. */
  lemma SaleStep(w: World, call: Call, id: nat, rate: nat)
    requires Inv(w) && SettledIn(w.auction, id) && SoldAt(w, id, rate)
    ensures SettledIn(Step(w, call).auction, id) && SoldAt(Step(w, call), id, rate)
  {
    ExitStep(w, call, id);
    var asset := w.auction.exits[id].asset;
    if Apply(w, call).Ok? {
      if AuctionCall(call) {
        CallMakes(w, call);
        AboutAnother(w, Step(w, call), ChangeOf(w, call), asset, id);
      } else {
        CapitalAppended(w, call);
        ExitIdle(w.ledger.log, CapitalEvents(w, call), asset, id);
      }
    }
  }

  lemma {:induction false} SaleStays(w: World, calls: seq<Call>, id: nat, rate: nat)
    requires Inv(w) && SettledIn(w.auction, id) && SoldAt(w, id, rate)
    ensures SoldAt(Run(w, calls), id, rate)
    decreases |calls|
  {
    if calls != [] {
      StepKeeps(w, calls[0]);
      SaleStep(w, calls[0], id, rate);
      SaleStays(Step(w, calls[0]), calls[1..], id, rate);
    }
  }

  lemma SaleIsShown(w: World, w': World, x: Exit)
    requires Lines(w.auction, w.queue) && Known(w, x) && Filled(w, w', x)
    ensures SoldAt(w', x.id, w.router.feeBps)
  {
    InItsLine(w, x);
    FillExitRow(w, x, w.ledger.log);
  }

  /** Every sale in the snapshot is shown at the fee rate that was in force when it was made. */
  lemma {:induction false} SoldAtTheRate(w: World, calls: seq<Call>, id: nat)
    requires Inv(w) && !SettledIn(w.auction, id)
    ensures SoldAt(Run(w, calls), id, RateAtSale(w, calls, id))
    decreases |calls|
  {
    if calls != [] {
      var w' := Step(w, calls[0]);
      StepKeeps(w, calls[0]);
      if SettledIn(w'.auction, id) {
        WhoSettles(w, calls[0], id);
        SaleIsShown(w, w', w.auction.exits[id]);
        SaleStays(w', calls[1..], id, w.router.feeBps);
      } else {
        SoldAtTheRate(w', calls[1..], id);
      }
    }
  }
}
