/**
 The snapshot refines the chain: what the histories of the log say about every exit, asset
 and node is what the contracts hold, after any call.
 */
module Mirror {
  import opened Ledger
  import opened SettlementRouter
  import opened FifoQueue
  import opened ExitAuction
  import opened Invariant
  import opened Settlement
  import opened Effects
  import opened EventLog
  import opened SnapshotRows

  // ---- reading a few more events ----

  lemma {:induction false} ExitGrows(log: seq<Event>, e: Event, a: Address, id: nat)
    ensures ExitRowOf(log + [e], a, id)
         == if Concerns(e, a, id) then ExitRead(ExitRowOf(log, a, id), e) else ExitRowOf(log, a, id)
  {
    assert Init(log + [e]) == log;
  }

  lemma {:induction false} AssetGrows(log: seq<Event>, e: Event, a: Address)
    ensures AssetRowOf(log + [e], a) == AssetRead(AssetRowOf(log, a), a, e)
  {
    assert Init(log + [e]) == log;
  }

  lemma {:induction false} ExitIdle(log: seq<Event>, es: seq<Event>, a: Address, id: nat)
    requires forall e :: e in es ==> !Concerns(e, a, id)
    ensures ExitRowOf(log + es, a, id) == ExitRowOf(log, a, id)
  {
    if es == [] {
      assert log + es == log;
    } else {
      assert log + es == (log + Init(es)) + [Last(es)];
      ExitIdle(log, Init(es), a, id);
      ExitGrows(log + Init(es), Last(es), a, id);
    }
  }

  /** Events that touch nobody's queue place, count or money on asset `a`, only its roster. */
  predicate RosterOnly(e: Event) {
    e.AppetiteSet? || e.Committed? || e.Released? || e.PaidOut? || e.Escrowed?
  }

  function Actors(es: seq<Event>): set<Address> {
    if es == [] then {} else Actors(Init(es)) + ActorIn(Last(es))
  }

  lemma {:induction false} AssetIdle(log: seq<Event>, es: seq<Event>, a: Address)
    requires forall e :: e in es ==> OfCapital(e) || e.asset != a
    ensures AssetRowOf(log + es, a) == AssetRowOf(log, a)
  {
    if es == [] {
      assert log + es == log;
    } else {
      assert log + es == (log + Init(es)) + [Last(es)];
      AssetIdle(log, Init(es), a);
      AssetGrows(log + Init(es), Last(es), a);
    }
  }

  lemma {:induction false} AssetRoster(log: seq<Event>, es: seq<Event>, a: Address)
    requires forall e :: e in es ==> RosterOnly(e) && e.asset == a
    ensures AssetRowOf(log + es, a) == AssetRowOf(log, a).(nodes := AssetRowOf(log, a).nodes + Actors(es))
  {
    if es == [] {
      assert log + es == log;
      assert AssetRowOf(log, a).nodes + {} == AssetRowOf(log, a).nodes;
    } else {
      assert log + es == (log + Init(es)) + [Last(es)];
      AssetRoster(log, Init(es), a);
      AssetGrows(log + Init(es), Last(es), a);
      assert AssetRowOf(log, a).nodes + Actors(Init(es)) + ActorIn(Last(es)) == AssetRowOf(log, a).nodes + Actors(es);
    }
  }

  lemma {:induction false} ExitsSeenGrow(log: seq<Event>, es: seq<Event>, key: (Address, nat))
    requires forall e :: e in es && OfExit(e) ==> (e.asset, e.exitId) == key
    ensures ExitsSeen(log) <= ExitsSeen(log + es) <= ExitsSeen(log) + {key}
    ensures (exists e :: e in es && OfExit(e)) ==> key in ExitsSeen(log + es)
  {
    if es == [] {
      assert log + es == log;
    } else {
      assert log + es == (log + Init(es)) + [Last(es)];
      assert Init(log + es) == log + Init(es);
      ExitsSeenGrow(log, Init(es), key);
      assert forall e :: e in es ==> e in Init(es) || e == Last(es);
    }
  }

  // ---- exits ----

  function PhaseOf(s: Status): Phase {
    match s
    case Open => Phase.Open
    case Queued => Phase.Queued
    case Settled => Phase.Settled
    case Cancelled => Phase.Cancelled
  }

  function TermsOf(x: Exit): OpenedAs {
    OpenedAs(x.seller, x.amount, x.referenceUsdc, x.minAcceptUsdc, x.closesAt)
  }

  /** The sale of the whole of `x` for its standing bid at fee rate `feeBps`. */
  function SaleOf(x: Exit, feeBps: nat): Sale
    requires x.bestNode.Some?
  {
    var fee := Fee(x.bestUsdc, feeBps);
    Sale(x.bestNode.value, x.seller, x.amount, x.bestUsdc, fee, x.bestUsdc - fee, 0)
  }

  /** The row says what the record says; a cancelled exit's row still shows its last bid. */
  predicate ShowsExit(r: ExitRow, x: Exit) {
    && r.phase == PhaseOf(x.status)
    && r.terms == Some(TermsOf(x)) && r.escrowed == Some(x.amount)
    && (x.status != Status.Cancelled ==>
          && r.bestNode == x.bestNode
          && r.bestBid == if x.bestNode.Some? then Some(x.bestUsdc) else None)
    && (r.queuePosition.Some? <==> x.status == Status.Queued)
    && (r.settlement.Some? <==> x.status == Status.Settled)
    && (x.status == Status.Settled ==>
          var sale := r.settlement.value;
          && Some(sale.node) == x.bestNode && sale.seller == x.seller
          && sale.tokenAmount == x.amount && sale.remaining == 0
          && sale.gross == x.bestUsdc == sale.net + sale.fee)
    && r.refunded == if x.status == Status.Cancelled then Some(x.amount) else None
  }

  ghost predicate ExitsMirrored(a: AuctionState, log: seq<Event>) {
    && (forall id :: id in a.exits ==> ShowsExit(ExitRowOf(log, a.exits[id].asset, id), a.exits[id]))
    && (forall asset, id: nat :: (asset, id) in ExitsSeen(log) <==> id in a.exits && a.exits[id].asset == asset)
  }

  /** Every exit event in `es` is about exit `x`. */
  ghost predicate AllAbout(es: seq<Event>, x: Exit) {
    forall e :: e in es && OfExit(e) ==> e.asset == x.asset && e.exitId == x.id
  }

  /** A call about one known exit: only its own row has to be looked at. */
  lemma {:induction false} ExitsStillMirrored(a: AuctionState, log: seq<Event>, es: seq<Event>, y: Exit)
    requires Registry(a) && ExitsMirrored(a, log) && y.id in a.exits && SameTerms(a.exits[y.id], y)
    requires AllAbout(es, y)
    requires ShowsExit(ExitRowOf(log + es, y.asset, y.id), y)
    ensures ExitsMirrored(SetExit(a, y), log + es)
  {
    var a' := SetExit(a, y);
    forall id | id in a'.exits
      ensures ShowsExit(ExitRowOf(log + es, a'.exits[id].asset, id), a'.exits[id])
    {
      if id != y.id {
        ExitIdle(log, es, a'.exits[id].asset, id);
      }
    }
    ExitsSeenGrow(log, es, (y.asset, y.id));
  }

  lemma ExitsMirroredNew(a: AuctionState, log: seq<Event>, x: Exit)
    requires Registry(a) && ExitsMirrored(a, log)
    requires x.id == a.nextId && x.status == Status.Open && x.bestNode.None?
    ensures ExitsMirrored(AuctionState(a.nextId + 1, a.exits[x.id := x]), log + OpenEvents(x))
  {
    var es := OpenEvents(x);
    var a' := AuctionState(a.nextId + 1, a.exits[x.id := x]);
    ExitsSeenGrow(log, es, (x.asset, x.id));
    assert es[0] in es && OfExit(es[0]);
    NewExitRow(log, x);
    forall id | id in a'.exits
      ensures ShowsExit(ExitRowOf(log + es, a'.exits[id].asset, id), a'.exits[id])
    {
      if id != x.id {
        ExitIdle(log, es, a'.exits[id].asset, id);
      } else {
        assert (x.asset, x.id) !in ExitsSeen(log);
        UnseenAreBlank(log);
      }
    }
  }

  lemma {:induction false} NewExitRow(log: seq<Event>, x: Exit)
    ensures var r := ExitRowOf(log, x.asset, x.id);
            ExitRowOf(log + OpenEvents(x), x.asset, x.id)
              == r.(escrowed := Some(x.amount), phase := Phase.Open, terms := Some(TermsOf(x)))
  {
    var es := OpenEvents(x);
    assert log + es == (log + [es[0]]) + [es[1]];
    ExitGrows(log, es[0], x.asset, x.id);
    ExitGrows(log + [es[0]], es[1], x.asset, x.id);
  }

  lemma {:induction false} BidExitRow(log: seq<Event>, x: Exit, node: Address, usdc: int)
    requires usdc > 0
    ensures var r := ExitRowOf(log, x.asset, x.id);
            ExitRowOf(log + BidEvents(x, node, usdc), x.asset, x.id)
              == r.(bidCount := r.bidCount + 1, bestBid := Some(usdc), bestNode := Some(node),
                    bestDiscountBps := Some(DiscountBps(x.referenceUsdc, usdc)))
  {
    var front := [Committed(node, x.asset, usdc)] + ReleaseEvents(x);
    var bid := Bid(x.asset, x.id, node, usdc, DiscountBps(x.referenceUsdc, usdc), x.bestNode);
    assert log + BidEvents(x, node, usdc) == (log + front) + [bid];
    ExitIdle(log, front, x.asset, x.id);
    ExitGrows(log + front, bid, x.asset, x.id);
  }

  lemma {:induction false} LeftExitRow(log: seq<Event>, q: QueueState, x: Exit)
    ensures var r := ExitRowOf(log, x.asset, x.id);
            ExitRowOf(log + LeftEvents(q, x), x.asset, x.id)
              == if x.status == Status.Queued && x.id in q.Line(x.asset)
                 then r.(phase := if r.phase == Phase.Queued then Phase.LeftQueue else r.phase, queuePosition := None)
                 else r
  {
    if x.status == Status.Queued && x.id in q.Line(x.asset) {
      ExitGrows(log, LeftEvents(q, x)[0], x.asset, x.id);
    } else {
      assert log + [] == log;
    }
  }

  lemma FillEventsApart(w: World, x: Exit, log: seq<Event>, cash: seq<Event>, settled: Event)
    requires x.bestNode.Some?
    requires var fee := Fee(x.bestUsdc, w.router.feeBps);
             && cash == CashEvents(w.router, EscrowRecord(x.seller, x.asset, x.amount), x.bestNode.value,
                                   x.bestUsdc - fee, fee)
             && settled == Event.Settled(x.asset, x.id, x.seller, x.bestNode.value, x.amount, x.bestUsdc, fee,
                                         x.bestUsdc - fee, 0)
    ensures log + FillEvents(w, x) == ((log + cash) + [settled]) + LeftEvents(w.queue, x)
  {
  }

  lemma {:induction false} FillExitRow(w: World, x: Exit, log: seq<Event>)
    requires x.bestNode.Some?
    requires x.status == Status.Queued ==> x.id in w.queue.Line(x.asset)
    ensures ExitRowOf(log + FillEvents(w, x), x.asset, x.id).settlement == Some(SaleOf(x, w.router.feeBps))
    ensures ShowsExit(ExitRowOf(log, x.asset, x.id), x) && x.Live() ==>
              ShowsExit(ExitRowOf(log + FillEvents(w, x), x.asset, x.id), x.(status := Status.Settled))
  {
    var held := EscrowRecord(x.seller, x.asset, x.amount);
    var fee := Fee(x.bestUsdc, w.router.feeBps);
    var cash := CashEvents(w.router, held, x.bestNode.value, x.bestUsdc - fee, fee);
    var settled := Event.Settled(x.asset, x.id, x.seller, x.bestNode.value, x.amount, x.bestUsdc, fee,
                                 x.bestUsdc - fee, 0);
    FillEventsApart(w, x, log, cash, settled);
    ExitIdle(log, cash, x.asset, x.id);
    ExitGrows(log + cash, settled, x.asset, x.id);
    LeftExitRow((log + cash) + [settled], w.queue, x);
  }

  lemma CancelEventsApart(w: World, x: Exit, log: seq<Event>, back: Event, done: Event)
    requires back == Event.Refunded(x.asset, x.id, x.seller, x.amount)
    requires done == Event.Cancelled(x.asset, x.id, x.seller)
    ensures log + CancelEvents(w, x) == (((log + ReleaseEvents(x)) + LeftEvents(w.queue, x)) + [back]) + [done]
  {
  }

  lemma {:induction false} CancelExitRow(w: World, x: Exit, log: seq<Event>)
    requires x.status == Status.Queued ==> x.id in w.queue.Line(x.asset)
    requires ShowsExit(ExitRowOf(log, x.asset, x.id), x) && x.Live()
    ensures ShowsExit(ExitRowOf(log + CancelEvents(w, x), x.asset, x.id), x.AsCancelled())
  {
    var release, left := ReleaseEvents(x), LeftEvents(w.queue, x);
    var back, done := Event.Refunded(x.asset, x.id, x.seller, x.amount), Event.Cancelled(x.asset, x.id, x.seller);
    CancelEventsApart(w, x, log, back, done);
    ExitIdle(log, release, x.asset, x.id);
    LeftExitRow(log + release, w.queue, x);
    EndedExitRow((log + release) + left, x, back, done);
  }

  lemma {:induction false} EndedExitRow(log: seq<Event>, x: Exit, back: Event, done: Event)
    requires back == Event.Refunded(x.asset, x.id, x.seller, x.amount)
    requires done == Event.Cancelled(x.asset, x.id, x.seller)
    ensures var r := ExitRowOf(log, x.asset, x.id);
            ExitRowOf(log + [back] + [done], x.asset, x.id) == ExitRead(ExitRead(r, back), done)
  {
    ExitGrows(log, back, x.asset, x.id);
    ExitGrows(log + [back], done, x.asset, x.id);
  }

  lemma {:induction false} QueueExitRow(w: World, x: Exit, log: seq<Event>)
    requires ShowsExit(ExitRowOf(log, x.asset, x.id), x) && x.status == Status.Open
    ensures ShowsExit(ExitRowOf(log + QueueEvents(w, x), x.asset, x.id), x.(status := Status.Queued))
  {
    ExitGrows(log, QueueEvents(w, x)[0], x.asset, x.id);
  }
}
