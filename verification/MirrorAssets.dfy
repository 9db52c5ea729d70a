/** What the snapshot says of each asset is what the contracts hold: its line, counts, volumes and nodes. */
module MirrorAssets {
  import opened Ledger
  import opened LpVault
  import opened SettlementRouter
  import opened FifoQueue
  import opened ExitAuction
  import opened Totals
  import opened Chain
  import opened Invariant
  import opened Settlement
  import opened Effects
  import opened Changes
  import opened EventLog
  import opened SnapshotRows
  import opened Mirror

  // ---- what each call's events do to its asset's row ----

  function Sold(r: AssetRow, tokens: int, gross: int, fee: int): AssetRow {
    r.(settled := r.settled + 1, usdcSettled := r.usdcSettled + gross,
       tokensSettled := r.tokensSettled + tokens, feesPaid := r.feesPaid + fee)
  }

  function CancelledRow(r: AssetRow): AssetRow {
    r.(cancelled := r.cancelled + 1, refunded := r.refunded + 1)
  }

  /** The exit's asset row after the exit leaves the line, if it stood in it. */
  function Unlisted(r: AssetRow, q: QueueState, x: Exit): AssetRow {
    if x.status == Status.Queued && x.id in q.Line(x.asset) then r.(queue := Removed(r.queue, x.id)) else r
  }

  lemma {:induction false} OpenAssetRow(log: seq<Event>, x: Exit)
    ensures var r := AssetRowOf(log, x.asset);
            AssetRowOf(log + OpenEvents(x), x.asset) == r.(exitsOpened := r.exitsOpened + 1)
  {
    var es := OpenEvents(x);
    var r := AssetRowOf(log, x.asset);
    assert log + es == (log + [es[0]]) + [es[1]];
    AssetGrows(log, es[0], x.asset);
    AssetGrows(log + [es[0]], es[1], x.asset);
    assert r.nodes + {} == r.nodes;
  }

  lemma {:induction false} BidAssetRow(log: seq<Event>, x: Exit, node: Address, usdc: int)
    requires usdc > 0
    ensures var r := AssetRowOf(log, x.asset);
            var r' := AssetRowOf(log + BidEvents(x, node, usdc), x.asset);
            && r' == r.(bids := r.bids + 1, nodes := r'.nodes)
            && r'.nodes == r.nodes + {node} + if x.bestNode.Some? then {x.bestNode.value} else {}
  {
    var front := [Committed(node, x.asset, usdc)] + ReleaseEvents(x);
    var bid := Bid(x.asset, x.id, node, usdc, DiscountBps(x.referenceUsdc, usdc), x.bestNode);
    assert log + BidEvents(x, node, usdc) == (log + front) + [bid];
    AssetRoster(log, front, x.asset);
    BidActors(x, node, usdc);
    AssetGrows(log + front, bid, x.asset);
  }

  lemma BidActors(x: Exit, node: Address, usdc: int)
    ensures Actors([Committed(node, x.asset, usdc)] + ReleaseEvents(x))
         == {node} + if x.bestNode.Some? then {x.bestNode.value} else {}
  {
    var first := [Committed(node, x.asset, usdc)];
    assert Init(first) == [];
    assert Actors(first) == {node};
    if x.bestNode.Some? {
      assert Init(first + ReleaseEvents(x)) == first;
    } else {
      assert first + ReleaseEvents(x) == first;
    }
  }

  lemma {:induction false} LeftAssetRow(log: seq<Event>, q: QueueState, x: Exit)
    ensures AssetRowOf(log + LeftEvents(q, x), x.asset) == Unlisted(AssetRowOf(log, x.asset), q, x)
  {
    if x.status == Status.Queued && x.id in q.Line(x.asset) {
      LeftRow(log, LeftEvents(q, x)[0]);
    } else {
      assert log + [] == log;
    }
  }

  lemma {:induction false} LeftRow(log: seq<Event>, e: Event)
    requires e.Dequeued?
    ensures var r := AssetRowOf(log, e.asset);
            AssetRowOf(log + [e], e.asset) == r.(queue := Removed(r.queue, e.exitId))
  {
    AssetGrows(log, e, e.asset);
    LeftRead(AssetRowOf(log, e.asset), e);
  }

  lemma LeftRead(r: AssetRow, e: Event)
    requires e.Dequeued?
    ensures AssetRead(r, e.asset, e) == r.(queue := Removed(r.queue, e.exitId))
  {
    assert r.nodes + {} == r.nodes;
  }

  lemma CashActors(r: RouterState, held: EscrowRecord, node: Address, net: int, fee: int)
    ensures Actors(CashEvents(r, held, node, net, fee)) == {node}
  {
    var first := [PaidOut(node, held.asset, held.seller, net)];
    assert Init(first) == [];
    assert Actors(first) == {node};
    var es := CashEvents(r, held, node, net, fee);
    if fee > 0 {
      assert Init(es) == first;
    } else {
      assert es == first;
    }
  }

  lemma {:induction false} SettledAssetRow(log: seq<Event>, x: Exit, node: Address, fee: int)
    ensures var r := AssetRowOf(log, x.asset);
            AssetRowOf(log + [Event.Settled(x.asset, x.id, x.seller, node, x.amount, x.bestUsdc, fee,
                                            x.bestUsdc - fee, 0)], x.asset)
              == Sold(r.(nodes := r.nodes + {node}), x.amount, x.bestUsdc, fee)
  {
    AssetGrows(log, Event.Settled(x.asset, x.id, x.seller, node, x.amount, x.bestUsdc, fee, x.bestUsdc - fee, 0),
               x.asset);
  }

  lemma {:induction false} FillAssetRow(w: World, x: Exit, log: seq<Event>)
    requires x.bestNode.Some?
    ensures var r := AssetRowOf(log, x.asset);
            AssetRowOf(log + FillEvents(w, x), x.asset)
              == Unlisted(Sold(r.(nodes := r.nodes + {x.bestNode.value}), x.amount, x.bestUsdc,
                               Fee(x.bestUsdc, w.router.feeBps)),
                          w.queue, x)
  {
    var held := EscrowRecord(x.seller, x.asset, x.amount);
    var node, fee := x.bestNode.value, Fee(x.bestUsdc, w.router.feeBps);
    var cash := CashEvents(w.router, held, node, x.bestUsdc - fee, fee);
    var settled := Event.Settled(x.asset, x.id, x.seller, node, x.amount, x.bestUsdc, fee, x.bestUsdc - fee, 0);
    var l1 := log + cash;
    var l2 := l1 + [settled];
    assert log + FillEvents(w, x) == l2 + LeftEvents(w.queue, x);
    var r := AssetRowOf(log, x.asset);
    assert AssetRowOf(l1, x.asset) == r.(nodes := r.nodes + {node}) by {
      AssetRoster(log, cash, x.asset);
      CashActors(w.router, held, node, x.bestUsdc - fee, fee);
    }
    SettledAssetRow(l1, x, node, fee);
    assert r.nodes + {node} + {node} == r.nodes + {node};
    LeftAssetRow(l2, w.queue, x);
  }

  lemma {:induction false} CancelAssetRow(w: World, x: Exit, log: seq<Event>)
    ensures var r := AssetRowOf(log, x.asset);
            AssetRowOf(log + CancelEvents(w, x), x.asset)
              == CancelledRow(Unlisted(r.(nodes := r.nodes + if x.bestNode.Some? then {x.bestNode.value} else {}),
                                       w.queue, x))
  {
    var back, done := Event.Refunded(x.asset, x.id, x.seller, x.amount), Event.Cancelled(x.asset, x.id, x.seller);
    var l1 := log + ReleaseEvents(x);
    var l2 := l1 + LeftEvents(w.queue, x);
    assert log + CancelEvents(w, x) == l2 + [back] + [done];
    ReleaseAssetRow(log, x);
    LeftAssetRow(l1, w.queue, x);
    CancelledAssetRow(l2, x, back, done);
  }

  lemma {:induction false} ReleaseActors(x: Exit)
    ensures Actors(ReleaseEvents(x)) == if x.bestNode.Some? then {x.bestNode.value} else {}
  {
    if x.bestNode.Some? {
      assert Init(ReleaseEvents(x)) == [];
    }
  }

  lemma {:induction false} ReleaseAssetRow(log: seq<Event>, x: Exit)
    ensures var r := AssetRowOf(log, x.asset);
            AssetRowOf(log + ReleaseEvents(x), x.asset)
              == r.(nodes := r.nodes + if x.bestNode.Some? then {x.bestNode.value} else {})
  {
    ReleaseActors(x);
    AssetRoster(log, ReleaseEvents(x), x.asset);
  }

  lemma {:induction false} CancelledAssetRow(log: seq<Event>, x: Exit, back: Event, done: Event)
    requires back == Event.Refunded(x.asset, x.id, x.seller, x.amount)
    requires done == Event.Cancelled(x.asset, x.id, x.seller)
    ensures var r := AssetRowOf(log, x.asset);
            AssetRowOf(log + [back] + [done], x.asset) == CancelledRow(r)
  {
    AssetGrows(log, back, x.asset);
    AssetGrows(log + [back], done, x.asset);
    EndedRead(AssetRowOf(log, x.asset), back, done);
  }

  lemma EndedRead(r: AssetRow, back: Event, done: Event)
    requires back.Refunded? && done.Cancelled? && back.asset == done.asset
    ensures AssetRead(AssetRead(r, done.asset, back), done.asset, done) == CancelledRow(r)
  {
    assert r.nodes + {} == r.nodes;
  }

  lemma {:induction false} QueueAssetRow(w: World, x: Exit, log: seq<Event>)
    ensures var r := AssetRowOf(log, x.asset);
            AssetRowOf(log + QueueEvents(w, x), x.asset)
              == r.(queued := r.queued + 1, queue := if x.id in r.queue then r.queue else r.queue + [x.id])
  {
    JoinedRow(log, QueueEvents(w, x)[0], x.asset);
  }

  lemma {:induction false} JoinedRow(log: seq<Event>, e: Event, asset: Address)
    requires e.Queued? && e.asset == asset
    ensures var r := AssetRowOf(log, asset);
            AssetRowOf(log + [e], asset)
              == r.(queued := r.queued + 1, queue := if e.exitId in r.queue then r.queue else r.queue + [e.exitId])
  {
    AssetGrows(log, e, asset);
    JoinedRead(AssetRowOf(log, asset), e);
  }

  lemma JoinedRead(r: AssetRow, e: Event)
    requires e.Queued?
    ensures AssetRead(r, e.asset, e)
         == r.(queued := r.queued + 1, queue := if e.exitId in r.queue then r.queue else r.queue + [e.exitId])
  {
    assert r.nodes + {} == r.nodes;
  }

  // ---- the mirror ----

  predicate ShowsCounts(r: AssetRow, a: AuctionState, asset: Address) {
    && r.exitsOpened == Ledgered(ExitsOn(asset), a)
    && r.settled == Ledgered(WithStatus(asset, Status.Settled), a)
    && r.cancelled == r.refunded == Ledgered(WithStatus(asset, Status.Cancelled), a)
    && r.usdcSettled == Ledgered(PaidOn(asset), a)
    && r.tokensSettled == Ledgered(SoldOn(asset), a)
  }

  ghost predicate ShowsAsset(r: AssetRow, w: World, asset: Address) {
    && r.queue == w.queue.Line(asset)
    && ShowsCounts(r, w.auction, asset)
    && forall n :: n in r.nodes <==> (n, asset) in w.vault.appetites
  }

  ghost predicate AssetsMirrored(w: World) {
    forall asset :: ShowsAsset(AssetRowOf(w.ledger.log, asset), w, asset)
  }

  /** The totals of asset `asset` when exit `x` becomes `y`. */
  lemma CountsSet(a: AuctionState, y: Exit, asset: Address)
    requires Registry(a) && y.id in a.exits
    ensures forall m :: Ledgered(m, SetExit(a, y)) == Ledgered(m, a) + Weight(m, y) - Weight(m, a.exits[y.id])
  {
    forall m
      ensures Ledgered(m, SetExit(a, y)) == Ledgered(m, a) + Weight(m, y) - Weight(m, a.exits[y.id])
    {
      LedgeredSet(m, a, y);
    }
  }

  /** Taking the exit out of the snapshot's list and out of the contract's line is the same. */
  lemma {:induction false} RemovedIsWithout(line: seq<nat>, id: nat)
    requires Distinct(line) && id in line
    ensures Removed(line, id) == Without(line, IndexOf(line, id))
  {
    if line[0] == id {
      assert id !in line[1..];
      NothingRemoved(line[1..], id);
      assert Without(line, 0) == line[1..];
    } else {
      RemovedIsWithout(line[1..], id);
      WithoutLater(line, IndexOf(line[1..], id));
    }
  }

  lemma WithoutLater(line: seq<nat>, i: nat)
    requires i + 1 < |line|
    ensures Without(line, i + 1) == [line[0]] + Without(line[1..], i)
  {
  }

  lemma {:induction false} NothingRemoved(line: seq<nat>, id: nat)
    requires id !in line
    ensures Removed(line, id) == line
  {
    if line != [] {
      NothingRemoved(line[1..], id);
    }
  }

  lemma UnlistedLine(r: AssetRow, q: QueueState, x: Exit)
    requires Distinct(q.Line(x.asset)) && r.queue == q.Line(x.asset)
    ensures Unlisted(r, q, x).queue == Left(q, x).Line(x.asset)
  {
    if x.status == Status.Queued && x.id in q.Line(x.asset) {
      RemovedIsWithout(q.Line(x.asset), x.id);
    }
  }

  ghost predicate SameTermsKeys(w: World, w': World) {
    w'.vault.appetites.Keys == w.vault.appetites.Keys
  }

  lemma OtherCounts(r: AssetRow, a: AuctionState, y: Exit, asset: Address)
    requires Registry(a) && y.id in a.exits && SameTerms(a.exits[y.id], y) && y.asset != asset
    requires ShowsCounts(r, a, asset)
    ensures ShowsCounts(r, SetExit(a, y), asset)
  {
    CountsSet(a, y, asset);
  }

  /** Assets a call is not about keep their row, and everything it mirrors. */
  lemma {:induction false} OtherAsset(w: World, w': World, es: seq<Event>, y: Exit, asset: Address)
    requires Registry(w.auction) && AssetsMirrored(w) && y.id in w.auction.exits
    requires SameTerms(w.auction.exits[y.id], y) && y.asset != asset
    requires w'.auction == SetExit(w.auction, y) && w'.ledger.log == w.ledger.log + es && SameTermsKeys(w, w')
    requires w'.queue.Line(asset) == w.queue.Line(asset)
    requires forall e :: e in es ==> !OfCapital(e) && e.asset == y.asset
    ensures ShowsAsset(AssetRowOf(w'.ledger.log, asset), w', asset)
  {
    assert ShowsAsset(AssetRowOf(w.ledger.log, asset), w, asset);
    OtherCounts(AssetRowOf(w.ledger.log, asset), w.auction, y, asset);
    AssetIdle(w.ledger.log, es, asset);
  }

  /** The row of the asset a call is about, once its line, counts and roster are known. */
  lemma OneAsset(w: World, w': World, y: Exit, r': AssetRow)
    requires Registry(w.auction) && ShowsAsset(AssetRowOf(w.ledger.log, y.asset), w, y.asset)
    requires y.id in w.auction.exits && SameTerms(w.auction.exits[y.id], y)
    requires w'.auction == SetExit(w.auction, y) && SameTermsKeys(w, w')
    requires r'.queue == w'.queue.Line(y.asset)
    requires var r := AssetRowOf(w.ledger.log, y.asset);
             var x := w.auction.exits[y.id];
             && x.Live()
             && r'.exitsOpened == r.exitsOpened
             && r'.settled == r.settled + One(y.status == Status.Settled)
             && r'.cancelled == r.cancelled + One(y.status == Status.Cancelled)
             && r'.refunded == r.refunded + One(y.status == Status.Cancelled)
             && r'.usdcSettled == r.usdcSettled + If(y.status == Status.Settled, y.bestUsdc)
             && r'.tokensSettled == r.tokensSettled + If(y.status == Status.Settled, y.amount)
             && forall n :: n in r'.nodes ==> n in r.nodes || (n, y.asset) in w.vault.appetites
    requires AssetRowOf(w.ledger.log, y.asset).nodes <= r'.nodes
    ensures ShowsAsset(r', w', y.asset)
  {
    CountsSet(w.auction, y, y.asset);
  }

  /** Once the row of its own asset is right, a change to one exit leaves every row right. */
  lemma AllAssets(w: World, w': World, es: seq<Event>, y: Exit)
    requires Registry(w.auction) && AssetsMirrored(w) && y.id in w.auction.exits && SameTerms(w.auction.exits[y.id], y)
    requires w'.auction == SetExit(w.auction, y) && w'.ledger.log == w.ledger.log + es && SameTermsKeys(w, w')
    requires forall asset :: asset != y.asset ==> w'.queue.Line(asset) == w.queue.Line(asset)
    requires forall e :: e in es ==> !OfCapital(e) && e.asset == y.asset
    requires ShowsAsset(AssetRowOf(w'.ledger.log, y.asset), w', y.asset)
    ensures AssetsMirrored(w')
  {
    forall asset
      ensures ShowsAsset(AssetRowOf(w'.ledger.log, asset), w', asset)
    {
      if asset != y.asset {
        OtherAsset(w, w', es, y, asset);
      }
    }
  }

  /** The bidder is on the roster already: it set terms on the asset to bid. */
  lemma FilledOwnAsset(w: World, w': World, x: Exit)
    requires Registry(w.auction) && Lines(w.auction, w.queue) && Books(w.auction, w.vault) && Known(w, x)
    requires Filled(w, w', x)
    requires ShowsAsset(AssetRowOf(w.ledger.log, x.asset), w, x.asset)
    ensures ShowsAsset(AssetRowOf(w'.ledger.log, x.asset), w', x.asset)
  {
    var r := AssetRowOf(w.ledger.log, x.asset);
    FillAssetRow(w, x, w.ledger.log);
    var fee := Fee(x.bestUsdc, w.router.feeBps);
    UnlistedLine(Sold(r.(nodes := r.nodes + {x.bestNode.value}), x.amount, x.bestUsdc, fee), w.queue, x);
    OneAsset(w, w', x.(status := Status.Settled), AssetRowOf(w'.ledger.log, x.asset));
  }

  /** Every event of a change is about its exit. */
  lemma ChangeAbout(w: World, c: Change)
    requires Publishing(c)
    ensures forall e :: e in ChangeEvents(w, c) ==>
              !OfCapital(e) && e.asset == c.exit.asset && (OfExit(e) ==> e.exitId == c.exit.id)
  {
  }

  /** No change of an exit sets terms, and only its own asset's line moves. */
  lemma ChangeKeepsKeys(w: World, w': World, c: Change)
    requires Made(w, w', c)
    ensures SameTermsKeys(w, w')
    ensures forall asset :: asset != c.exit.asset ==> w'.queue.Line(asset) == w.queue.Line(asset)
  {
  }

  lemma CancelledOwnAsset(w: World, w': World, x: Exit)
    requires Registry(w.auction) && Lines(w.auction, w.queue) && Books(w.auction, w.vault) && Known(w, x)
    requires CancelledTo(w, w', x) && SameTermsKeys(w, w')
    requires ShowsAsset(AssetRowOf(w.ledger.log, x.asset), w, x.asset)
    ensures ShowsAsset(AssetRowOf(w'.ledger.log, x.asset), w', x.asset)
  {
    var r := AssetRowOf(w.ledger.log, x.asset);
    CancelAssetRow(w, x, w.ledger.log);
    UnlistedLine(r.(nodes := r.nodes + if x.bestNode.Some? then {x.bestNode.value} else {}), w.queue, x);
    OneAsset(w, w', x.AsCancelled(), AssetRowOf(w'.ledger.log, x.asset));
  }

  lemma BidOwnAsset(w: World, w': World, x: Exit, node: User, usdc: int)
    requires Registry(w.auction) && Books(w.auction, w.vault) && Known(w, x) && BidTo(w, w', x, node, usdc)
    requires SameTermsKeys(w, w')
    requires ShowsAsset(AssetRowOf(w.ledger.log, x.asset), w, x.asset)
    ensures ShowsAsset(AssetRowOf(w'.ledger.log, x.asset), w', x.asset)
  {
    BidAssetRow(w.ledger.log, x, node, usdc);
    OneAsset(w, w', x.WithBid(node, usdc), AssetRowOf(w'.ledger.log, x.asset));
  }

  lemma QueuedOwnAsset(w: World, w': World, x: Exit)
    requires Registry(w.auction) && Known(w, x) && x.status == Status.Open && QueuedTo(w, w', x)
    requires ShowsAsset(AssetRowOf(w.ledger.log, x.asset), w, x.asset)
    ensures ShowsAsset(AssetRowOf(w'.ledger.log, x.asset), w', x.asset)
  {
    QueueAssetRow(w, x, w.ledger.log);
    OneAsset(w, w', x.(status := Status.Queued), AssetRowOf(w'.ledger.log, x.asset));
  }

  lemma OwnAsset(w: World, w': World, c: Change)
    requires Registry(w.auction) && Lines(w.auction, w.queue) && Books(w.auction, w.vault) && AssetsMirrored(w)
    requires Made(w, w', c) && !c.Opens?
    ensures ShowsAsset(AssetRowOf(w'.ledger.log, c.exit.asset), w', c.exit.asset)
  {
    assert ShowsAsset(AssetRowOf(w.ledger.log, c.exit.asset), w, c.exit.asset);
    ChangeKeepsKeys(w, w', c);
    match c {
      case Bids(x, node, usdc) => BidOwnAsset(w, w', x, node, usdc);
      case Sells(x) => FilledOwnAsset(w, w', x);
      case Joins(x) => QueuedOwnAsset(w, w', x);
      case Drops(x) => CancelledOwnAsset(w, w', x);
    }
  }

  lemma ChangeAssets(w: World, w': World, c: Change)
    requires Registry(w.auction) && Lines(w.auction, w.queue) && Books(w.auction, w.vault) && AssetsMirrored(w)
    requires Made(w, w', c)
    ensures AssetsMirrored(w')
  {
    if c.Opens? {
      OpenedAssets(w, w', c.exit);
    } else {
      OwnAsset(w, w', c);
      ChangeWrites(w, w', c);
      ChangeAppended(w, w', c);
      ChangeAbout(w, c);
      ChangeKeepsKeys(w, w', c);
      AllAssets(w, w', ChangeEvents(w, c), After(c));
    }
  }

  lemma {:induction false} OpenedAsset(w: World, w': World, x: Exit, asset: Address)
    requires OpenedTo(w, w', x) && ShowsAsset(AssetRowOf(w.ledger.log, asset), w, asset)
    requires forall m :: Ledgered(m, w'.auction) == Ledgered(m, w.auction) + Weight(m, x)
    ensures ShowsAsset(AssetRowOf(w'.ledger.log, asset), w', asset)
  {
    if asset == x.asset {
      OpenAssetRow(w.ledger.log, x);
    } else {
      AssetIdle(w.ledger.log, OpenEvents(x), asset);
    }
  }

  lemma OpenedAssets(w: World, w': World, x: Exit)
    requires Registry(w.auction) && AssetsMirrored(w) && OpenedTo(w, w', x)
    ensures AssetsMirrored(w')
  {
    OpenedCounts(w, w', x);
    forall asset
      ensures ShowsAsset(AssetRowOf(w'.ledger.log, asset), w', asset)
    {
      OpenedAsset(w, w', x, asset);
    }
  }

  lemma OpenedCounts(w: World, w': World, x: Exit)
    requires Registry(w.auction) && OpenedTo(w, w', x)
    ensures forall m :: Ledgered(m, w'.auction) == Ledgered(m, w.auction) + Weight(m, x)
  {
    forall m
      ensures Ledgered(m, w'.auction) == Ledgered(m, w.auction) + Weight(m, x)
    {
      LedgeredNew(m, w.auction, x);
    }
  }

  lemma {:induction false} AppetiteAsset(w: World, w': World, e: Event, asset: Address)
    requires ShowsAsset(AssetRowOf(w.ledger.log, asset), w, asset) && e.AppetiteSet?
    requires w'.ledger.log == w.ledger.log + [e] && w'.auction == w.auction && w'.queue == w.queue
    requires w'.vault.appetites.Keys == w.vault.appetites.Keys + {(e.node, e.asset)}
    ensures ShowsAsset(AssetRowOf(w'.ledger.log, asset), w', asset)
  {
    AssetGrows(w.ledger.log, e, asset);
    assert forall n :: (n, asset) in w'.vault.appetites <==>
                         (n, asset) in w.vault.appetites || (n, asset) == (e.node, e.asset);
  }

  lemma {:induction false} QuietAsset(w: World, w': World, es: seq<Event>, asset: Address)
    requires ShowsAsset(AssetRowOf(w.ledger.log, asset), w, asset)
    requires w'.ledger.log == w.ledger.log + es && (forall e :: e in es ==> OfCapital(e))
    requires w'.auction == w.auction && w'.queue == w.queue && SameTermsKeys(w, w')
    ensures ShowsAsset(AssetRowOf(w'.ledger.log, asset), w', asset)
  {
    AssetIdle(w.ledger.log, es, asset);
  }

  lemma TermsAssets(w: World, call: Call)
    requires AssetsMirrored(w) && Apply(w, call).Ok? && call.SetAppetite?
    ensures AssetsMirrored(Step(w, call))
  {
    var w', e := Step(w, call), CapitalEvents(w, call)[0];
    forall asset
      ensures ShowsAsset(AssetRowOf(w'.ledger.log, asset), w', asset)
    {
      assert ShowsAsset(AssetRowOf(w.ledger.log, asset), w, asset);
      AppetiteAsset(w, w', e, asset);
    }
  }

  lemma QuietAssets(w: World, w': World, es: seq<Event>)
    requires AssetsMirrored(w) && w'.ledger.log == w.ledger.log + es && (forall e :: e in es ==> OfCapital(e))
    requires w'.auction == w.auction && w'.queue == w.queue && SameTermsKeys(w, w')
    ensures AssetsMirrored(w')
  {
    forall asset
      ensures ShowsAsset(AssetRowOf(w'.ledger.log, asset), w', asset)
    {
      assert ShowsAsset(AssetRowOf(w.ledger.log, asset), w, asset);
      QuietAsset(w, w', es, asset);
    }
  }

  /** Only new terms change whose terms the vault holds, and only vault events are published. */
  lemma CapitalIsQuiet(w: World, call: Call)
    requires Apply(w, call).Ok? && !AuctionCall(call)
    requires !call.SetAppetite?
    ensures forall e :: e in CapitalEvents(w, call) ==> OfCapital(e)
    ensures SameTermsKeys(w, Step(w, call))
  {
    if call.ReduceExposure? {
      assert Step(w, call).vault.appetites.Keys == w.vault.appetites.Keys;
    }
  }

  lemma CapitalAssets(w: World, call: Call)
    requires AssetsMirrored(w) && Apply(w, call).Ok? && !AuctionCall(call)
    ensures AssetsMirrored(Step(w, call))
  {
    if call.SetAppetite? {
      TermsAssets(w, call);
    } else {
      CapitalAppended(w, call);
      OtherCallsKeepExits(w, call);
      CapitalIsQuiet(w, call);
      QuietAssets(w, Step(w, call), CapitalEvents(w, call));
    }
  }
}
