/**
 What a successful call of the auction comes to: one of five changes to one exit, each spelled
 out in `Effects`. Everything about runs is proved once per change.
 */
module Changes {
  import opened Ledger
  import opened ExitAuction
  import opened Chain
  import opened Invariant
  import opened Effects

  datatype Change =
    | Opens(exit: Exit)
    | Bids(exit: Exit, node: User, usdc: int)
    | Sells(exit: Exit)
    | Joins(exit: Exit)
    | Drops(exit: Exit)

  predicate Known(w: World, x: Exit) {
    x.id in w.auction.exits && x == w.auction.exits[x.id] && x.Live()
  }

  ghost predicate Made(w: World, w': World, c: Change) {
    match c
    case Opens(x) => OpenedTo(w, w', x)
    case Bids(x, node, usdc) =>
      Known(w, x) && (x.bestNode == Some(node) || Releasable(w.vault, x)) && BidTo(w, w', x, node, usdc)
    case Sells(x) => Known(w, x) && Fillable(w, x) && Filled(w, w', x)
    case Joins(x) => Known(w, x) && x.status == Status.Open && QueuedTo(w, w', x)
    case Drops(x) => Known(w, x) && Releasable(w.vault, x) && CancelledTo(w, w', x)
  }

  /** The exit as the change leaves it. */
  function After(c: Change): Exit {
    match c
    case Opens(x) => x
    case Bids(x, node, usdc) => x.WithBid(node, usdc)
    case Sells(x) => x.(status := Status.Settled)
    case Joins(x) => x.(status := Status.Queued)
    case Drops(x) => x.AsCancelled()
  }

  predicate Names(w: World, call: Call) {
    AuctionCall(call) && (call.OpenExit? || call.exitId in w.auction.exits)
  }

  ghost function ChangeOf(w: World, call: Call): Change
    requires Names(w, call)
  {
    match call
    case OpenExit(seller, asset, amount, reference, reserve, duration) =>
      Opens(Opening(w, seller, asset, amount, reference, reserve, duration))
    case PlaceBid(node, id, usdc) => Bids(w.auction.exits[id], node, usdc)
    case AcceptBid(_, id) => Sells(w.auction.exits[id])
    case Close(id) =>
      var x := w.auction.exits[id];
      if Fillable(w, x) then Sells(x) else Joins(x)
    case Cancel(_, id) => Drops(w.auction.exits[id])
  }

  /** Every successful auction call makes its change. */
  lemma CallMakes(w: World, call: Call)
    requires Inv(w) && AuctionCall(call) && Apply(w, call).Ok?
    ensures Names(w, call) && Made(w, Step(w, call), ChangeOf(w, call))
  {
    match call {
      case OpenExit(seller, asset, amount, reference, reserve, duration) =>
        OpenEffect(w, seller, asset, amount, reference, reserve, duration);
      case PlaceBid(node, id, usdc) => BidEffect(w, node, id, usdc);
      case AcceptBid(_, id) => FillEffect(w, id);
      case Close(id) => CloseEffect(w, id);
      case Cancel(signer, id) => CancelEffect(w, signer, id);
    }
  }

  /** A change writes one exit, and nothing about the layer's settings or the clock. */
  lemma ChangeWrites(w: World, w': World, c: Change)
    requires Made(w, w', c)
    ensures w'.auction
         == if c.Opens? then AuctionState(w.auction.nextId + 1, w.auction.exits[w.auction.nextId := c.exit])
                          else SetExit(w.auction, After(c))
    ensures c.Opens? ==> c.exit.id == w.auction.nextId && c.exit.status == Status.Open
    ensures w'.vault.config == w.vault.config && w'.router.treasury == w.router.treasury
    ensures w'.router.feeBps == w.router.feeBps && w'.vault.maxSingleFillBps == w.vault.maxSingleFillBps
    ensures w'.vault.withdrawals == w.vault.withdrawals
    ensures w'.ledger.now == w.ledger.now
  {
  }

  /** Every other call leaves the exits and the lines alone. */
  lemma OtherCallsKeepExits(w: World, call: Call)
    requires !AuctionCall(call) || Apply(w, call).Err?
    ensures Step(w, call).auction == w.auction && Step(w, call).queue == w.queue
    ensures Step(w, call).router.escrows == w.router.escrows
    ensures Step(w, call).router.treasury == w.router.treasury && Step(w, call).vault.config == w.vault.config
  {
  }
}
