/**
 When each of the auction's calls succeeds, exactly, in a state whose ledgers agree; and what
 it then does to every contract. These spell out the nested cross-contract calls once.
 */
module Effects {
  import opened Ledger
  import opened LpVault
  import opened SettlementRouter
  import opened FifoQueue
  import opened ExitAuction
  import opened Totals
  import opened Invariant
  import opened Settlement

  // ---- what the ledgers say about one live exit ----

  lemma BidIsCommitted(w: World, id: nat)
    requires Registry(w.auction) && Books(w.auction, w.vault) && Solvent(w.vault)
    requires id in w.auction.exits && w.auction.exits[id].Live() && w.auction.exits[id].bestNode.Some?
    ensures var x := w.auction.exits[id];
            var n := x.bestNode.value;
            && n in w.vault.nodes && (n, x.asset) in w.vault.appetites
            && 0 < x.bestUsdc <= w.vault.nodes[n].committed <= w.vault.nodes[n].deposited
  {
    var n := w.auction.exits[id].bestNode.value;
    TotalAtLeast(LiveBids(n), w.auction.exits, w.auction.nextId, id);
    assert CommittedBy(w.vault, n) == Ledgered(LiveBids(n), w.auction);
    assert Uncommitted(w.vault, n) >= 0;
  }

  lemma DepositIsHeld(w: World, n: Address)
    requires Solvent(w.vault) && Covered(w) && n in w.vault.nodes
    ensures w.ledger.Balance(w.vault.config.usdc, VaultContract) >= w.vault.nodes[n].deposited
  {
    var d := Deposits(w.vault.nodes);
    assert forall k :: k in d ==> Uncommitted(w.vault, k) >= 0 && d[k] >= 0;
    SumAtLeast(d, n);
  }

  lemma EscrowIsHeld(w: World, id: nat)
    requires Registry(w.auction) && Covered(w) && id in w.auction.exits && w.auction.exits[id].Live()
    ensures w.ledger.Balance(w.auction.exits[id].asset, RouterContract) >= w.auction.exits[id].amount
  {
    var x := w.auction.exits[id];
    TotalAtLeast(HeldTokens(x.asset), w.auction.exits, w.auction.nextId, id);
    assert RouterSurplus(w, x.asset) >= 0;
  }

  // ---- leaving the line ----

  function Left(q: QueueState, x: Exit): QueueState {
    var line := q.Line(x.asset);
    if x.status == Status.Queued && x.id in line
    then QueueState(q.queues[x.asset := Without(line, IndexOf(line, x.id))])
    else q
  }

  function LeftEvents(q: QueueState, x: Exit): seq<Event> {
    if x.status == Status.Queued && x.id in q.Line(x.asset)
    then [Dequeued(x.asset, x.id, |q.Line(x.asset)| - 1)]
    else []
  }

  lemma LeaveLineEffect(w: World, l: LedgerState, x: Exit, y: Exit)
    requires Lines(w.auction, w.queue) && x.id in w.auction.exits && x == w.auction.exits[x.id]
    requires SameTerms(x, y) && y.status != Status.Queued
    ensures w.LeaveLine(l, x) == Ok((Left(w.queue, x), l.(log := l.log + LeftEvents(w.queue, x))))
    ensures Lines(SetExit(w.auction, y), Left(w.queue, x))
  {
    LinesAfterEnd(w, l, y);
    assert l.log + [] == l.log;
  }

  // ---- whose turn it is ----

  /** Exit `y` waits on the asset of `x`, and in front of it when `x` waits too. */
  ghost predicate WaitsAhead(w: World, y: nat, x: Exit) {
    var line := w.queue.Line(x.asset);
    && QueuedOn(w.auction, x.asset, y) && y != x.id
    && (x.status == Status.Queued ==> IndexOf(line, y) < IndexOf(line, x.id))
  }

  ghost predicate NobodyAhead(w: World, x: Exit) {
    forall y :: !WaitsAhead(w, y, x)
  }

  lemma {:induction false} FirstPlace(line: seq<nat>, id: nat)
    requires id in line
    ensures IndexOf(line, id) == 0 <==> line[0] == id
    ensures IndexOf(line, line[0]) == 0
  {
  }

  /** It is an exit's turn when nobody waits ahead of it, however many wait behind. */
  lemma TurnMeansNobodyAhead(w: World, x: Exit)
    requires Lines(w.auction, w.queue) && x.id in w.auction.exits && x == w.auction.exits[x.id]
    ensures w.AtHead(x) <==> NobodyAhead(w, x)
    ensures x.status == Status.Queued ==> (NobodyAhead(w, x) <==> IndexOf(w.queue.Line(x.asset), x.id) == 0)
    ensures x.status == Status.Open ==> (NobodyAhead(w, x) <==> forall y :: !QueuedOn(w.auction, x.asset, y))
  {
    var line := w.queue.Line(x.asset);
    assert x.id in line <==> QueuedOn(w.auction, x.asset, x.id);
    if line != [] {
      assert line[0] in line && QueuedOn(w.auction, x.asset, line[0]);
      FirstPlace(line, line[0]);
      if x.id in line {
        FirstPlace(line, x.id);
      }
      if line[0] != x.id {
        assert WaitsAhead(w, line[0], x);
      }
    } else {
      forall y
        ensures !QueuedOn(w.auction, x.asset, y)
      {
        assert y in line <==> QueuedOn(w.auction, x.asset, y);
      }
    }
  }

  /** A bid at or above the reserve. */
  predicate Acceptable(x: Exit) {
    x.bestNode.Some? && x.bestUsdc >= x.minAcceptUsdc
  }

  /** The exit can be sold: its bid is acceptable, and it is its turn. */
  ghost predicate Fillable(w: World, x: Exit) {
    Acceptable(x) && NobodyAhead(w, x)
  }

  // ---- filling ----

  /** One settlement of the whole escrow, then the exit leaves any line. */
  ghost predicate Filled(w: World, w': World, x: Exit) {
    && x.bestNode.Some? && CanPay(w.vault, w.ledger, x.bestNode.value, x.asset, x.bestUsdc)
    && w'.vault == Paid(w.vault, x.bestNode.value, x.bestUsdc)
    && w'.router == w.router.(escrows := w.router.escrows - {x.id})
    && w'.queue == Left(w.queue, x)
    && w'.auction == SetExit(w.auction, x.(status := Status.Settled))
    && w'.ledger.now == w.ledger.now
    && w'.ledger.log == w.ledger.log + FillEvents(w, x)
    && forall t, h :: w'.ledger.Balance(t, h) == w.ledger.Balance(t, h) + FillMoves(w, x, t, h)
  }

  function FillMoves(w: World, x: Exit, t: Address, h: Address): int
    requires x.bestNode.Some?
  {
    SettlementMoves(w.router, w.vault.config.usdc, EscrowRecord(x.seller, x.asset, x.amount),
                    x.bestNode.value, x.amount, x.bestUsdc, t, h)
  }

  function FillEvents(w: World, x: Exit): seq<Event>
    requires x.bestNode.Some?
  {
    SettlementEvents(w.router, x.id, EscrowRecord(x.seller, x.asset, x.amount), x.bestNode.value, x.amount, x.bestUsdc)
    + LeftEvents(w.queue, x)
  }

  /** What the router has to have done for the fill of `x` to be right. */
  ghost predicate SettledStanding(w: World, x: Exit, r: RouterState, v: VaultState, l: LedgerState)
    requires x.bestNode.Some?
  {
    && CanPay(w.vault, w.ledger, x.bestNode.value, x.asset, x.bestUsdc)
    && r == w.router.(escrows := w.router.escrows - {x.id})
    && v == Paid(w.vault, x.bestNode.value, x.bestUsdc)
    && l.now == w.ledger.now
    && l.log + LeftEvents(w.queue, x) == w.ledger.log + FillEvents(w, x)
    && forall t, h :: l.Balance(t, h) == w.ledger.Balance(t, h) + FillMoves(w, x, t, h)
  }

  /** The router pays the whole standing bid for the whole position. */
  lemma SettleStanding(w: World, id: nat)
    requires Inv(w) && id in w.auction.exits && w.auction.exits[id].Live() && w.auction.exits[id].bestNode.Some?
    ensures var x := w.auction.exits[id];
            var done := w.router.Settle(w.vault, w.ledger, id, x.bestNode.value, x.amount, x.bestUsdc);
            done.Ok? && SettledStanding(w, x, done.value.0, done.value.1, done.value.2)
  {
    var x := w.auction.exits[id];
    BidIsCommitted(w, id);
    DepositIsHeld(w, x.bestNode.value);
    EscrowIsHeld(w, id);
    SettleEffect(w.router, w.vault, w.ledger, id, x.bestNode.value, x.amount, x.bestUsdc);
  }

  /** The world once the router has settled `x` and the exit has left its line. */
  function Sold(w: World, x: Exit, r: RouterState, v: VaultState, l: LedgerState): World {
    World(l.(log := l.log + LeftEvents(w.queue, x)), v, r, Left(w.queue, x),
          SetExit(w.auction, x.(status := Status.Settled)))
  }

  lemma SoldIsFilled(w: World, x: Exit, r: RouterState, v: VaultState, l: LedgerState)
    requires x.bestNode.Some? && SettledStanding(w, x, r, v, l)
    ensures Filled(w, Sold(w, x, r, v, l), x)
  {
    var l' := l.(log := l.log + LeftEvents(w.queue, x));
    assert forall t, h :: l'.Balance(t, h) == l.Balance(t, h);
  }

  lemma FillSells(w: World, x: Exit)
    requires Registry(w.auction) && Lines(w.auction, w.queue) && x.id in w.auction.exits && x == w.auction.exits[x.id]
    requires Fillable(w, x)
    requires w.router.Settle(w.vault, w.ledger, x.id, x.bestNode.value, x.amount, x.bestUsdc).Ok?
    ensures var (r, v, l) := w.router.Settle(w.vault, w.ledger, x.id, x.bestNode.value, x.amount, x.bestUsdc).value;
            w.Fill(x) == Ok(Sold(w, x, r, v, l))
  {
    var l := w.router.Settle(w.vault, w.ledger, x.id, x.bestNode.value, x.amount, x.bestUsdc).value.2;
    TurnMeansNobodyAhead(w, x);
    LeaveLineEffect(w, l, x, x.(status := Status.Settled));
    assert w.Fill(x).Ok?;
    var w' := w.Fill(x).value;
    assert w'.queue == Left(w.queue, x);
    assert w'.ledger == l.(log := l.log + LeftEvents(w.queue, x));
    assert w'.auction == SetExit(w.auction, x.(status := Status.Settled));
  }

  lemma FillEffect(w: World, id: nat)
    requires Inv(w) && id in w.auction.exits && w.auction.exits[id].Live()
    ensures w.Fill(w.auction.exits[id]).Ok? <==> Fillable(w, w.auction.exits[id])
    ensures w.Fill(w.auction.exits[id]).Ok? ==>
              Filled(w, w.Fill(w.auction.exits[id]).value, w.auction.exits[id])
    ensures w.Fill(w.auction.exits[id]).Err? ==> w.Fill(w.auction.exits[id]).error.Auction?
  {
    var x := w.auction.exits[id];
    TurnMeansNobodyAhead(w, x);
    if Fillable(w, x) {
      SettleStanding(w, id);
      FillSells(w, x);
      var (r, v, l) := w.router.Settle(w.vault, w.ledger, id, x.bestNode.value, x.amount, x.bestUsdc).value;
      SoldIsFilled(w, x, r, v, l);
    }
  }

  // ---- releasing the standing bid ----

  function ExposureOf(v: VaultState, n: Address, asset: Address): int {
    if (n, asset) in v.appetites then v.appetites[(n, asset)].exposure else 0
  }

  /** The vault will let go of the standing bid: its bidder still books that much exposure. */
  predicate Releasable(v: VaultState, x: Exit) {
    x.bestNode.Some? ==> ExposureOf(v, x.bestNode.value, x.asset) >= x.bestUsdc
  }

  function LetGo(v: VaultState, x: Exit): VaultState {
    if x.bestNode.Some? && x.bestNode.value in v.nodes && (x.bestNode.value, x.asset) in v.appetites
    then v.Shift(x.bestNode.value, x.asset, -x.bestUsdc)
    else v
  }

  function ReleaseEvents(x: Exit): seq<Event> {
    if x.bestNode.Some? then [Event.Released(x.bestNode.value, x.asset, x.bestUsdc)] else []
  }

  lemma ReleaseEffect(w: World, v: VaultState, l: LedgerState, x: Exit)
    requires WellFormed(x)
    requires x.bestNode.Some? ==>
               && x.bestNode.value in v.nodes && (x.bestNode.value, x.asset) in v.appetites
               && v.nodes[x.bestNode.value].committed >= x.bestUsdc
    ensures w.ReleaseBest(v, l, x) == if Releasable(v, x)
                                      then Ok((LetGo(v, x), l.(log := l.log + ReleaseEvents(x))))
                                      else Err(Error.Vault(CommitUnderflow))
  {
    assert l.log + [] == l.log;
  }

  // ---- cancelling ----

  function CancelEvents(w: World, x: Exit): seq<Event> {
    ReleaseEvents(x) + LeftEvents(w.queue, x)
    + [Refunded(x.asset, x.id, x.seller, x.amount), Event.Cancelled(x.asset, x.id, x.seller)]
  }

  /** The bid is let go, the exit leaves any line, and the tokens go home. */
  ghost predicate CancelledTo(w: World, w': World, x: Exit) {
    && w'.vault == LetGo(w.vault, x)
    && w'.router == w.router.(escrows := w.router.escrows - {x.id})
    && w'.queue == Left(w.queue, x)
    && w'.auction == SetExit(w.auction, x.AsCancelled())
    && w'.ledger.now == w.ledger.now
    && w'.ledger.log == w.ledger.log + CancelEvents(w, x)
    && forall t, h :: w'.ledger.Balance(t, h) == w.ledger.Balance(t, h)
                        + Moved(x.asset, RouterContract, x.seller, x.amount, t, h)
  }

  lemma CancelEffect(w: World, signer: User, id: nat)
    requires Inv(w)
    ensures w.Cancel(signer, id).Ok? <==>
              && id in w.auction.exits && w.auction.exits[id].seller == signer && w.auction.exits[id].Live()
              && Releasable(w.vault, w.auction.exits[id])
    ensures w.Cancel(signer, id).Ok? ==> CancelledTo(w, w.Cancel(signer, id).value, w.auction.exits[id])
    ensures (&& id in w.auction.exits && w.auction.exits[id].seller == signer && w.auction.exits[id].Live()
             && !Releasable(w.vault, w.auction.exits[id]))
            ==> w.Cancel(signer, id) == Err(Error.Vault(CommitUnderflow))
  {
    if id in w.auction.exits && w.auction.exits[id].seller == signer && w.auction.exits[id].Live() {
      var x := w.auction.exits[id];
      if x.bestNode.Some? {
        BidIsCommitted(w, id);
      }
      ReleaseEffect(w, w.vault, w.ledger, x);
      if Releasable(w.vault, x) {
        EscrowIsHeld(w, id);
        CancelSucceeds(w, signer, id);
      }
    }
  }

  lemma CancelSucceeds(w: World, signer: User, id: nat)
    requires Lines(w.auction, w.queue) && Custody(w.auction, w.router) && Registry(w.auction)
    requires id in w.auction.exits && w.auction.exits[id].seller == signer && w.auction.exits[id].Live()
    requires w.ReleaseBest(w.vault, w.ledger, w.auction.exits[id])
          == Ok((LetGo(w.vault, w.auction.exits[id]),
                 w.ledger.(log := w.ledger.log + ReleaseEvents(w.auction.exits[id]))))
    requires w.ledger.Balance(w.auction.exits[id].asset, RouterContract) >= w.auction.exits[id].amount
    ensures w.Cancel(signer, id).Ok? && CancelledTo(w, w.Cancel(signer, id).value, w.auction.exits[id])
  {
    var x := w.auction.exits[id];
    var l1 := w.ledger.(log := w.ledger.log + ReleaseEvents(x));
    LeaveLineEffect(w, l1, x, x.AsCancelled());
    var l2 := l1.(log := l1.log + LeftEvents(w.queue, x));
    assert forall t, h :: l2.Balance(t, h) == w.ledger.Balance(t, h);
    TransferMoves(l2, x.asset, RouterContract, x.seller, x.amount);
    var back := l2.Transfer(x.asset, RouterContract, x.seller, x.amount);
    var w' := w.Cancel(signer, id).value;
    assert w'.ledger.log == w.ledger.log + CancelEvents(w, x);
    assert forall t, h :: w'.ledger.Balance(t, h) == back.value.Balance(t, h);
  }

  // ---- bidding ----

  function BidEvents(x: Exit, node: Address, usdc: int): seq<Event>
    requires usdc > 0
  {
    [Committed(node, x.asset, usdc)] + ReleaseEvents(x)
    + [Bid(x.asset, x.id, node, usdc, DiscountBps(x.referenceUsdc, usdc), x.bestNode)]
  }

  /** What a successful commit says about the node that made it. */
  predicate Lockable(v: VaultState, now: nat, node: Address, asset: Address, usdc: int) {
    && node in v.nodes && (node, asset) in v.appetites
    && Uncommitted(v, node) >= usdc
    && v.appetites[(node, asset)].active
    && now - v.appetites[(node, asset)].backedAt >= MIN_BACKING_AGE
  }

  /** The new bid is locked, then the one it displaces is let go. */
  ghost predicate BidTo(w: World, w': World, x: Exit, node: Address, usdc: int) {
    && usdc > x.bestUsdc >= 0
    && Lockable(w.vault, w.ledger.now, node, x.asset, usdc)
    && w'.vault == LetGo(w.vault.Shift(node, x.asset, usdc), x)
    && w'.router == w.router && w'.queue == w.queue
    && w'.auction == SetExit(w.auction, x.WithBid(node, usdc))
    && w'.ledger == w.ledger.(log := w.ledger.log + BidEvents(x, node, usdc))
  }

  predicate TakesBids(w: World, id: nat) {
    && id in w.auction.exits && w.auction.exits[id].Live()
    && (w.auction.exits[id].status == Status.Open ==> w.ledger.now <= w.auction.exits[id].closesAt)
  }

  /**
   A bid succeeds exactly when the exit takes bids, the price beats the standing one, the
   vault commits it, and the vault lets the standing bid go. A node raising its own bid never
   meets the last condition's failure: its fresh commitment already covers the release.
   */
  lemma BidEffect(w: World, node: User, id: nat, usdc: int)
    requires Inv(w)
    ensures w.PlaceBid(node, id, usdc).Ok? <==>
              && TakesBids(w, id)
              && usdc > w.auction.exits[id].bestUsdc
              && Backs(w.vault, w.ledger.now, node, w.auction.exits[id].asset, usdc,
                       DiscountBps(w.auction.exits[id].referenceUsdc, usdc))
              && (w.auction.exits[id].bestNode == Some(node) || Releasable(w.vault, w.auction.exits[id]))
    ensures w.PlaceBid(node, id, usdc).Ok? ==>
              BidTo(w, w.PlaceBid(node, id, usdc).value, w.auction.exits[id], node, usdc)
  {
    if TakesBids(w, id) && usdc > w.auction.exits[id].bestUsdc {
      var x := w.auction.exits[id];
      var commit := w.vault.Commit(w.ledger, node, x.asset, usdc, DiscountBps(x.referenceUsdc, usdc));
      CommitsExactlyWhen(w.vault, w.ledger, node, x.asset, usdc, DiscountBps(x.referenceUsdc, usdc));
      if commit.Ok? {
        var (v1, l1) := commit.value;
        if x.bestNode.Some? {
          BidIsCommitted(w, id);
        }
        ReleaseEffect(w, v1, l1, x);
        ReleasableOnceCommitted(w.vault, node, usdc, x);
        if Releasable(v1, x) {
          BidSucceeds(w, node, id, usdc);
        }
      }
    }
  }

  /** The new commitment covers the release of the node's own old bid, and of nobody else's. */
  lemma ReleasableOnceCommitted(v: VaultState, node: Address, usdc: int, x: Exit)
    requires node in v.nodes && (node, x.asset) in v.appetites
    requires v.appetites[(node, x.asset)].exposure >= 0 && usdc > x.bestUsdc
    ensures Releasable(v.Shift(node, x.asset, usdc), x) <==> x.bestNode == Some(node) || Releasable(v, x)
  {
  }

  lemma BidSucceeds(w: World, node: User, id: nat, usdc: int)
    requires TakesBids(w, id) && WellFormed(w.auction.exits[id]) && w.auction.exits[id].id == id
    requires usdc > w.auction.exits[id].bestUsdc
    requires var x := w.auction.exits[id];
             var commit := w.vault.Commit(w.ledger, node, x.asset, usdc, DiscountBps(x.referenceUsdc, usdc));
             && commit.Ok?
             && w.ReleaseBest(commit.value.0, commit.value.1, x)
                  == Ok((LetGo(commit.value.0, x), commit.value.1.(log := commit.value.1.log + ReleaseEvents(x))))
    ensures w.PlaceBid(node, id, usdc).Ok?
    ensures BidTo(w, w.PlaceBid(node, id, usdc).value, w.auction.exits[id], node, usdc)
  {
    var x := w.auction.exits[id];
    assert w.PlaceBid(node, id, usdc).value.ledger.log == w.ledger.log + BidEvents(x, node, usdc);
  }

  // ---- closing the window ----

  /** Nothing acceptable, or somebody is ahead: the exit takes the last place in line. */
  ghost predicate QueuedTo(w: World, w': World, x: Exit) {
    && |w.queue.Line(x.asset)| < MAX_QUEUE_DEPTH && x.id !in w.queue.Line(x.asset)
    && w'.vault == w.vault && w'.router == w.router
    && w'.queue == QueueState(w.queue.queues[x.asset := w.queue.Line(x.asset) + [x.id]])
    && w'.auction == SetExit(w.auction, x.(status := Status.Queued))
    && w'.ledger == w.ledger.Publish(Event.Queued(x.asset, x.id, |w.queue.Line(x.asset)|, |w.queue.Line(x.asset)| + 1))
  }

  lemma CloseEffect(w: World, id: nat)
    requires Inv(w)
    ensures w.Close(id).Ok? <==>
              && id in w.auction.exits && w.auction.exits[id].status == Status.Open
              && w.ledger.now > w.auction.exits[id].closesAt
              && (Fillable(w, w.auction.exits[id]) || |w.queue.Line(w.auction.exits[id].asset)| < MAX_QUEUE_DEPTH)
    ensures w.Close(id).Ok? ==>
              if Fillable(w, w.auction.exits[id]) then Filled(w, w.Close(id).value, w.auction.exits[id])
              else QueuedTo(w, w.Close(id).value, w.auction.exits[id])
  {
    if id in w.auction.exits && w.auction.exits[id].status == Status.Open {
      var x := w.auction.exits[id];
      TurnMeansNobodyAhead(w, x);
      FillEffect(w, id);
      LinesJoined(w.auction, w.queue, w.ledger, x.(status := Status.Queued));
    }
  }

  // ---- opening ----

  function Opening(w: World, seller: Address, asset: Address, amount: int, reference: int, reserve: int,
                   duration: Option<nat>): Exit
  {
    var window := if duration.Some? then duration.value else DEFAULT_DURATION;
    Exit(w.auction.nextId, seller, asset, amount, reference, reserve, w.ledger.now, w.ledger.now + window,
         Status.Open, None, 0)
  }

  ghost predicate OpenedTo(w: World, w': World, x: Exit) {
    && w'.vault == w.vault && w'.queue == w.queue
    && x.id == w.auction.nextId && WellFormed(x) && x.status == Status.Open && x.bestNode.None?
    && w'.router == w.router.(escrows := w.router.escrows[x.id := EscrowRecord(x.seller, x.asset, x.amount)])
    && w'.auction == AuctionState(x.id + 1, w.auction.exits[x.id := x])
    && w'.ledger.now == w.ledger.now
    && w'.ledger.log == w.ledger.log
         + [Escrowed(x.asset, x.id, x.seller, x.amount),
            Opened(x.asset, x.id, x.seller, x.amount, x.referenceUsdc, x.minAcceptUsdc, x.closesAt)]
    && forall t, h :: w'.ledger.Balance(t, h) == w.ledger.Balance(t, h)
                        + Moved(x.asset, x.seller, RouterContract, x.amount, t, h)
  }

  /** The id is always fresh to the router: opening fails only on bad terms or a short balance. */
  lemma OpenEffect(w: World, seller: User, asset: Address, amount: int, reference: int, reserve: int,
                   duration: Option<nat>)
    requires Registry(w.auction) && Custody(w.auction, w.router)
    ensures w.OpenExit(seller, asset, amount, reference, reserve, duration).Ok? <==>
              && amount > 0 && reserve >= 0 && reference > 0
              && (duration.Some? ==> MIN_DURATION <= duration.value <= MAX_DURATION)
              && w.ledger.Balance(asset, seller) >= amount
    ensures var done := w.OpenExit(seller, asset, amount, reference, reserve, duration);
            done.Ok? ==> OpenedTo(w, done.value, Opening(w, seller, asset, amount, reference, reserve, duration))
  {
    assert w.auction.nextId !in w.router.escrows;
    if w.OpenExit(seller, asset, amount, reference, reserve, duration).Ok? {
      OpenSucceeds(w, seller, asset, amount, reference, reserve, duration);
    }
  }

  lemma OpenSucceeds(w: World, seller: User, asset: Address, amount: int, reference: int, reserve: int,
                     duration: Option<nat>)
    requires w.OpenExit(seller, asset, amount, reference, reserve, duration).Ok?
    ensures OpenedTo(w, w.OpenExit(seller, asset, amount, reference, reserve, duration).value,
                     Opening(w, seller, asset, amount, reference, reserve, duration))
  {
    var l := w.OpenExit(seller, asset, amount, reference, reserve, duration).value.ledger;
    TransferMoves(w.ledger, asset, seller, RouterContract, amount);
    var held := w.ledger.Transfer(asset, seller, RouterContract, amount).value;
    assert forall t, h :: l.Balance(t, h) == held.Balance(t, h);
  }
}
