/**
 What every call keeps: the four contracts' separate ledgers agree with one another.
 No contract states this; it holds because of how the auction drives the other three.
 */
module Invariant {
  import opened Ledger
  import opened LpVault
  import opened SettlementRouter
  import opened FifoQueue
  import opened ExitAuction
  import opened Totals

  // ---- the auction's own records ----

  predicate WellFormed(x: Exit) {
    && x.seller.Party?
    && x.amount > 0 && x.referenceUsdc > 0 && x.minAcceptUsdc >= 0 && x.bestUsdc >= 0
    && (x.bestNode.None? <==> x.bestUsdc == 0)
    && (x.bestNode.Some? ==> x.bestNode.value.Party?)
    && (x.status == Status.Settled ==> x.bestNode.Some? && x.bestUsdc >= x.minAcceptUsdc)
    && (x.status == Status.Cancelled ==> x.bestNode.None?)
  }

  /** Ids are dense from 1 to `nextId - 1`. */
  ghost predicate Registry(a: AuctionState) {
    && a.nextId >= 1
    && (forall id :: id in a.exits <==> 1 <= id < a.nextId)
    && (forall id :: id in a.exits ==> a.exits[id].id == id && WellFormed(a.exits[id]))
  }

  // ---- queue and status ----

  predicate QueuedOn(a: AuctionState, asset: Address, id: nat) {
    id in a.exits && a.exits[id].asset == asset && a.exits[id].status == Status.Queued
  }

  /** An id stands in an asset's line, once, exactly when its exit is queued on that asset. */
  ghost predicate Lines(a: AuctionState, q: QueueState) {
    && (forall asset :: |q.Line(asset)| <= MAX_QUEUE_DEPTH && Distinct(q.Line(asset)))
    && (forall asset, id :: id in q.Line(asset) <==> QueuedOn(a, asset, id))
  }

  // ---- escrow and status ----

  /** An escrow exists exactly for the live exits, and says what the exit says. */
  ghost predicate Custody(a: AuctionState, r: RouterState) {
    && (forall id :: id in r.escrows <==> id in a.exits && a.exits[id].Live())
    && (forall id :: id in r.escrows ==>
                       r.escrows[id] == EscrowRecord(a.exits[id].seller, a.exits[id].asset, a.exits[id].amount))
  }

  // ---- commitments and exits ----

  function CommittedBy(v: VaultState, n: Address): int {
    if n in v.nodes then v.nodes[n].committed else 0
  }

  function FilledBy(v: VaultState, n: Address): int {
    if n in v.nodes then v.nodes[n].filled else 0
  }

  /** A node's commitment is the sum of its live best bids; what it filled, of its settled ones. */
  ghost predicate Books(a: AuctionState, v: VaultState) {
    && (forall n :: CommittedBy(v, n) == Ledgered(LiveBids(n), a))
    && (forall n :: FilledBy(v, n) == Ledgered(SettledBids(n), a))
    && (forall id :: id in a.exits && a.exits[id].bestNode.Some? ==>
                       (a.exits[id].bestNode.value, a.exits[id].asset) in v.appetites)
  }

  // ---- the vault's own records ----

  function Uncommitted(v: VaultState, n: Address): int
    requires n in v.nodes
  {
    v.nodes[n].deposited - v.nodes[n].committed - v.Reserved(n)
  }

  ghost predicate Solvent(v: VaultState) {
    && (forall n :: n in v.nodes ==> n.Party? && v.nodes[n].committed >= 0 && Uncommitted(v, n) >= 0)
    && (forall n :: n in v.withdrawals ==> n in v.nodes && v.withdrawals[n].amount > 0)
    && (forall k :: k in v.appetites ==> k.0 in v.nodes && v.appetites[k].exposure >= 0)
  }

  ghost predicate Limits(w: World) {
    && 0 < w.vault.maxSingleFillBps <= BPS_DENOMINATOR
    && w.router.feeBps <= MAX_PROTOCOL_FEE_BPS
    && (forall k :: k in w.vault.appetites ==> w.vault.appetites[k].backedAt <= w.ledger.now)
  }

  // ---- records and money ----

  function Deposits(nodes: map<Address, Node>): map<Address, int> {
    map n | n in nodes :: nodes[n].deposited
  }

  /** USDC the vault holds beyond what it owes its nodes. */
  ghost function VaultSurplus(w: World): int {
    w.ledger.Balance(w.vault.config.usdc, VaultContract) - Sum(Deposits(w.vault.nodes))
  }

  /** Tokens the router holds beyond what it has in escrow. */
  function RouterSurplus(w: World, token: Address): int {
    w.ledger.Balance(token, RouterContract) - Ledgered(HeldTokens(token), w.auction)
  }

  ghost predicate Covered(w: World) {
    VaultSurplus(w) >= 0 && forall token :: RouterSurplus(w, token) >= 0
  }

  ghost predicate Inv(w: World) {
    && Registry(w.auction)
    && Lines(w.auction, w.queue)
    && Custody(w.auction, w.router)
    && Books(w.auction, w.vault)
    && Solvent(w.vault)
    && Limits(w)
    && Covered(w)
  }

  // ---- what a change to one exit does to each ledger ----

  function SetExit(a: AuctionState, x: Exit): AuctionState {
    a.(exits := a.exits[x.id := x])
  }

  /** The exit keeps its identity; only status and best bid may differ. */
  predicate SameTerms(x: Exit, y: Exit) {
    y == x.(status := y.status, bestNode := y.bestNode, bestUsdc := y.bestUsdc)
  }

  lemma LinesKept(a: AuctionState, q: QueueState, x: Exit)
    requires Lines(a, q) && x.id in a.exits && SameTerms(a.exits[x.id], x)
    requires x.status == Status.Queued <==> a.exits[x.id].status == Status.Queued
    ensures Lines(SetExit(a, x), q)
  {
    var a' := SetExit(a, x);
    forall asset, id
      ensures id in q.Line(asset) <==> QueuedOn(a', asset, id)
    {
      assert id in q.Line(asset) <==> QueuedOn(a, asset, id);
    }
  }

  lemma LinesJoined(a: AuctionState, q: QueueState, l: LedgerState, x: Exit)
    requires Lines(a, q) && x.id in a.exits && SameTerms(a.exits[x.id], x)
    requires a.exits[x.id].status != Status.Queued && x.status == Status.Queued
    ensures x.id !in q.Line(x.asset)
    ensures q.Enqueue(l, x.asset, x.id).Ok? <==> |q.Line(x.asset)| < MAX_QUEUE_DEPTH
    ensures q.Enqueue(l, x.asset, x.id).Ok? ==> Lines(SetExit(a, x), q.Enqueue(l, x.asset, x.id).value.0)
  {
    assert !QueuedOn(a, x.asset, x.id);
    if |q.Line(x.asset)| < MAX_QUEUE_DEPTH {
      var q' := q.Enqueue(l, x.asset, x.id).value.0;
      var a' := SetExit(a, x);
      assert q'.Line(x.asset) == q.Line(x.asset) + [x.id];
      forall asset
        ensures |q'.Line(asset)| <= MAX_QUEUE_DEPTH && Distinct(q'.Line(asset))
      {
        assert asset != x.asset ==> q'.Line(asset) == q.Line(asset);
      }
      forall asset, id
        ensures id in q'.Line(asset) <==> QueuedOn(a', asset, id)
      {
        assert id in q.Line(asset) <==> QueuedOn(a, asset, id);
        assert asset != x.asset ==> q'.Line(asset) == q.Line(asset);
      }
    }
  }

  lemma WithoutMembers(line: seq<nat>, index: nat)
    requires Distinct(line) && index < |line|
    ensures Distinct(Without(line, index))
    ensures forall id :: id in Without(line, index) <==> id in line && id != line[index]
  {
    var rest := Without(line, index);
    forall id | id in line && id != line[index]
      ensures id in rest
    {
      var k :| 0 <= k < |line| && line[k] == id;
      assert rest[if k < index then k else k - 1] == id;
    }
  }

  lemma LinesLeft(a: AuctionState, q: QueueState, l: LedgerState, x: Exit)
    requires Lines(a, q) && x.id in a.exits && SameTerms(a.exits[x.id], x)
    requires a.exits[x.id].status == Status.Queued && x.status != Status.Queued
    ensures q.Dequeue(l, x.asset, x.id).Ok?
    ensures Lines(SetExit(a, x), q.Dequeue(l, x.asset, x.id).value.0)
  {
    assert QueuedOn(a, x.asset, x.id);
    var line := q.Line(x.asset);
    var index := IndexOf(line, x.id);
    assert index < |line|;
    WithoutMembers(line, index);
    var q' := q.Dequeue(l, x.asset, x.id).value.0;
    var a' := SetExit(a, x);
    assert q'.Line(x.asset) == Without(line, index);
    forall asset
      ensures |q'.Line(asset)| <= MAX_QUEUE_DEPTH && Distinct(q'.Line(asset))
    {
      assert asset != x.asset ==> q'.Line(asset) == q.Line(asset);
    }
    forall asset, id
      ensures id in q'.Line(asset) <==> QueuedOn(a', asset, id)
    {
      assert id in q.Line(asset) <==> QueuedOn(a, asset, id);
      assert asset != x.asset ==> q'.Line(asset) == q.Line(asset);
    }
  }

  /** The exit leaves the line exactly when it was in it; either way the lines stay right. */
  lemma LinesAfterEnd(w: World, l: LedgerState, x: Exit)
    requires Lines(w.auction, w.queue) && x.id in w.auction.exits && SameTerms(w.auction.exits[x.id], x)
    requires x.status != Status.Queued
    ensures w.LeaveLine(l, w.auction.exits[x.id]).Ok?
    ensures Lines(SetExit(w.auction, x), w.LeaveLine(l, w.auction.exits[x.id]).value.0)
  {
    if w.auction.exits[x.id].status == Status.Queued {
      LinesLeft(w.auction, w.queue, l, x);
    } else {
      LinesKept(w.auction, w.queue, x);
    }
  }

  lemma BooksSet(a: AuctionState, v: VaultState, x: Exit, v': VaultState)
    requires Registry(a) && Books(a, v) && x.id in a.exits && SameTerms(a.exits[x.id], x)
    requires forall n :: CommittedBy(v', n) == CommittedBy(v, n)
                                               + Weight(LiveBids(n), x) - Weight(LiveBids(n), a.exits[x.id])
    requires forall n :: FilledBy(v', n) == FilledBy(v, n)
                                            + Weight(SettledBids(n), x) - Weight(SettledBids(n), a.exits[x.id])
    requires forall k :: k in v.appetites ==> k in v'.appetites
    requires x.bestNode.Some? ==> (x.bestNode.value, x.asset) in v'.appetites
    ensures Books(SetExit(a, x), v')
  {
    var a' := SetExit(a, x);
    forall n
      ensures CommittedBy(v', n) == Ledgered(LiveBids(n), a')
      ensures FilledBy(v', n) == Ledgered(SettledBids(n), a')
    {
      LedgeredSet(LiveBids(n), a, x);
      LedgeredSet(SettledBids(n), a, x);
    }
  }

  lemma DepositsSet(v: VaultState, n: Address, state: Node)
    ensures Sum(Deposits(v.nodes[n := state]))
         == Sum(Deposits(v.nodes)) - At(Deposits(v.nodes), n) + state.deposited
  {
    assert Deposits(v.nodes[n := state]) == Deposits(v.nodes)[n := state.deposited];
    SumSet(Deposits(v.nodes), n, state.deposited);
  }
}
