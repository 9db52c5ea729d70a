/** A short run from a fresh deployment: one node, one seller, one bid, one sale. */
module SampleRun {
  import opened Ledger
  import opened LpVault
  import opened SettlementRouter
  import opened FifoQueue
  import opened ExitAuction
  import opened Chain
  import opened Invariant
  import opened Settlement
  import opened Effects
  import opened Changes
  import opened Reachable
  import opened Guarantees

  const NODE: User := Party(1)
  const SELLER: User := Party(2)
  const USDC: Address := Party(4)
  const ASSET: Address := Party(5)

  /** The node holds 2000 USDC, the seller 10 of the asset. */
  const START: World := World(
    LedgerState(0, map[USDC := map[NODE := 2000], ASSET := map[SELLER := 10]], []),
    VaultState(VaultConfig(USDC, 1, 0), 10_000, map[], map[], map[]),
    RouterState(Party(3), 0, map[]),
    QueueState(map[]),
    AuctionState(1, map[]))

  /** The node puts up half its capital and its terms, and lets them age. */
  const BACKING: seq<Call> := [Call.Deposit(NODE, 1000), SetAppetite(NODE, ASSET, 1000, 0, true), Tick(MIN_BACKING_AGE)]

  const BIDDING: seq<Call> := [OpenExit(SELLER, ASSET, 10, 100, 0, None), PlaceBid(NODE, 1, 50)]

  lemma Backed()
    ensures var w := Run(START, BACKING);
            && w.vault == START.vault.(nodes := map[NODE := Node(1000, 0, 0, 0)],
                                       appetites := map[(NODE, ASSET) := Appetite(1000, 0, 0, true, 0)])
            && w.ledger.now == MIN_BACKING_AGE
            && w.ledger.Balance(ASSET, SELLER) == 10 && w.ledger.Balance(USDC, NODE) == 1000
            && w.router == START.router && w.queue == START.queue && w.auction == START.auction
  {
    var w1 := Step(START, BACKING[0]);
    assert w1.vault.nodes == map[NODE := Node(1000, 0, 0, 0)];
    assert w1.ledger.Balance(ASSET, SELLER) == 10 && w1.ledger.Balance(USDC, NODE) == 1000;
    var w2 := Step(w1, BACKING[1]);
    var w3 := Step(w2, BACKING[2]);
    assert BACKING[1..][1..] == [BACKING[2]];
    assert Run(w2, [BACKING[2]]) == w3;
    assert Run(w1, BACKING[1..]) == w3;
  }

  lemma BidOnce()
    ensures var w := Run(START, BACKING + BIDDING);
            && 1 in w.auction.exits
            && w.auction.exits[1] == Exit(1, SELLER, ASSET, 10, 100, 0, MIN_BACKING_AGE, MIN_BACKING_AGE + 300,
                                          Status.Open, Some(NODE), 50)
            && w.vault.nodes == map[NODE := Node(1000, 50, 0, 0)]
            && w.vault.config == START.vault.config && w.queue == START.queue
            && w.router.feeBps == 0 && w.router.treasury == START.router.treasury
            && w.ledger.Balance(USDC, NODE) == 1000
  {
    Backed();
    RunConcat(START, BACKING, BIDDING);
    var w := Run(START, BACKING);
    var w1 := Step(w, BIDDING[0]);
    assert w1.auction.exits == map[1 := Exit(1, SELLER, ASSET, 10, 100, 0, MIN_BACKING_AGE, MIN_BACKING_AGE + 300,
                                             Status.Open, None, 0)];
    assert w1.ledger.Balance(USDC, NODE) == 1000;
    var w2 := Step(w1, BIDDING[1]);
    assert Run(w1, [BIDDING[1]]) == w2;
    assert BIDDING[1..] == [BIDDING[1]];
  }

  /** What the seller's acceptance does to a node, from any state in which it can be given. */
  lemma Accepted(w: World, seller: User, id: nat, node: User, usdc: Address)
    requires Inv(w) && id in w.auction.exits && w.auction.exits[id].Live()
    requires w.auction.exits[id].seller == seller != node
    requires Fillable(w, w.auction.exits[id]) && w.auction.exits[id].bestNode == Some(node) && node in w.vault.nodes
    requires w.vault.config.usdc == usdc != w.auction.exits[id].asset && w.router.treasury != node
    ensures var w' := Step(w, AcceptBid(seller, id));
            && w'.vault == Paid(w.vault, node, w.auction.exits[id].bestUsdc)
            && w'.ledger.Balance(usdc, node) == w.ledger.Balance(usdc, node)
  {
    AcceptanceIsFill(w, seller, id);
    FillEffect(w, id);
    CallMakes(w, AcceptBid(seller, id));
    NodeKeepsItsCash(w, Step(w, AcceptBid(seller, id)), w.auction.exits[id], node, usdc);
  }

  lemma AcceptanceIsFill(w: World, seller: User, id: nat)
    requires id in w.auction.exits && w.auction.exits[id].Live() && w.auction.exits[id].seller == seller
    requires w.auction.exits[id].bestNode.Some?
    ensures Apply(w, AcceptBid(seller, id)) == w.Fill(w.auction.exits[id])
  {
  }

  /** The bidder pays out of its deposit, not out of what it holds itself. */
  lemma NodeKeepsItsCash(w: World, w': World, x: Exit, node: User, usdc: Address)
    requires Filled(w, w', x) && x.bestNode == Some(node) && x.seller != node && w.router.treasury != node
    requires w.vault.config.usdc == usdc != x.asset
    ensures w'.ledger.Balance(usdc, node) == w.ledger.Balance(usdc, node)
  {
    assert FillMoves(w, x, usdc, node) == 0;
  }

  lemma SoldAfter(w: World, w': World)
    requires w.vault.nodes == map[NODE := Node(1000, 50, 0, 0)] && w'.vault == Paid(w.vault, NODE, 50)
    ensures w'.vault.nodes == map[NODE := Node(950, 0, 50, 0)]
  {
  }

  /** The seller takes the bid: the node has filled 50 of its 1000, and can still deposit more. */
  lemma SoldOnce()
    ensures Genesis(START)
    ensures var w := Run(START, BACKING + BIDDING + [AcceptBid(SELLER, 1)]);
            && w.vault.nodes == map[NODE := Node(950, 0, 50, 0)]
            && w.vault.config == START.vault.config && w.ledger.Balance(USDC, NODE) == 1000
  {
    BidOnce();
    ReachableHolds(START, BACKING + BIDDING);
    RunConcat(START, BACKING + BIDDING, [AcceptBid(SELLER, 1)]);
    SoldFrom(Run(START, BACKING + BIDDING));
  }

  lemma {:induction false} SoldFrom(w: World)
    requires Inv(w) && 1 in w.auction.exits && w.queue.Line(ASSET) == []
    requires w.auction.exits[1] == Exit(1, SELLER, ASSET, 10, 100, 0, MIN_BACKING_AGE, MIN_BACKING_AGE + 300,
                                        Status.Open, Some(NODE), 50)
    requires w.vault.nodes == map[NODE := Node(1000, 50, 0, 0)]
    requires w.vault.config.usdc == USDC && w.router.treasury == Party(3)
    ensures var w' := Run(w, [AcceptBid(SELLER, 1)]);
            && w'.vault.nodes == map[NODE := Node(950, 0, 50, 0)] && w'.vault.config == w.vault.config
            && w'.ledger.Balance(USDC, NODE) == w.ledger.Balance(USDC, NODE)
  {
    Accepted(w, SELLER, 1, NODE, USDC);
    SoldAfter(w, Step(w, AcceptBid(SELLER, 1)));
    assert Run(w, [AcceptBid(SELLER, 1)]) == Step(w, AcceptBid(SELLER, 1));
  }
}
