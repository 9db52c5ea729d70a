/**
 What the layer promises its users in any state whose ledgers agree: a standing bid can be
 paid, a withdrawal can be made, and a refusal always comes from where the rules put it.
 */
module Guarantees {
  import opened Ledger
  import opened SettlementRouter
  import opened ExitAuction
  import opened Totals
  import opened Chain
  import opened Invariant
  import opened Effects
  import opened Changes

  /**
   A seller's acceptance succeeds exactly when there is a bid at or above the reserve and nobody
   waits ahead on the asset; it then sells the whole exit. Nothing the vault, router, queue or
   token could object to is left.
   */
  lemma StandingBidCanBePaid(w: World, signer: User, id: nat)
    requires Inv(w)
    ensures w.AcceptBid(signer, id).Ok? <==>
              && id in w.auction.exits && w.auction.exits[id].seller == signer && w.auction.exits[id].Live()
              && Fillable(w, w.auction.exits[id])
    ensures w.AcceptBid(signer, id).Ok? ==> Filled(w, w.AcceptBid(signer, id).value, w.auction.exits[id])
    ensures w.AcceptBid(signer, id).Err? ==>
              w.AcceptBid(signer, id).error.Auction? || w.AcceptBid(signer, id).error.Unauthorized?
  {
    if id in w.auction.exits && w.auction.exits[id].Live() {
      FillEffect(w, id);
    }
  }

  /** An unlocked withdrawal always executes; its second check of the balance never fires. */
  lemma WithdrawalAlwaysExecutes(w: World, node: User)
    requires Inv(w)
    ensures w.vault.ExecuteWithdrawal(w.ledger, node).Ok? <==>
              node in w.vault.withdrawals && w.ledger.now >= w.vault.withdrawals[node].unlockAt
    ensures var done := w.vault.ExecuteWithdrawal(w.ledger, node);
            done.Err? ==>
              done.error == Error.Vault(NoWithdrawalPending) || done.error == Error.Vault(TimelockNotElapsed)
  {
    if node in w.vault.withdrawals {
      DepositIsHeld(w, node);
      assert Uncommitted(w.vault, node) >= 0;
    }
  }

  /** The free balance a node reads is the exact difference; its clamp at zero is never used. */
  lemma FreeBalanceIsExact(w: World, n: Address)
    requires Inv(w)
    ensures w.vault.FreeBalance(n)
         == if n in w.vault.nodes
            then w.vault.nodes[n].deposited - w.vault.nodes[n].committed - w.vault.Reserved(n)
            else 0
  {
    assert n in w.vault.nodes ==> Uncommitted(w.vault, n) >= 0;
  }

  /**
   The new bid is committed before the old one is let go, even when one node made both: to
   raise its own bid a node needs free balance and headroom for the two at once.
   */
  lemma RaisingNeedsRoomForBoth(w: World, node: User, id: nat, usdc: int)
    requires Inv(w) && id in w.auction.exits && w.auction.exits[id].bestNode == Some(node)
    requires w.PlaceBid(node, id, usdc).Ok?
    ensures var x := w.auction.exits[id];
            && node in w.vault.nodes && (node, x.asset) in w.vault.appetites
            && w.vault.nodes[node].deposited >= x.bestUsdc + usdc + w.vault.Reserved(node)
            && w.vault.appetites[(node, x.asset)].exposure + usdc <= w.vault.appetites[(node, x.asset)].maxExposure
  {
    BidEffect(w, node, id, usdc);
    BidIsCommitted(w, id);
  }

  /** Another node's bid stands on the exit, and that node has reported its exposure away. */
  predicate HeldByAnother(w: World, node: Address, id: nat) {
    && id in w.auction.exits && w.auction.exits[id].bestNode.Some? && w.auction.exits[id].bestNode != Some(node)
    && !Releasable(w.vault, w.auction.exits[id])
  }

  /** Once the vault has committed the bid, only another node's standing bid can be in its way. */
  lemma OnlyAnotherRefuses(w: World, call: Call)
    requires Inv(w) && call.PlaceBid? && TakesBids(w, call.exitId)
    requires var x := w.auction.exits[call.exitId];
             && call.usdcAmount > x.bestUsdc
             && w.vault.Commit(w.ledger, call.node, x.asset, call.usdcAmount,
                               DiscountBps(x.referenceUsdc, call.usdcAmount)).Ok?
    ensures var r := w.PlaceBid(call.node, call.exitId, call.usdcAmount);
            r.Err? ==> r.error == Error.Vault(CommitUnderflow) && HeldByAnother(w, call.node, call.exitId)
  {
    var x := w.auction.exits[call.exitId];
    var (v1, l1) := w.vault.Commit(w.ledger, call.node, x.asset, call.usdcAmount,
                                   DiscountBps(x.referenceUsdc, call.usdcAmount)).value;
    if x.bestNode.Some? {
      BidIsCommitted(w, call.exitId);
    }
    ReleaseEffect(w, v1, l1, x);
    ReleasableOnceCommitted(w.vault, call.node, call.usdcAmount, x);
  }

  predicate SettledIn(a: AuctionState, id: nat) {
    id in a.exits && a.exits[id].status == Status.Settled
  }

  /** Only a sale settles an exit, and only its own. */
  lemma ChangeSettles(w: World, w': World, c: Change, id: nat)
    requires Registry(w.auction) && Made(w, w', c)
    ensures SettledIn(w'.auction, id) && !SettledIn(w.auction, id) ==>
              c.Sells? && c.exit.id == id && Fillable(w, c.exit) && Filled(w, w', c.exit)
  {
    ChangeWrites(w, w', c);
  }

  /** Who settles an exit: its seller, or anybody once its window is over. */
  predicate MaySettle(w: World, call: Call, x: Exit) {
    || (call.AcceptBid? && call.exitId == x.id && call.signer == x.seller)
    || (call.Close? && call.exitId == x.id && x.status == Status.Open && w.ledger.now > x.closesAt)
  }

  lemma OnlyAuctionSettles(w: World, call: Call, id: nat)
    ensures SettledIn(Step(w, call).auction, id) && !SettledIn(w.auction, id) ==>
              AuctionCall(call) && Apply(w, call).Ok?
  {
    if !AuctionCall(call) || Apply(w, call).Err? {
      OtherCallsKeepExits(w, call);
    }
  }

  /** A sold position was paid at or above the reserve, by the seller's word or after the window. */
  lemma WhoSettles(w: World, call: Call, id: nat)
    requires Inv(w)
    ensures SettledIn(Step(w, call).auction, id) && !SettledIn(w.auction, id) ==>
              && id in w.auction.exits && Known(w, w.auction.exits[id]) && Fillable(w, w.auction.exits[id])
              && MaySettle(w, call, w.auction.exits[id])
              && Filled(w, Step(w, call), w.auction.exits[id])
  {
    OnlyAuctionSettles(w, call, id);
    if AuctionCall(call) && Apply(w, call).Ok? {
      CallMakes(w, call);
      ChangeSettles(w, Step(w, call), ChangeOf(w, call), id);
      if call.AcceptBid? {
        StandingBidCanBePaid(w, call.signer, call.exitId);
      } else if call.Close? {
        CloseEffect(w, call.exitId);
      }
    }
  }

  /**
   A fill, by acceptance or by a close, moves exactly this: the node's gross leaves the vault,
   split into the seller's net and the treasury's fee, and the whole escrow goes to the node.
   Under any aliasing, a party's change is the sum of its roles' changes.
   */
  lemma FillMovesBothLegs(w: World, call: Call, id: nat, t: Address, h: Address)
    requires Inv(w)
    ensures SettledIn(Step(w, call).auction, id) && !SettledIn(w.auction, id) ==>
              && id in w.auction.exits && w.auction.exits[id].bestNode.Some?
              && Step(w, call).ledger.Balance(t, h) == w.ledger.Balance(t, h) + LegsMove(w, w.auction.exits[id], t, h)
  {
    WhoSettles(w, call, id);
    if SettledIn(Step(w, call).auction, id) && !SettledIn(w.auction, id) {
      LegsAreFillMoves(w, w.auction.exits[id], t, h);
    }
  }

  function LegsMove(w: World, x: Exit, t: Address, h: Address): int
    requires x.bestNode.Some?
  {
    var fee := Fee(x.bestUsdc, w.router.feeBps);
    (if t == w.vault.config.usdc
     then If(h == x.seller, x.bestUsdc - fee) + If(h == w.router.treasury, fee) - If(h == VaultContract, x.bestUsdc)
     else 0)
    + (if t == x.asset then If(h == x.bestNode.value, x.amount) - If(h == RouterContract, x.amount) else 0)
  }

  lemma LegsAreFillMoves(w: World, x: Exit, t: Address, h: Address)
    requires x.bestNode.Some? && WellFormed(x)
    ensures FillMoves(w, x, t, h) == LegsMove(w, x, t, h)
  {
  }
}
