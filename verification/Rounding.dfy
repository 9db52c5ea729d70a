/** Basis-point arithmetic: the discount a bid shows, and the fee partial fills pay. */
module Rounding {
  import opened Ledger
  import opened LpVault
  import opened SettlementRouter
  import opened ExitAuction
  import opened Invariant
  import opened Settlement
  import opened Effects
  import opened EventLog
  import opened Conservation

  /** The quotient of a floor division, by what it is rather than how it is computed. */
  lemma FloorDiv(a: int, b: int, m: int)
    requires a >= 0 && b > 0
    ensures m <= a / b <==> m * b <= a
  {
    var q := a / b;
    assert a == q * b + a % b;
    if m <= q {
      assert m * b <= q * b;
    } else {
      assert m * b >= (q + 1) * b == q * b + b;
    }
  }

  /** The discount always fits its basis points: no truncation on the way into the event. */
  lemma DiscountInRange(reference: int, usdc: int)
    requires reference > 0 && usdc > 0
    ensures 0 <= DiscountBps(reference, usdc) < BPS_DENOMINATOR
  {
    if usdc < reference {
      FloorDiv((reference - usdc) * BPS_DENOMINATOR, reference, BPS_DENOMINATOR);
    }
  }

  /** The floor check passes exactly when the bid is at or below the floor price, unrounded. */
  lemma FloorIsExact(reference: int, usdc: int, floor: int)
    requires reference > 0 && usdc > 0 && floor > 0
    ensures DiscountBps(reference, usdc) >= floor
       <==> usdc * BPS_DENOMINATOR <= reference * (BPS_DENOMINATOR - floor)
  {
    assert reference * (BPS_DENOMINATOR - floor) == reference * BPS_DENOMINATOR - floor * reference;
    if usdc < reference {
      FloorDiv((reference - usdc) * BPS_DENOMINATOR, reference, floor);
    } else {
      assert floor * reference > 0;
    }
  }

  lemma DiscountIsAntitone(reference: int, low: int, high: int)
    requires reference > 0 && 0 < low <= high
    ensures DiscountBps(reference, high) <= DiscountBps(reference, low)
  {
    if high < reference {
      var d := DiscountBps(reference, high);
      FloorDiv((reference - high) * BPS_DENOMINATOR, reference, d);
      FloorDiv((reference - low) * BPS_DENOMINATOR, reference, d);
    }
  }

  /** So no accepted bid pays more than its node's own floor allows, to the last unit. */
  lemma NobodyPaysAboveTheirFloor(w: World, node: User, id: nat, usdc: int)
    requires Inv(w) && w.PlaceBid(node, id, usdc).Ok?
    ensures var x := w.auction.exits[id];
            (node, x.asset) in w.vault.appetites &&
            var floor := w.vault.appetites[(node, x.asset)].minDiscountBps;
            floor > 0 ==> usdc * BPS_DENOMINATOR <= x.referenceUsdc * (BPS_DENOMINATOR - floor)
  {
    BidEffect(w, node, id, usdc);
    var x := w.auction.exits[id];
    assert WellFormed(x);
    var floor := w.vault.appetites[(node, x.asset)].minDiscountBps;
    if floor > 0 {
      FloorIsExact(x.referenceUsdc, usdc, floor);
    }
  }

  // ---- partial fills of one escrow ----

  datatype Slice = Slice(node: User, tokens: int, usdc: int)

  function HeldFor(r: RouterState, id: nat): int {
    if id in r.escrows then r.escrows[id].amount else 0
  }

  /** One exit filled by several nodes, one after another. */
  function SettleAll(r: RouterState, v: VaultState, l: LedgerState, id: nat, slices: seq<Slice>)
    : Result<(RouterState, VaultState, LedgerState)>
    decreases |slices|
  {
    if slices == [] then Ok((r, v, l))
    else
      var (r1, v1, l1) :- r.Settle(v, l, id, slices[0].node, slices[0].tokens, slices[0].usdc);
      SettleAll(r1, v1, l1, id, slices[1..])
  }

  function Tokens(slices: seq<Slice>): int {
    if slices == [] then 0 else slices[0].tokens + Tokens(slices[1..])
  }

  function Gross(slices: seq<Slice>): int {
    if slices == [] then 0 else slices[0].usdc + Gross(slices[1..])
  }

  function Fees(slices: seq<Slice>, feeBps: nat): int {
    if slices == [] then 0 else Fee(slices[0].usdc, feeBps) + Fees(slices[1..], feeBps)
  }

  /** The events of one fill record who got what. */
  lemma SliceIsRecorded(r: RouterState, v: VaultState, l: LedgerState, id: nat, s: Slice)
    requires r.feeBps <= MAX_PROTOCOL_FEE_BPS && (id in r.escrows ==> r.escrows[id].seller.Party?)
    requires r.Settle(v, l, id, s.node, s.tokens, s.usdc).Ok?
    ensures var l' := r.Settle(v, l, id, s.node, s.tokens, s.usdc).value.2;
            && Flowed(FeesToTreasury, l'.log) == Flowed(FeesToTreasury, l.log) + Fee(s.usdc, r.feeBps)
            && Flowed(NetToSellers, l'.log) == Flowed(NetToSellers, l.log) + s.usdc - Fee(s.usdc, r.feeBps)
  {
    SettleEffect(r, v, l, id, s.node, s.tokens, s.usdc);
    var es := SettlementEvents(r, id, r.escrows[id], s.node, s.tokens, s.usdc);
    FlowedAppend(FeesToTreasury, l.log, es);
    FlowedAppend(NetToSellers, l.log, es);
    SettlementFlow(r, id, r.escrows[id], s.node, s.tokens, s.usdc, FeesToTreasury);
    SettlementFlow(r, id, r.escrows[id], s.node, s.tokens, s.usdc, NetToSellers);
  }

  /** One fill: the escrow and the router's tokens shrink by what was delivered. */
  lemma SliceIsDelivered(r: RouterState, v: VaultState, l: LedgerState, id: nat, s: Slice)
    requires r.feeBps <= MAX_PROTOCOL_FEE_BPS && (id in r.escrows ==> r.escrows[id].seller.Party?)
    requires r.Settle(v, l, id, s.node, s.tokens, s.usdc).Ok?
    ensures var (r', _, l') := r.Settle(v, l, id, s.node, s.tokens, s.usdc).value;
            && r'.feeBps == r.feeBps
            && s.tokens + HeldFor(r', id) == HeldFor(r, id) && HeldFor(r', id) >= 0
            && id in r.escrows && (id in r'.escrows ==> r'.escrows[id] == r.escrows[id].(amount := HeldFor(r', id)))
            && l'.Balance(r.escrows[id].asset, RouterContract)
                 == l.Balance(r.escrows[id].asset, RouterContract) - s.tokens
  {
    SettleEffect(r, v, l, id, s.node, s.tokens, s.usdc);
    SettlementAtContracts(r, v.config.usdc, r.escrows[id], s.node, s.tokens, s.usdc);
  }

  /**
   Any number of fills of one escrow conserve it: what was delivered and what is left add up
   to what was there, the router's tokens fall by exactly what was delivered, and the events
   record every slice's gross, fee and net.
   */
  lemma {:induction false} PartialFillsConserve(r: RouterState, v: VaultState, l: LedgerState, id: nat,
                                                slices: seq<Slice>)
    requires r.feeBps <= MAX_PROTOCOL_FEE_BPS && (id in r.escrows ==> r.escrows[id].seller.Party?)
    requires SettleAll(r, v, l, id, slices).Ok?
    ensures var (r', _, l') := SettleAll(r, v, l, id, slices).value;
            && r'.feeBps == r.feeBps
            && Tokens(slices) + HeldFor(r', id) == HeldFor(r, id)
            && (HeldFor(r, id) >= 0 ==> HeldFor(r', id) >= 0)
            && (id in r'.escrows ==> id in r.escrows && r'.escrows[id] == r.escrows[id].(amount := HeldFor(r', id)))
            && Flowed(FeesToTreasury, l'.log) == Flowed(FeesToTreasury, l.log) + Fees(slices, r.feeBps)
            && Flowed(NetToSellers, l'.log) == Flowed(NetToSellers, l.log) + Gross(slices) - Fees(slices, r.feeBps)
            && (id in r.escrows ==>
                  l'.Balance(r.escrows[id].asset, RouterContract)
                    == l.Balance(r.escrows[id].asset, RouterContract) - Tokens(slices))
    decreases |slices|
  {
    if slices != [] {
      var s := slices[0];
      SliceIsRecorded(r, v, l, id, s);
      SliceIsDelivered(r, v, l, id, s);
      var (r1, v1, l1) := r.Settle(v, l, id, s.node, s.tokens, s.usdc).value;
      PartialFillsConserve(r1, v1, l1, id, slices[1..]);
      if id !in r1.escrows {
        NothingLeft(r1, v1, l1, id, slices[1..]);
      }
    }
  }

  /** An escrow that is used up can be filled no further. */
  lemma {:induction false} NothingLeft(r: RouterState, v: VaultState, l: LedgerState, id: nat, slices: seq<Slice>)
    requires id !in r.escrows && SettleAll(r, v, l, id, slices).Ok?
    ensures slices == []
  {
  }

  /**
   Fills followed by a refund: delivered + refunded = escrowed, and the router has let go of
   exactly what it held for this exit.
   */
  lemma {:induction false} FillsThenRefund(r: RouterState, v: VaultState, l: LedgerState, id: nat, slices: seq<Slice>)
    requires r.feeBps <= MAX_PROTOCOL_FEE_BPS && id in r.escrows && r.escrows[id].seller.Party?
    requires 0 <= r.escrows[id].amount <= l.Balance(r.escrows[id].asset, RouterContract)
    requires SettleAll(r, v, l, id, slices).Ok? && id in SettleAll(r, v, l, id, slices).value.0.escrows
    ensures var held := r.escrows[id];
            var (r1, _, l1) := SettleAll(r, v, l, id, slices).value;
            var done := r1.Refund(l1, id);
            && done.Ok? && id !in done.value.0.escrows
            && done.value.1.Balance(held.asset, held.seller)
                 == l1.Balance(held.asset, held.seller) + held.amount - Tokens(slices)
            && done.value.1.Balance(held.asset, RouterContract) == l.Balance(held.asset, RouterContract) - held.amount
  {
    PartialFillsConserve(r, v, l, id, slices);
    var (r1, v1, l1) := SettleAll(r, v, l, id, slices).value;
    RefundReturnsTheRest(r1, v1, l1, id);
  }

  /** A refund returns exactly the rest, and nothing can be drawn on the escrow again. */
  lemma RefundReturnsTheRest(r: RouterState, v: VaultState, l: LedgerState, id: nat)
    requires id in r.escrows && 0 <= r.escrows[id].amount <= l.Balance(r.escrows[id].asset, RouterContract)
    requires r.escrows[id].seller.Party?
    ensures var held := r.escrows[id];
            var done := r.Refund(l, id);
            && done.Ok?
            && HeldFor(done.value.0, id) == 0
            && done.value.1.Balance(held.asset, held.seller) == l.Balance(held.asset, held.seller) + held.amount
            && done.value.1.Balance(held.asset, RouterContract) == l.Balance(held.asset, RouterContract) - held.amount
            && done.value.0.Refund(done.value.1, id) == Err(Error.Router(NothingEscrowed))
            && forall s: Slice :: done.value.0.Settle(v, done.value.1, id, s.node, s.tokens, s.usdc).Err?
  {
    var held := r.escrows[id];
    TransferMoves(l, held.asset, RouterContract, held.seller, held.amount);
    var back := l.Transfer(held.asset, RouterContract, held.seller, held.amount);
    assert forall t, h :: r.Refund(l, id).value.1.Balance(t, h) == back.value.Balance(t, h);
  }

  /** Two fees against the fee on both together: at most as much, and short of it by at most one. */
  lemma FeesAdd(a: int, b: int, feeBps: nat)
    requires a > 0 && b > 0 && feeBps <= MAX_PROTOCOL_FEE_BPS
    ensures Fee(a, feeBps) + Fee(b, feeBps) <= Fee(a + b, feeBps) <= Fee(a, feeBps) + Fee(b, feeBps) + 1
  {
    FeeBounds(a, feeBps);
    FeeBounds(b, feeBps);
    FeeBounds(a + b, feeBps);
    Distributes(a, b, feeBps);
    FloorsAdd(a * feeBps, b * feeBps, Fee(a, feeBps), Fee(b, feeBps), Fee(a + b, feeBps));
  }

  lemma Distributes(a: int, b: int, c: int)
    ensures (a + b) * c == a * c + b * c
  {
  }

  lemma FloorsAdd(x: int, y: int, f: int, g: int, h: int)
    requires f * BPS_DENOMINATOR <= x < (f + 1) * BPS_DENOMINATOR
    requires g * BPS_DENOMINATOR <= y < (g + 1) * BPS_DENOMINATOR
    requires h * BPS_DENOMINATOR <= x + y < (h + 1) * BPS_DENOMINATOR
    ensures f + g <= h <= f + g + 1
  {
  }

  /** Splitting a fill never costs more in fees, and saves less than one unit per slice. */
  lemma {:induction false} SlicedFees(slices: seq<Slice>, feeBps: nat)
    requires slices != [] && feeBps <= MAX_PROTOCOL_FEE_BPS
    requires forall s :: s in slices ==> s.usdc > 0
    ensures Gross(slices) > 0
    ensures Fees(slices, feeBps) <= Fee(Gross(slices), feeBps) < Fees(slices, feeBps) + |slices|
    decreases |slices|
  {
    var s, rest := slices[0], slices[1..];
    if rest == [] {
      assert Gross(slices) == s.usdc && Fees(slices, feeBps) == Fee(s.usdc, feeBps);
    } else {
      SlicedFees(rest, feeBps);
      FeesAdd(s.usdc, Gross(rest), feeBps);
    }
  }

  /** A quote is given for every positive amount, and withholds the exact fee, rounded down. */
  lemma QuoteIsExact(r: RouterState, usdc: int)
    requires r.feeBps <= MAX_PROTOCOL_FEE_BPS
    ensures r.QuoteNet(usdc).Ok? <==> usdc > 0
    ensures usdc > 0 ==>
              var withheld := usdc - r.QuoteNet(usdc).value;
              0 <= withheld < usdc
              && withheld * BPS_DENOMINATOR <= usdc * r.feeBps < (withheld + 1) * BPS_DENOMINATOR
  {
    if usdc > 0 {
      FeeBounds(usdc, r.feeBps);
    }
  }

  /** What the front end quotes is what the seller is paid, and it is always positive. */
  lemma QuoteIsPaid(r: RouterState, v: VaultState, l: LedgerState, id: nat, s: Slice)
    requires r.feeBps <= MAX_PROTOCOL_FEE_BPS && (id in r.escrows ==> r.escrows[id].seller.Party?)
    requires r.Settle(v, l, id, s.node, s.tokens, s.usdc).Ok?
    ensures var quote := r.QuoteNet(s.usdc);
            && quote.Ok? && quote.value > 0
            && PaidOut(s.node, r.escrows[id].asset, r.escrows[id].seller, quote.value)
                 == r.Settle(v, l, id, s.node, s.tokens, s.usdc).value.2.log[|l.log|]
  {
    SettleEffect(r, v, l, id, s.node, s.tokens, s.usdc);
    FeeBounds(s.usdc, r.feeBps);
  }
}
