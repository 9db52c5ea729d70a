/**
 What one settlement does, in full: both legs or neither, under any aliasing of seller,
 node, treasury, sold asset and USDC.
 */
module Settlement {
  import opened Ledger
  import opened LpVault
  import opened SettlementRouter

  lemma FeeBounds(gross: int, feeBps: nat)
    requires gross > 0 && feeBps <= MAX_PROTOCOL_FEE_BPS
    ensures 0 <= Fee(gross, feeBps) < gross
    ensures Fee(gross, feeBps) * BPS_DENOMINATOR <= gross * feeBps < (Fee(gross, feeBps) + 1) * BPS_DENOMINATOR
  {
    var product := gross * feeBps;
    assert 0 <= product <= gross * MAX_PROTOCOL_FEE_BPS;
  }

  /** The vault after `node` has paid `gross` out of its commitment. */
  function Paid(v: VaultState, node: Address, gross: int): VaultState
    requires node in v.nodes
  {
    var n := v.nodes[node];
    v.(nodes := v.nodes[node := n.(committed := n.committed - gross,
                                   deposited := n.deposited - gross,
                                   filled := n.filled + gross)])
  }

  /** The node has the record, the commitment and the capital to pay `gross` on `asset`. */
  predicate CanPay(v: VaultState, l: LedgerState, node: Address, asset: Address, gross: int) {
    && node in v.nodes && (node, asset) in v.appetites
    && v.nodes[node].committed >= gross && v.nodes[node].deposited >= gross
    && l.Balance(v.config.usdc, VaultContract) >= gross
  }

  function CashEvents(r: RouterState, held: EscrowRecord, node: Address, net: int, fee: int): seq<Event> {
    [PaidOut(node, held.asset, held.seller, net)]
    + if fee > 0 then [PaidOut(node, held.asset, r.treasury, fee)] else []
  }

  lemma PayOutEffect(v: VaultState, l: LedgerState, node: Address, asset: Address, to: Address, amount: int)
    requires amount > 0
    ensures var done := v.PayOut(l, node, asset, to, amount);
            && (done.Ok? <==> CanPay(v, l, node, asset, amount))
            && (done.Ok? ==>
                  && done.value.0 == Paid(v, node, amount)
                  && done.value.1.now == l.now
                  && done.value.1.log == l.log + [PaidOut(node, asset, to, amount)]
                  && forall t, h :: done.value.1.Balance(t, h)
                       == l.Balance(t, h) + Moved(v.config.usdc, VaultContract, to, amount, t, h))
  {
    TransferMoves(l, v.config.usdc, VaultContract, to, amount);
    var done, paid := v.PayOut(l, node, asset, to, amount), l.Transfer(v.config.usdc, VaultContract, to, amount);
    assert done.Ok? ==> forall t, h :: done.value.1.Balance(t, h) == paid.value.Balance(t, h);
  }

  /** Two payouts in a row need, and leave, what one of both amounts would. */
  lemma PaidTwice(v: VaultState, l: LedgerState, l1: LedgerState, node: Address, asset: Address, net: int, fee: int)
    requires CanPay(v, l, node, asset, net) && net > 0 && fee >= 0
    requires l1.Balance(v.config.usdc, VaultContract) == l.Balance(v.config.usdc, VaultContract) - net
    ensures CanPay(Paid(v, node, net), l1, node, asset, fee) <==> CanPay(v, l, node, asset, net + fee)
    ensures Paid(Paid(v, node, net), node, fee) == Paid(v, node, net + fee)
  {
  }

  lemma CashLegEffect(r: RouterState, v: VaultState, l: LedgerState, held: EscrowRecord, node: Address, net: int,
                      fee: int)
    requires net > 0 && fee >= 0 && held.seller.Party?
    ensures var done := r.CashLeg(v, l, held, node, net, fee);
            && (done.Ok? <==> CanPay(v, l, node, held.asset, net + fee))
            && (done.Ok? ==>
                  && done.value.0 == Paid(v, node, net + fee)
                  && done.value.1.now == l.now
                  && done.value.1.log == l.log + CashEvents(r, held, node, net, fee)
                  && forall t, h :: done.value.1.Balance(t, h) == l.Balance(t, h)
                       + Moved(v.config.usdc, VaultContract, held.seller, net, t, h)
                       + Moved(v.config.usdc, VaultContract, r.treasury, fee, t, h))
            && (done.Ok? ==> forall t :: done.value.1.Balance(t, RouterContract) == l.Balance(t, RouterContract))
  {
    PayOutEffect(v, l, node, held.asset, held.seller, net);
    if CanPay(v, l, node, held.asset, net) {
      var (v1, l1) := v.PayOut(l, node, held.asset, held.seller, net).value;
      PaidTwice(v, l, l1, node, held.asset, net, fee);
      if fee > 0 {
        PayOutEffect(v1, l1, node, held.asset, r.treasury, fee);
      }
    }
  }

  /** Everything one settlement with this fee moves in the balance of `h` in token `t`. */
  function ClearMoves(treasury: Address, usdc: Address, held: EscrowRecord, node: Address,
                      tokenAmount: int, gross: int, fee: int, t: Address, h: Address): int
  {
    Moved(usdc, VaultContract, held.seller, gross - fee, t, h)
    + Moved(usdc, VaultContract, treasury, fee, t, h)
    + Moved(held.asset, RouterContract, node, tokenAmount, t, h)
  }

  function SettlementMoves(r: RouterState, usdc: Address, held: EscrowRecord, node: Address,
                           tokenAmount: int, gross: int, t: Address, h: Address): int
  {
    ClearMoves(r.treasury, usdc, held, node, tokenAmount, gross, Fee(gross, r.feeBps), t, h)
  }

  function ClearEvents(r: RouterState, exitId: nat, held: EscrowRecord, node: Address,
                       tokenAmount: int, gross: int, fee: int): seq<Event>
  {
    CashEvents(r, held, node, gross - fee, fee)
    + [Settled(held.asset, exitId, held.seller, node, tokenAmount, gross, fee, gross - fee, held.amount - tokenAmount)]
  }

  function SettlementEvents(r: RouterState, exitId: nat, held: EscrowRecord, node: Address,
                            tokenAmount: int, gross: int): seq<Event>
  {
    ClearEvents(r, exitId, held, node, tokenAmount, gross, Fee(gross, r.feeBps))
  }

  lemma AssetLegEffect(r: RouterState, l: LedgerState, exitId: nat, held: EscrowRecord, node: Address,
                       tokenAmount: int, gross: int, fee: int)
    requires 0 < tokenAmount
    ensures var done := r.AssetLeg(l, exitId, held, node, tokenAmount, gross, fee);
            && (done.Ok? <==> l.Balance(held.asset, RouterContract) >= tokenAmount)
            && (done.Ok? ==>
                  && done.value.0 == r.(escrows := if tokenAmount == held.amount then r.escrows - {exitId}
                                                   else r.escrows[exitId := held.(amount := held.amount - tokenAmount)])
                  && done.value.1.now == l.now
                  && done.value.1.log == l.log + [Settled(held.asset, exitId, held.seller, node, tokenAmount, gross,
                                                          fee, gross - fee, held.amount - tokenAmount)]
                  && forall t, h :: done.value.1.Balance(t, h) == l.Balance(t, h)
                       + Moved(held.asset, RouterContract, node, tokenAmount, t, h))
  {
    TransferMoves(l, held.asset, RouterContract, node, tokenAmount);
    var done := r.AssetLeg(l, exitId, held, node, tokenAmount, gross, fee);
    var sent := l.Transfer(held.asset, RouterContract, node, tokenAmount);
    assert done.Ok? ==> forall t, h :: done.value.1.Balance(t, h) == sent.value.Balance(t, h);
  }

  /** Clearing is its two legs, one after the other. */
  lemma ClearIsTwoLegs(r: RouterState, v: VaultState, l: LedgerState, exitId: nat, held: EscrowRecord, node: Address,
                       tokenAmount: int, gross: int, fee: int)
    ensures var done := r.Clear(v, l, exitId, held, node, tokenAmount, gross, fee);
            match r.CashLeg(v, l, held, node, gross - fee, fee)
            case Err(e) => done == Err(e)
            case Ok((v1, l1)) =>
              match r.AssetLeg(l1, exitId, held, node, tokenAmount, gross, fee)
              case Err(e) => done == Err(e)
              case Ok((r', l2)) => done == Ok((r', v1, l2))
  {
  }

  lemma ClearEffect(r: RouterState, v: VaultState, l: LedgerState, exitId: nat, held: EscrowRecord, node: Address,
                    tokenAmount: int, gross: int, fee: int)
    requires tokenAmount > 0 && 0 <= fee < gross && held.seller.Party?
    ensures var done := r.Clear(v, l, exitId, held, node, tokenAmount, gross, fee);
            && (done.Ok? <==>
                  CanPay(v, l, node, held.asset, gross) && l.Balance(held.asset, RouterContract) >= tokenAmount)
            && (done.Ok? ==>
                  && done.value.0 == r.(escrows := if tokenAmount == held.amount then r.escrows - {exitId}
                                                   else r.escrows[exitId := held.(amount := held.amount - tokenAmount)])
                  && done.value.1 == Paid(v, node, gross)
                  && done.value.2.now == l.now
                  && done.value.2.log == l.log + ClearEvents(r, exitId, held, node, tokenAmount, gross, fee))
  {
    ClearIsTwoLegs(r, v, l, exitId, held, node, tokenAmount, gross, fee);
    CashLegEffect(r, v, l, held, node, gross - fee, fee);
    var cash := r.CashLeg(v, l, held, node, gross - fee, fee);
    if cash.Ok? {
      AssetLegAfterCash(r, l, cash.value.1, exitId, held, node, tokenAmount, gross, fee);
    }
  }

  /** The asset leg on the ledger the cash leg left, told from the ledger before both. */
  lemma AssetLegAfterCash(r: RouterState, l: LedgerState, l1: LedgerState, exitId: nat, held: EscrowRecord,
                          node: Address, tokenAmount: int, gross: int, fee: int)
    requires tokenAmount > 0 && l1.now == l.now && l1.log == l.log + CashEvents(r, held, node, gross - fee, fee)
    requires l1.Balance(held.asset, RouterContract) == l.Balance(held.asset, RouterContract)
    ensures var done := r.AssetLeg(l1, exitId, held, node, tokenAmount, gross, fee);
            && (done.Ok? <==> l.Balance(held.asset, RouterContract) >= tokenAmount)
            && (done.Ok? ==>
                  && done.value.0 == r.(escrows := if tokenAmount == held.amount then r.escrows - {exitId}
                                                   else r.escrows[exitId := held.(amount := held.amount - tokenAmount)])
                  && done.value.1.now == l.now
                  && done.value.1.log == l.log + ClearEvents(r, exitId, held, node, tokenAmount, gross, fee))
  {
    AssetLegEffect(r, l1, exitId, held, node, tokenAmount, gross, fee);
  }

  lemma CashBalance(r: RouterState, v: VaultState, l: LedgerState, held: EscrowRecord, node: Address, net: int,
                    fee: int, t: Address, h: Address)
    requires net > 0 && fee >= 0 && held.seller.Party? && r.CashLeg(v, l, held, node, net, fee).Ok?
    ensures r.CashLeg(v, l, held, node, net, fee).value.1.Balance(t, h) == l.Balance(t, h)
              + Moved(v.config.usdc, VaultContract, held.seller, net, t, h)
              + Moved(v.config.usdc, VaultContract, r.treasury, fee, t, h)
  {
    CashLegEffect(r, v, l, held, node, net, fee);
  }

  lemma AssetBalance(r: RouterState, l: LedgerState, exitId: nat, held: EscrowRecord, node: Address,
                     tokenAmount: int, gross: int, fee: int, t: Address, h: Address)
    requires 0 < tokenAmount && r.AssetLeg(l, exitId, held, node, tokenAmount, gross, fee).Ok?
    ensures r.AssetLeg(l, exitId, held, node, tokenAmount, gross, fee).value.1.Balance(t, h)
         == l.Balance(t, h) + Moved(held.asset, RouterContract, node, tokenAmount, t, h)
  {
    AssetLegEffect(r, l, exitId, held, node, tokenAmount, gross, fee);
  }

  lemma LegsAddUp(l: LedgerState, l1: LedgerState, l2: LedgerState, treasury: Address, usdc: Address,
                  held: EscrowRecord, node: Address, tokenAmount: int, gross: int, fee: int, t: Address, h: Address)
    requires l1.Balance(t, h) == l.Balance(t, h)
               + Moved(usdc, VaultContract, held.seller, gross - fee, t, h)
               + Moved(usdc, VaultContract, treasury, fee, t, h)
    requires l2.Balance(t, h) == l1.Balance(t, h) + Moved(held.asset, RouterContract, node, tokenAmount, t, h)
    ensures l2.Balance(t, h) == l.Balance(t, h) + ClearMoves(treasury, usdc, held, node, tokenAmount, gross, fee, t, h)
  {
  }

  /** What the asset leg leaves, given what the cash leg left. */
  lemma ClearBalance(r: RouterState, usdc: Address, l: LedgerState, l1: LedgerState, exitId: nat, held: EscrowRecord,
                     node: Address, tokenAmount: int, gross: int, fee: int, t: Address, h: Address)
    requires tokenAmount > 0 && r.AssetLeg(l1, exitId, held, node, tokenAmount, gross, fee).Ok?
    requires l1.Balance(t, h) == l.Balance(t, h)
               + Moved(usdc, VaultContract, held.seller, gross - fee, t, h)
               + Moved(usdc, VaultContract, r.treasury, fee, t, h)
    ensures r.AssetLeg(l1, exitId, held, node, tokenAmount, gross, fee).value.1.Balance(t, h)
         == l.Balance(t, h) + ClearMoves(r.treasury, usdc, held, node, tokenAmount, gross, fee, t, h)
  {
    AssetBalance(r, l1, exitId, held, node, tokenAmount, gross, fee, t, h);
    LegsAddUp(l, l1, r.AssetLeg(l1, exitId, held, node, tokenAmount, gross, fee).value.1,
              r.treasury, usdc, held, node, tokenAmount, gross, fee, t, h);
  }

  lemma ClearBalances(r: RouterState, v: VaultState, l: LedgerState, exitId: nat, held: EscrowRecord, node: Address,
                      tokenAmount: int, gross: int, fee: int)
    requires tokenAmount > 0 && 0 <= fee < gross && held.seller.Party?
    requires r.CashLeg(v, l, held, node, gross - fee, fee).Ok?
    requires var l1 := r.CashLeg(v, l, held, node, gross - fee, fee).value.1;
             r.AssetLeg(l1, exitId, held, node, tokenAmount, gross, fee).Ok?
    ensures var l1 := r.CashLeg(v, l, held, node, gross - fee, fee).value.1;
            var l2 := r.AssetLeg(l1, exitId, held, node, tokenAmount, gross, fee).value.1;
            forall t, h :: l2.Balance(t, h)
              == l.Balance(t, h) + ClearMoves(r.treasury, v.config.usdc, held, node, tokenAmount, gross, fee, t, h)
  {
    var l1 := r.CashLeg(v, l, held, node, gross - fee, fee).value.1;
    forall t, h
      ensures r.AssetLeg(l1, exitId, held, node, tokenAmount, gross, fee).value.1.Balance(t, h)
           == l.Balance(t, h) + ClearMoves(r.treasury, v.config.usdc, held, node, tokenAmount, gross, fee, t, h)
    {
      CashBalance(r, v, l, held, node, gross - fee, fee, t, h);
      ClearBalance(r, v.config.usdc, l, l1, exitId, held, node, tokenAmount, gross, fee, t, h);
    }
  }

  lemma SettleEffect(r: RouterState, v: VaultState, l: LedgerState, exitId: nat, node: Address,
                     tokenAmount: int, gross: int)
    requires r.feeBps <= MAX_PROTOCOL_FEE_BPS
    requires exitId in r.escrows ==> r.escrows[exitId].seller.Party?
    ensures r.Settle(v, l, exitId, node, tokenAmount, gross).Ok? <==>
              && tokenAmount > 0 && gross > 0
              && exitId in r.escrows && tokenAmount <= r.escrows[exitId].amount
              && CanPay(v, l, node, r.escrows[exitId].asset, gross)
              && l.Balance(r.escrows[exitId].asset, RouterContract) >= tokenAmount
    ensures match r.Settle(v, l, exitId, node, tokenAmount, gross)
            case Err(_) => true
            case Ok((r', v', l')) =>
              var held := r.escrows[exitId];
              && r' == r.(escrows := if tokenAmount == held.amount then r.escrows - {exitId}
                                     else r.escrows[exitId := held.(amount := held.amount - tokenAmount)])
              && v' == Paid(v, node, gross)
              && l'.now == l.now
              && l'.log == l.log + SettlementEvents(r, exitId, held, node, tokenAmount, gross)
              && forall t, h :: l'.Balance(t, h) == l.Balance(t, h)
                   + SettlementMoves(r, v.config.usdc, held, node, tokenAmount, gross, t, h)
  {
    if tokenAmount > 0 && gross > 0 && exitId in r.escrows && tokenAmount <= r.escrows[exitId].amount {
      FeeBounds(gross, r.feeBps);
      var fee := Fee(gross, r.feeBps);
      ClearEffect(r, v, l, exitId, r.escrows[exitId], node, tokenAmount, gross, fee);
      if r.Settle(v, l, exitId, node, tokenAmount, gross).Ok? {
        ClearIsTwoLegs(r, v, l, exitId, r.escrows[exitId], node, tokenAmount, gross, fee);
        ClearBalances(r, v, l, exitId, r.escrows[exitId], node, tokenAmount, gross, fee);
      }
    }
  }

  /** Seen from the contracts: the vault pays the gross in USDC, the router delivers the tokens. */
  lemma SettlementAtContracts(r: RouterState, usdc: Address, held: EscrowRecord, node: Address, tokenAmount: int,
                              gross: int)
    requires held.seller.Party? && node.Party?
    ensures SettlementMoves(r, usdc, held, node, tokenAmount, gross, usdc, VaultContract) == -gross
    ensures forall t :: SettlementMoves(r, usdc, held, node, tokenAmount, gross, t, RouterContract)
                     == if t == held.asset then -tokenAmount else 0
  {
  }
}
