/**
 Whole-run conservation: no call creates or destroys tokens, and the events account for
 every USDC a node put in, took out, and paid.
 */
module Conservation {
  import opened Ledger
  import opened LpVault
  import opened SettlementRouter
  import opened FifoQueue
  import opened ExitAuction
  import opened Totals
  import opened Chain
  import opened Invariant
  import opened Settlement
  import opened Effects
  import opened Changes
  import opened Preservation
  import opened Reachable
  import opened EventLog

  // ---- tokens ----

  ghost function Supply(l: LedgerState, token: Address): int {
    Sum(l.Holders(token))
  }

  ghost predicate SameSupply(l: LedgerState, l': LedgerState) {
    forall t :: Supply(l', t) == Supply(l, t)
  }

  lemma TransferKeepsSupply(l: LedgerState, token: Address, from: Address, to: Address, amount: int)
    requires l.Transfer(token, from, to, amount).Ok?
    ensures SameSupply(l, l.Transfer(token, from, to, amount).value)
  {
    var row := l.Holders(token);
    var taken: Balances := row[from := Held(row, from) - amount];
    SumSet(row, from, Held(row, from) - amount);
    SumSet(taken, to, Held(taken, to) + amount);
    var l' := l.Transfer(token, from, to, amount).value;
    assert l'.Holders(token) == Shifted(row, from, to, amount);
    assert forall t :: t != token ==> l'.Holders(t) == l.Holders(t);
  }

  lemma SameLog(l: LedgerState, l': LedgerState)
    requires l'.balances == l.balances
    ensures SameSupply(l, l')
  {
    assert forall t :: l'.Holders(t) == l.Holders(t);
  }

  lemma PayOutKeepsSupply(v: VaultState, l: LedgerState, node: Address, asset: Address, to: Address, amount: int)
    requires v.PayOut(l, node, asset, to, amount).Ok?
    ensures SameSupply(l, v.PayOut(l, node, asset, to, amount).value.1)
    ensures v.PayOut(l, node, asset, to, amount).value.0.config == v.config
  {
    TransferKeepsSupply(l, v.config.usdc, VaultContract, to, amount);
    SameLog(l.Transfer(v.config.usdc, VaultContract, to, amount).value, v.PayOut(l, node, asset, to, amount).value.1);
  }

  lemma CashKeepsSupply(r: RouterState, v: VaultState, l: LedgerState, held: EscrowRecord, node: Address, net: int,
                        fee: int)
    requires r.CashLeg(v, l, held, node, net, fee).Ok?
    ensures SameSupply(l, r.CashLeg(v, l, held, node, net, fee).value.1)
  {
    PayOutKeepsSupply(v, l, node, held.asset, held.seller, net);
    var (v1, l1) := v.PayOut(l, node, held.asset, held.seller, net).value;
    if fee > 0 {
      PayOutKeepsSupply(v1, l1, node, held.asset, r.treasury, fee);
    }
  }

  lemma AssetKeepsSupply(r: RouterState, l: LedgerState, id: nat, held: EscrowRecord, node: Address,
                         tokens: int, gross: int, fee: int)
    requires r.AssetLeg(l, id, held, node, tokens, gross, fee).Ok?
    ensures SameSupply(l, r.AssetLeg(l, id, held, node, tokens, gross, fee).value.1)
  {
    TransferKeepsSupply(l, held.asset, RouterContract, node, tokens);
    SameLog(l.Transfer(held.asset, RouterContract, node, tokens).value,
            r.AssetLeg(l, id, held, node, tokens, gross, fee).value.1);
  }

  lemma SupplyCarries(l: LedgerState, l1: LedgerState, l2: LedgerState)
    requires SameSupply(l, l1) && SameSupply(l1, l2)
    ensures SameSupply(l, l2)
  {
  }

  lemma ClearKeepsSupply(r: RouterState, v: VaultState, l: LedgerState, id: nat, held: EscrowRecord, node: Address,
                         tokens: int, gross: int, fee: int)
    requires r.Clear(v, l, id, held, node, tokens, gross, fee).Ok?
    ensures SameSupply(l, r.Clear(v, l, id, held, node, tokens, gross, fee).value.2)
  {
    ClearIsTwoLegs(r, v, l, id, held, node, tokens, gross, fee);
    CashKeepsSupply(r, v, l, held, node, gross - fee, fee);
    var l1 := r.CashLeg(v, l, held, node, gross - fee, fee).value.1;
    AssetKeepsSupplyAfter(r, l, l1, id, held, node, tokens, gross, fee);
  }

  lemma AssetKeepsSupplyAfter(r: RouterState, l: LedgerState, l1: LedgerState, id: nat, held: EscrowRecord,
                              node: Address, tokens: int, gross: int, fee: int)
    requires SameSupply(l, l1) && r.AssetLeg(l1, id, held, node, tokens, gross, fee).Ok?
    ensures SameSupply(l, r.AssetLeg(l1, id, held, node, tokens, gross, fee).value.1)
  {
    AssetKeepsSupply(r, l1, id, held, node, tokens, gross, fee);
    SupplyCarries(l, l1, r.AssetLeg(l1, id, held, node, tokens, gross, fee).value.1);
  }

  lemma SettleKeepsSupply(r: RouterState, v: VaultState, l: LedgerState, id: nat, node: Address, tokens: int, usdc: int)
    requires r.Settle(v, l, id, node, tokens, usdc).Ok?
    ensures SameSupply(l, r.Settle(v, l, id, node, tokens, usdc).value.2)
  {
    ClearKeepsSupply(r, v, l, id, r.escrows[id], node, tokens, usdc, Fee(usdc, r.feeBps));
  }

  lemma FillKeepsSupply(w: World, x: Exit)
    ensures w.Fill(x).Ok? ==> SameSupply(w.ledger, w.Fill(x).value.ledger)
  {
    if w.Fill(x).Ok? {
      SettleKeepsSupply(w.router, w.vault, w.ledger, x.id, x.bestNode.value, x.amount, x.bestUsdc);
      SameLog(w.router.Settle(w.vault, w.ledger, x.id, x.bestNode.value, x.amount, x.bestUsdc).value.2,
              w.Fill(x).value.ledger);
    }
  }

  lemma CancelKeepsSupply(w: World, signer: User, id: nat)
    requires w.Cancel(signer, id).Ok?
    ensures SameSupply(w.ledger, w.Cancel(signer, id).value.ledger)
  {
    var x := w.auction.exits[id];
    var l1 := w.ReleaseBest(w.vault, w.ledger, x).value.1;
    var l2 := w.LeaveLine(l1, x).value.1;
    SameLog(w.ledger, l2);
    var held := w.router.escrows[id];
    TransferKeepsSupply(l2, held.asset, RouterContract, held.seller, held.amount);
    SameLog(l2.Transfer(held.asset, RouterContract, held.seller, held.amount).value, w.Cancel(signer, id).value.ledger);
  }

  /** The calls that move tokens by one plain transfer. */
  lemma OneTransferKeepsSupply(w: World, call: Call)
    requires Apply(w, call).Ok?
    requires call.Deposit? || call.ExecuteWithdrawal? || call.OpenExit? || call.SendTokens?
    ensures SameSupply(w.ledger, Step(w, call).ledger)
  {
    var usdc := w.vault.config.usdc;
    match call {
      case Deposit(node, amount) =>
        TransferKeepsSupply(w.ledger, usdc, node, VaultContract, amount);
        SameLog(w.ledger.Transfer(usdc, node, VaultContract, amount).value, Step(w, call).ledger);
      case ExecuteWithdrawal(node) =>
        var amount := w.vault.withdrawals[node].amount;
        TransferKeepsSupply(w.ledger, usdc, VaultContract, node, amount);
        SameLog(w.ledger.Transfer(usdc, VaultContract, node, amount).value, Step(w, call).ledger);
      case OpenExit(seller, asset, amount, _, _, _) =>
        TransferKeepsSupply(w.ledger, asset, seller, RouterContract, amount);
        SameLog(w.ledger.Transfer(asset, seller, RouterContract, amount).value, Step(w, call).ledger);
      case SendTokens(token, from, to, amount) =>
        TransferKeepsSupply(w.ledger, token, from, to, amount);
    }
  }

  lemma SupplyStep(w: World, call: Call)
    ensures SameSupply(w.ledger, Step(w, call).ledger)
  {
    if Apply(w, call).Ok? {
      match call {
        case AcceptBid(signer, id) => FillKeepsSupply(w, w.auction.exits[id]);
        case Close(id) =>
          var x := w.auction.exits[id];
          if x.bestNode.Some? && x.bestUsdc >= x.minAcceptUsdc && w.AtHead(x) {
            FillKeepsSupply(w, x);
          } else {
            SameLog(w.ledger, Step(w, call).ledger);
          }
        case Cancel(signer, id) => CancelKeepsSupply(w, signer, id);
        case Deposit(_, _) => OneTransferKeepsSupply(w, call);
        case ExecuteWithdrawal(_) => OneTransferKeepsSupply(w, call);
        case OpenExit(_, _, _, _, _, _) => OneTransferKeepsSupply(w, call);
        case SendTokens(_, _, _, _) => OneTransferKeepsSupply(w, call);
        case _ => SameLog(w.ledger, Step(w, call).ledger);
      }
    }
  }

  /** The total balance of every token is the same after any run, from any state at all. */
  lemma {:induction false} SupplyIsConstant(w: World, calls: seq<Call>, token: Address)
    ensures Supply(Run(w, calls).ledger, token) == Supply(w.ledger, token)
    decreases |calls|
  {
    if calls != [] {
      SupplyStep(w, calls[0]);
      SupplyIsConstant(Step(w, calls[0]), calls[1..], token);
    }
  }

  // ---- the event log as a set of books ----

  predicate NodeAccounted(v: VaultState, log: seq<Event>, n: Address) {
    && FilledBy(v, n) == Flowed(PayoutsBy(n), log)
    && DepositOf(v, n) == Flowed(DepositsBy(n), log) - Flowed(WithdrawalsBy(n), log) - FilledBy(v, n)
  }

  predicate SalesAccounted(a: AuctionState, log: seq<Event>) {
    && Ledgered(AllPaid, a) == Flowed(GrossSettled, log)
    && Flowed(NetToSellers, log) + Flowed(FeesToTreasury, log) == Flowed(GrossSettled, log)
  }

  /** The flows these books are kept in. */
  predicate OnBooks(f: Flow) {
    !f.Into? && !f.Times?
  }

  ghost predicate Accounted(w: World) {
    && (forall n :: NodeAccounted(w.vault, w.ledger.log, n))
    && SalesAccounted(w.auction, w.ledger.log)
  }

  lemma {:induction false} NoFlow(f: Flow, es: seq<Event>)
    requires forall e :: e in es ==> FlowIn(f, e) == 0
    ensures Flowed(f, es) == 0
  {
    if es != [] {
      NoFlow(f, es[..|es| - 1]);
    }
  }

  lemma {:induction false} FlowOfOne(f: Flow, e: Event)
    ensures Flowed(f, [e]) == FlowIn(f, e)
  {
    assert [e][..0] == [];
    assert Flowed(f, []) == 0;
  }

  lemma {:induction false} QuietFlow(w: World, w': World, es: seq<Event>, f: Flow)
    requires w'.ledger.log == w.ledger.log + es
    requires forall e :: e in es ==> FlowIn(f, e) == 0
    ensures Flowed(f, w'.ledger.log) == Flowed(f, w.ledger.log)
  {
    FlowedAppend(f, w.ledger.log, es);
    NoFlow(f, es);
  }

  lemma {:induction false} CashFlow(r: RouterState, held: EscrowRecord, node: Address, net: int, fee: int, f: Flow)
    ensures Flowed(f, CashEvents(r, held, node, net, fee))
         == FlowIn(f, PaidOut(node, held.asset, held.seller, net))
            + if fee > 0 then FlowIn(f, PaidOut(node, held.asset, r.treasury, fee)) else 0
  {
    var first := PaidOut(node, held.asset, held.seller, net);
    FlowOfOne(f, first);
    if fee > 0 {
      var second := PaidOut(node, held.asset, r.treasury, fee);
      FlowOfOne(f, second);
      FlowedAppend(f, [first], [second]);
    } else {
      assert CashEvents(r, held, node, net, fee) == [first];
    }
  }

  /** What one settlement adds to a flow: the seller's payout, any fee, and the sale itself. */
  function SaleFlow(r: RouterState, id: nat, held: EscrowRecord, node: Address, tokens: int, gross: int, f: Flow): int {
    var fee := Fee(gross, r.feeBps);
    FlowIn(f, PaidOut(node, held.asset, held.seller, gross - fee))
    + (if fee > 0 then FlowIn(f, PaidOut(node, held.asset, r.treasury, fee)) else 0)
    + FlowIn(f, Event.Settled(held.asset, id, held.seller, node, tokens, gross, fee, gross - fee, held.amount - tokens))
  }

  lemma {:induction false} SettlementFlow(r: RouterState, id: nat, held: EscrowRecord, node: Address, tokens: int,
                                          gross: int, f: Flow)
    ensures Flowed(f, SettlementEvents(r, id, held, node, tokens, gross))
         == SaleFlow(r, id, held, node, tokens, gross, f)
  {
    var fee := Fee(gross, r.feeBps);
    var settled := Event.Settled(held.asset, id, held.seller, node, tokens, gross, fee, gross - fee,
                                 held.amount - tokens);
    CashFlow(r, held, node, gross - fee, fee, f);
    FlowOfOne(f, settled);
    FlowedAppend(f, CashEvents(r, held, node, gross - fee, fee), [settled]);
  }

  function FillFlow(w: World, x: Exit, f: Flow): int
    requires x.bestNode.Some?
  {
    SaleFlow(w.router, x.id, EscrowRecord(x.seller, x.asset, x.amount), x.bestNode.value, x.amount, x.bestUsdc, f)
  }

  /** Leaving the line moves nothing. */
  lemma {:induction false} LeavingFlow(q: QueueState, x: Exit, f: Flow)
    ensures Flowed(f, LeftEvents(q, x)) == 0
  {
    NoFlow(f, LeftEvents(q, x));
  }

  lemma {:induction false} FillEventsFlow(w: World, x: Exit, f: Flow)
    requires x.bestNode.Some?
    ensures Flowed(f, FillEvents(w, x)) == FillFlow(w, x, f)
  {
    var held := EscrowRecord(x.seller, x.asset, x.amount);
    var sale := SettlementEvents(w.router, x.id, held, x.bestNode.value, x.amount, x.bestUsdc);
    SettlementFlow(w.router, x.id, held, x.bestNode.value, x.amount, x.bestUsdc, f);
    LeavingFlow(w.queue, x, f);
    FlowedAppend(f, sale, LeftEvents(w.queue, x));
  }

  lemma {:induction false} FilledFlow(w: World, w': World, x: Exit, f: Flow)
    requires Filled(w, w', x)
    ensures Flowed(f, w'.ledger.log) == Flowed(f, w.ledger.log) + FillFlow(w, x, f)
  {
    FillEventsFlow(w, x, f);
    FlowedAppend(f, w.ledger.log, FillEvents(w, x));
  }

  lemma FilledNode(w: World, w': World, x: Exit, n: Address)
    requires Filled(w, w', x) && x.bestUsdc > 0 && w.router.feeBps <= MAX_PROTOCOL_FEE_BPS
    requires NodeAccounted(w.vault, w.ledger.log, n)
    ensures NodeAccounted(w'.vault, w'.ledger.log, n)
  {
    PaidByFlow(w, x, n);
    FilledFlow(w, w', x, PayoutsBy(n));
    FilledFlow(w, w', x, DepositsBy(n));
    FilledFlow(w, w', x, WithdrawalsBy(n));
  }

  lemma PaidByFlow(w: World, x: Exit, n: Address)
    requires x.bestNode.Some? && x.bestUsdc > 0 && w.router.feeBps <= MAX_PROTOCOL_FEE_BPS
    ensures FillFlow(w, x, PayoutsBy(n)) == if x.bestNode.value == n then x.bestUsdc else 0
    ensures FillFlow(w, x, DepositsBy(n)) == FillFlow(w, x, WithdrawalsBy(n)) == 0
  {
    FeeBounds(x.bestUsdc, w.router.feeBps);
  }

  lemma FilledSales(w: World, w': World, x: Exit)
    requires Registry(w.auction) && SalesAccounted(w.auction, w.ledger.log) && Filled(w, w', x)
    requires Known(w, x)
    ensures SalesAccounted(w'.auction, w'.ledger.log)
  {
    FilledFlow(w, w', x, GrossSettled);
    FilledFlow(w, w', x, NetToSellers);
    FilledFlow(w, w', x, FeesToTreasury);
    LedgeredSet(AllPaid, w.auction, x.(status := Status.Settled));
  }

  lemma FilledAccounts(w: World, w': World, x: Exit)
    requires Registry(w.auction) && Limits(w) && Accounted(w) && Filled(w, w', x) && x.bestUsdc > 0
    requires Known(w, x)
    ensures Accounted(w')
  {
    forall n
      ensures NodeAccounted(w'.vault, w'.ledger.log, n)
    {
      FilledNode(w, w', x, n);
    }
    FilledSales(w, w', x);
  }

  /** A call that pays nobody and moves no deposit changes no account. */
  lemma QuietAccounts(w: World, w': World, es: seq<Event>)
    requires Accounted(w) && w'.ledger.log == w.ledger.log + es
    requires forall e :: e in es ==> !e.Deposit? && !e.Withdraw? && !e.PaidOut? && !e.Settled?
    requires forall n ::
               FilledBy(w'.vault, n) == FilledBy(w.vault, n) && DepositOf(w'.vault, n) == DepositOf(w.vault, n)
    requires Ledgered(AllPaid, w'.auction) == Ledgered(AllPaid, w.auction)
    ensures Accounted(w')
  {
    forall f | OnBooks(f)
      ensures Flowed(f, w'.ledger.log) == Flowed(f, w.ledger.log)
    {
      QuietFlow(w, w', es, f);
    }
    assert forall n :: NodeAccounted(w.vault, w.ledger.log, n) ==> NodeAccounted(w'.vault, w'.ledger.log, n);
  }

  lemma LetGoAccounts(v: VaultState, x: Exit, n: Address)
    ensures FilledBy(LetGo(v, x), n) == FilledBy(v, n) && DepositOf(LetGo(v, x), n) == DepositOf(v, n)
  {
  }

  /** Only a sale fills, and no change of an exit is a deposit or a withdrawal. */
  lemma ChangeKeepsAccounts(w: World, w': World, c: Change, n: Address)
    requires Made(w, w', c) && !c.Sells?
    ensures FilledBy(w'.vault, n) == FilledBy(w.vault, n) && DepositOf(w'.vault, n) == DepositOf(w.vault, n)
  {
    if c.Bids? {
      LetGoAccounts(w.vault.Shift(c.node, c.exit.asset, c.usdc), c.exit, n);
    }
  }

  lemma UnsoldAccounts(w: World, w': World, c: Change)
    requires Registry(w.auction) && Accounted(w) && Made(w, w', c) && !c.Sells?
    ensures Accounted(w')
  {
    forall n
      ensures FilledBy(w'.vault, n) == FilledBy(w.vault, n) && DepositOf(w'.vault, n) == DepositOf(w.vault, n)
    {
      ChangeKeepsAccounts(w, w', c, n);
    }
    ChangeWrites(w, w', c);
    RecordedTotals(w.auction, w'.auction, After(c), AllPaid);
    ChangeAppended(w, w', c);
    ChangeSpeaks(w, c);
    QuietAccounts(w, w', ChangeEvents(w, c));
  }

  lemma {:induction false} NodeFlows(w: World, w': World, es: seq<Event>, n: Address)
    requires NodeAccounted(w.vault, w.ledger.log, n) && w'.ledger.log == w.ledger.log + es
    requires FilledBy(w'.vault, n) == FilledBy(w.vault, n) + Flowed(PayoutsBy(n), es)
    requires DepositOf(w'.vault, n) == DepositOf(w.vault, n) + Flowed(DepositsBy(n), es)
                                       - Flowed(WithdrawalsBy(n), es) - Flowed(PayoutsBy(n), es)
    ensures NodeAccounted(w'.vault, w'.ledger.log, n)
  {
    FlowedAppend(PayoutsBy(n), w.ledger.log, es);
    FlowedAppend(DepositsBy(n), w.ledger.log, es);
    FlowedAppend(WithdrawalsBy(n), w.ledger.log, es);
  }

  /** What a vault call publishes, when it publishes anything, is one event. */
  lemma {:induction false} CapitalFlow(w: World, call: Call, f: Flow)
    requires !AuctionCall(call)
    ensures var es := CapitalEvents(w, call);
            Flowed(f, es) == if es == [] then 0 else FlowIn(f, es[0])
  {
    var es := CapitalEvents(w, call);
    if es != [] {
      FlowOfOne(f, es[0]);
    }
  }

  /** A vault call moves one node's account by what its event says. */
  lemma {:induction false} CapitalNode(w: World, call: Call, n: Address)
    requires Apply(w, call).Ok? && !AuctionCall(call)
    ensures var es, v' := CapitalEvents(w, call), Step(w, call).vault;
            && FilledBy(v', n) == FilledBy(w.vault, n) && Flowed(PayoutsBy(n), es) == 0
            && DepositOf(v', n) == DepositOf(w.vault, n) + Flowed(DepositsBy(n), es) - Flowed(WithdrawalsBy(n), es)
  {
    CapitalFlow(w, call, PayoutsBy(n));
    CapitalFlow(w, call, DepositsBy(n));
    CapitalFlow(w, call, WithdrawalsBy(n));
  }

  /** A vault call changes no sale. */
  lemma {:induction false} CapitalSales(a: AuctionState, log: seq<Event>, w: World, call: Call)
    requires !AuctionCall(call) && SalesAccounted(a, log)
    ensures SalesAccounted(a, log + CapitalEvents(w, call))
  {
    var es := CapitalEvents(w, call);
    forall f: Flow | f.GrossSettled? || f.NetToSellers? || f.FeesToTreasury?
      ensures Flowed(f, log + es) == Flowed(f, log)
    {
      CapitalIsNoSale(w, call, f);
      FlowedAppend(f, log, es);
    }
  }

  lemma {:induction false} CapitalIsNoSale(w: World, call: Call, f: Flow)
    requires !AuctionCall(call) && (f.GrossSettled? || f.NetToSellers? || f.FeesToTreasury?)
    ensures Flowed(f, CapitalEvents(w, call)) == 0
  {
    CapitalFlow(w, call, f);
  }

  lemma ChangeAccounts(w: World, w': World, c: Change)
    requires Inv(w) && Accounted(w) && Made(w, w', c)
    ensures Accounted(w')
  {
    if c.Sells? {
      BidIsCommitted(w, c.exit.id);
      FilledAccounts(w, w', c.exit);
    } else {
      UnsoldAccounts(w, w', c);
    }
  }

  lemma {:induction false} AccountsOverRuns(w: World, calls: seq<Call>)
    requires Inv(w) && Accounted(w)
    ensures Accounted(Run(w, calls))
    decreases |calls|
  {
    if calls != [] {
      StepKeeps(w, calls[0]);
      if Apply(w, calls[0]).Ok? {
        if AuctionCall(calls[0]) {
          CallMakes(w, calls[0]);
          ChangeAccounts(w, Step(w, calls[0]), ChangeOf(w, calls[0]));
        } else {
          CapitalAppended(w, calls[0]);
          OtherCallsKeepExits(w, calls[0]);
          CapitalSales(w.auction, w.ledger.log, w, calls[0]);
          forall n
            ensures NodeAccounted(Step(w, calls[0]).vault, Step(w, calls[0]).ledger.log, n)
          {
            CapitalNode(w, calls[0], n);
            NodeFlows(w, Step(w, calls[0]), CapitalEvents(w, calls[0]), n);
          }
        }
      }
      AccountsOverRuns(Step(w, calls[0]), calls[1..]);
    }
  }
}
