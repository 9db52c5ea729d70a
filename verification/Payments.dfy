/**
 The events against the money. Every balance of every token is what the events moved into it,
 plus what its holders sent each other outside the layer; and what the vault paid to anybody is
 what the sales say they earned as a seller, plus the fees for the treasury.
 */
module Payments {
  import opened Ledger
  import opened SettlementRouter
  import opened ExitAuction
  import opened Totals
  import opened Chain
  import opened Invariant
  import opened Settlement
  import opened Effects
  import opened Changes
  import opened Reachable
  import opened EventLog
  import opened Conservation

  lemma {:induction false} FlowOfTwo(f: Flow, a: Event, b: Event)
    ensures Flowed(f, [a, b]) == FlowIn(f, a) + FlowIn(f, b)
  {
    FlowOfOne(f, a);
    FlowOfOne(f, b);
    FlowedAppend(f, [a], [b]);
    assert [a] + [b] == [a, b];
  }

  // ---- balances ----

  /** What a holder has of a token beyond what the events account for. */
  function Unexplained(w: World, t: Address, h: Address): int {
    w.ledger.Balance(t, h) - Flowed(Into(w.vault.config.usdc, t, h), w.ledger.log)
  }

  /** The events of a sale stand for exactly the transfers it makes. */
  lemma SaleFlowIsMoves(r: RouterState, usdc: Address, id: nat, held: EscrowRecord, node: Address, tokens: int,
                        gross: int, t: Address, h: Address)
    requires Fee(gross, r.feeBps) >= 0
    ensures SaleFlow(r, id, held, node, tokens, gross, Into(usdc, t, h))
         == SettlementMoves(r, usdc, held, node, tokens, gross, t, h)
  {
  }

  lemma SaleMoves(w: World, w': World, x: Exit, t: Address, h: Address)
    requires Filled(w, w', x) && x.bestUsdc > 0 && Limits(w)
    ensures Unexplained(w', t, h) == Unexplained(w, t, h)
  {
    var usdc := w.vault.config.usdc;
    FeeBounds(x.bestUsdc, w.router.feeBps);
    FilledFlow(w, w', x, Into(usdc, t, h));
    SaleFlowIsMoves(w.router, usdc, x.id, EscrowRecord(x.seller, x.asset, x.amount), x.bestNode.value, x.amount,
                    x.bestUsdc, t, h);
  }

  lemma OpeningMoves(w: World, w': World, x: Exit, t: Address, h: Address)
    requires OpenedTo(w, w', x)
    ensures Unexplained(w', t, h) == Unexplained(w, t, h)
  {
    var f, es := Into(w.vault.config.usdc, t, h), OpenEvents(x);
    FlowOfTwo(f, es[0], es[1]);
    FlowedAppend(f, w.ledger.log, es);
  }

  lemma {:induction false} CancelFlow(w: World, x: Exit, f: Flow)
    requires f.Into?
    ensures Flowed(f, CancelEvents(w, x)) == Moved(x.asset, RouterContract, x.seller, x.amount, f.token, f.holder)
  {
    var quiet := ReleaseEvents(x) + LeftEvents(w.queue, x);
    var back, done := Event.Refunded(x.asset, x.id, x.seller, x.amount), Event.Cancelled(x.asset, x.id, x.seller);
    QuietBeforeRefund(w, x, f);
    FlowOfTwo(f, back, done);
    FlowedAppend(f, quiet, [back, done]);
    assert CancelEvents(w, x) == quiet + [back, done];
  }

  lemma {:induction false} QuietBeforeRefund(w: World, x: Exit, f: Flow)
    requires f.Into?
    ensures Flowed(f, ReleaseEvents(x) + LeftEvents(w.queue, x)) == 0
  {
    NoFlow(f, ReleaseEvents(x) + LeftEvents(w.queue, x));
  }

  lemma CancelMoves(w: World, w': World, x: Exit, t: Address, h: Address)
    requires CancelledTo(w, w', x)
    ensures Unexplained(w', t, h) == Unexplained(w, t, h)
  {
    var f := Into(w.vault.config.usdc, t, h);
    CancelFlow(w, x, f);
    FlowedAppend(f, w.ledger.log, CancelEvents(w, x));
  }

  lemma {:induction false} NothingMoved(w: World, w': World, es: seq<Event>, t: Address, h: Address)
    requires w'.ledger.balances == w.ledger.balances && w'.ledger.log == w.ledger.log + es
    requires w'.vault.config == w.vault.config
    requires forall e :: e in es ==> MovedBy(w.vault.config.usdc, e, t, h) == 0
    ensures Unexplained(w', t, h) == Unexplained(w, t, h)
  {
    QuietFlow(w, w', es, Into(w.vault.config.usdc, t, h));
    assert w'.ledger.Balance(t, h) == w.ledger.Balance(t, h);
  }

  lemma BidMovesNothing(w: World, w': World, x: Exit, node: Address, usdc: int, t: Address, h: Address)
    requires BidTo(w, w', x, node, usdc)
    ensures Unexplained(w', t, h) == Unexplained(w, t, h)
  {
    NothingMoved(w, w', BidEvents(x, node, usdc), t, h);
  }

  lemma ChangeMoves(w: World, w': World, c: Change, t: Address, h: Address)
    requires Registry(w.auction) && Limits(w) && Made(w, w', c)
    ensures Unexplained(w', t, h) == Unexplained(w, t, h)
  {
    match c {
      case Opens(x) => OpeningMoves(w, w', x, t, h);
      case Bids(x, node, usdc) => BidMovesNothing(w, w', x, node, usdc, t, h);
      case Sells(x) =>
        assert WellFormed(x);
        SaleMoves(w, w', x, t, h);
      case Joins(x) => NothingMoved(w, w', QueueEvents(w, x), t, h);
      case Drops(x) => CancelMoves(w, w', x, t, h);
    }
  }

  lemma {:induction false} DepositMoves(w: World, call: Call, t: Address, h: Address)
    requires call.Deposit? && Apply(w, call).Ok?
    ensures Unexplained(Step(w, call), t, h) == Unexplained(w, t, h)
  {
    TransferMoves(w.ledger, w.vault.config.usdc, call.node, VaultContract, call.amount);
    CapitalAppended(w, call);
    VaultFlow(w, Step(w, call), call, Into(w.vault.config.usdc, t, h));
  }

  lemma {:induction false} WithdrawalMoves(w: World, call: Call, t: Address, h: Address)
    requires call.ExecuteWithdrawal? && Apply(w, call).Ok?
    ensures Unexplained(Step(w, call), t, h) == Unexplained(w, t, h)
  {
    TransferMoves(w.ledger, w.vault.config.usdc, VaultContract, call.node, w.vault.withdrawals[call.node].amount);
    CapitalAppended(w, call);
    VaultFlow(w, Step(w, call), call, Into(w.vault.config.usdc, t, h));
  }

  lemma {:induction false} VaultFlow(w: World, w': World, call: Call, f: Flow)
    requires !AuctionCall(call) && w'.ledger.log == w.ledger.log + CapitalEvents(w, call)
    ensures var es := CapitalEvents(w, call);
            Flowed(f, w'.ledger.log) == Flowed(f, w.ledger.log) + if es == [] then 0 else FlowIn(f, es[0])
  {
    CapitalFlow(w, call, f);
    FlowedAppend(f, w.ledger.log, CapitalEvents(w, call));
  }

  /** What one call sends outside the layer's own bookkeeping. */
  function Sends(w: World, call: Call, t: Address, h: Address): int {
    if call.SendTokens? && Apply(w, call).Ok? then Moved(call.token, call.from, call.to, call.amount, t, h) else 0
  }

  lemma SendMoves(w: World, call: Call, t: Address, h: Address)
    requires call.SendTokens? && Apply(w, call).Ok?
    ensures Unexplained(Step(w, call), t, h) == Unexplained(w, t, h) + Sends(w, call, t, h)
  {
    TransferMoves(w.ledger, call.token, call.from, call.to, call.amount);
  }

  lemma OtherCapitalMoves(w: World, call: Call, t: Address, h: Address)
    requires !AuctionCall(call) && !call.Deposit? && !call.ExecuteWithdrawal? && !call.SendTokens?
    requires Apply(w, call).Ok?
    ensures Unexplained(Step(w, call), t, h) == Unexplained(w, t, h)
  {
    CapitalAppended(w, call);
    NothingMoved(w, Step(w, call), CapitalEvents(w, call), t, h);
  }

  lemma CapitalMoves(w: World, call: Call, t: Address, h: Address)
    requires !AuctionCall(call) && Apply(w, call).Ok?
    ensures Unexplained(Step(w, call), t, h) == Unexplained(w, t, h) + Sends(w, call, t, h)
  {
    match call {
      case Deposit(_, _) => DepositMoves(w, call, t, h);
      case ExecuteWithdrawal(_) => WithdrawalMoves(w, call, t, h);
      case SendTokens(_, _, _, _) => SendMoves(w, call, t, h);
      case _ => OtherCapitalMoves(w, call, t, h);
    }
  }

  function Sent(w: World, calls: seq<Call>, t: Address, h: Address): int
    decreases |calls|
  {
    if calls == [] then 0 else Sends(w, calls[0], t, h) + Sent(Step(w, calls[0]), calls[1..], t, h)
  }

  lemma {:induction false} BalancesOverRuns(w: World, calls: seq<Call>, t: Address, h: Address)
    requires Inv(w)
    ensures Unexplained(Run(w, calls), t, h) == Unexplained(w, t, h) + Sent(w, calls, t, h)
    decreases |calls|
  {
    if calls != [] {
      StepKeeps(w, calls[0]);
      if Apply(w, calls[0]).Ok? {
        if AuctionCall(calls[0]) {
          CallMakes(w, calls[0]);
          ChangeMoves(w, Step(w, calls[0]), ChangeOf(w, calls[0]), t, h);
        } else {
          CapitalMoves(w, calls[0], t, h);
        }
      }
      BalancesOverRuns(Step(w, calls[0]), calls[1..], t, h);
    }
  }

  // ---- who was paid ----

  /** What the vault paid `h` on an asset (or on all): its proceeds, and the treasury's fees. */
  predicate PaidAs(log: seq<Event>, treasury: Address, on: Option<Address>, h: Address) {
    Flowed(PaidTo(on, h), log) == Flowed(NetTo(on, h), log) + if h == treasury then Flowed(FeesOn(on), log) else 0
  }

  lemma SalePays(w: World, w': World, x: Exit, on: Option<Address>, h: Address)
    requires Filled(w, w', x) && x.bestUsdc > 0 && Limits(w) && PaidAs(w.ledger.log, w.router.treasury, on, h)
    ensures PaidAs(w'.ledger.log, w'.router.treasury, on, h)
  {
    FeeBounds(x.bestUsdc, w.router.feeBps);
    FilledFlow(w, w', x, PaidTo(on, h));
    FilledFlow(w, w', x, NetTo(on, h));
    FilledFlow(w, w', x, FeesOn(on));
  }

  lemma {:induction false} QuietPay(w: World, w': World, es: seq<Event>, f: Flow)
    requires w'.ledger.log == w.ledger.log + es && (f.PaidTo? || f.NetTo? || f.FeesOn?)
    requires forall e :: e in es ==> !e.PaidOut? && !e.Settled?
    ensures Flowed(f, w'.ledger.log) == Flowed(f, w.ledger.log)
  {
    QuietFlow(w, w', es, f);
  }

  lemma {:induction false} NobodyPaid(w: World, w': World, es: seq<Event>, on: Option<Address>, h: Address)
    requires w'.ledger.log == w.ledger.log + es && w'.router.treasury == w.router.treasury
    requires forall e :: e in es ==> !e.PaidOut? && !e.Settled?
    requires PaidAs(w.ledger.log, w.router.treasury, on, h)
    ensures PaidAs(w'.ledger.log, w'.router.treasury, on, h)
  {
    QuietPay(w, w', es, PaidTo(on, h));
    QuietPay(w, w', es, NetTo(on, h));
    QuietPay(w, w', es, FeesOn(on));
  }

  lemma ChangePays(w: World, w': World, c: Change, on: Option<Address>, h: Address)
    requires Registry(w.auction) && Limits(w) && Made(w, w', c) && PaidAs(w.ledger.log, w.router.treasury, on, h)
    ensures PaidAs(w'.ledger.log, w'.router.treasury, on, h)
  {
    if c.Sells? {
      assert WellFormed(c.exit);
      SalePays(w, w', c.exit, on, h);
    } else {
      ChangeWrites(w, w', c);
      ChangeAppended(w, w', c);
      ChangeSpeaks(w, c);
      NobodyPaid(w, w', ChangeEvents(w, c), on, h);
    }
  }

  lemma {:induction false} PaysOverRuns(w: World, calls: seq<Call>, on: Option<Address>, h: Address)
    requires Inv(w) && PaidAs(w.ledger.log, w.router.treasury, on, h)
    ensures PaidAs(Run(w, calls).ledger.log, Run(w, calls).router.treasury, on, h)
    decreases |calls|
  {
    if calls != [] {
      StepKeeps(w, calls[0]);
      if Apply(w, calls[0]).Ok? {
        if AuctionCall(calls[0]) {
          CallMakes(w, calls[0]);
          ChangePays(w, Step(w, calls[0]), ChangeOf(w, calls[0]), on, h);
        } else {
          CapitalAppended(w, calls[0]);
          OtherCallsKeepExits(w, calls[0]);
          NobodyPaid(w, Step(w, calls[0]), CapitalEvents(w, calls[0]), on, h);
        }
      }
      PaysOverRuns(Step(w, calls[0]), calls[1..], on, h);
    }
  }

  lemma {:induction false} TreasuryFixed(w: World, calls: seq<Call>)
    requires Inv(w)
    ensures Run(w, calls).router.treasury == w.router.treasury && Run(w, calls).vault.config == w.vault.config
    decreases |calls|
  {
    if calls != [] {
      StepKeeps(w, calls[0]);
      SettingsFixed(w, calls[0]);
      TreasuryFixed(Step(w, calls[0]), calls[1..]);
    }
  }

  /**
   After any run from a fresh deployment: every balance is the initial one, plus what the events
   moved into it, plus what was sent outside the layer; and the vault has paid everybody their
   sales' proceeds, and the treasury the fees, no more and no less, on each asset and in all.
   */
  lemma {:induction false} EventsExplainTheMoney(w: World, calls: seq<Call>, t: Address, h: Address,
                                                 on: Option<Address>)
    requires Genesis(w)
    ensures var w' := Run(w, calls);
            && w'.ledger.Balance(t, h) == w.ledger.Balance(t, h)
                 + Flowed(Into(w.vault.config.usdc, t, h), w'.ledger.log) + Sent(w, calls, t, h)
            && PaidAs(w'.ledger.log, w.router.treasury, on, h)
  {
    GenesisHolds(w);
    BalancesOverRuns(w, calls, t, h);
    PaysOverRuns(w, calls, on, h);
    TreasuryFixed(w, calls);
  }

  /**
   After any run from a fresh deployment, for every node: deposits - withdrawals - filled is
   what the vault says it has, and what it filled is what left the vault in its name. Over the
   layer, sellers' proceeds plus treasury fees equal the sum of all settled bids, and everybody
   was paid theirs by the vault.
   */
  lemma {:induction false} EveryUsdcIsAccounted(w: World, calls: seq<Call>, n: Address, h: Address)
    requires Genesis(w)
    ensures var w' := Run(w, calls);
            var log := w'.ledger.log;
            && DepositOf(w'.vault, n)
                 == Flowed(DepositsBy(n), log) - Flowed(WithdrawalsBy(n), log) - FilledBy(w'.vault, n)
            && FilledBy(w'.vault, n) == Flowed(PayoutsBy(n), log) == Ledgered(SettledBids(n), w'.auction)
            && Flowed(NetToSellers, log) + Flowed(FeesToTreasury, log) == Ledgered(AllPaid, w'.auction)
            && PaidAs(log, w.router.treasury, None, h)
  {
    GenesisHolds(w);
    ReachableHolds(w, calls);
    TotalEmpty(AllPaid, w.auction.nextId);
    AccountsOverRuns(w, calls);
    assert NodeAccounted(Run(w, calls).vault, Run(w, calls).ledger.log, n);
    EventsExplainTheMoney(w, calls, w.vault.config.usdc, h, None);
  }
}
