/** What the snapshot says of each node is what the vault holds: who there is, their terms, their money. */
module MirrorNodes {
  import opened Ledger
  import opened LpVault
  import opened ExitAuction
  import opened Chain
  import opened Invariant
  import opened Effects
  import opened Changes
  import opened EventLog
  import opened Conservation
  import opened SnapshotRows

  /** What the vault paid out in the node's name since it last reported a total. */
  function PaidSince(log: seq<Event>, n: Address): int {
    if log == [] then 0
    else if (Last(log).Deposit? || Last(log).Withdraw?) && Last(log).node == n then 0
    else PaidSince(Init(log), n) + FlowIn(PayoutsBy(n), Last(log))
  }

  predicate ShowsBacking(r: NodeRow, v: VaultState, n: Address, asset: Address) {
    && (asset in r.appetites <==> (n, asset) in v.appetites)
    && (asset in r.appetites ==>
          var a := v.appetites[(n, asset)];
          r.appetites[asset] == Backing(a.maxExposure, a.minDiscountBps, a.active))
  }

  ghost predicate ShowsNode(log: seq<Event>, v: VaultState, n: Address) {
    && DepositOf(v, n) == NodeRowOf(log, n).depositedAtLastReport - PaidSince(log, n)
    && forall asset :: ShowsBacking(NodeRowOf(log, n), v, n, asset)
  }

  ghost predicate NodesMirrored(w: World) {
    && NodesSeen(w.ledger.log) == w.vault.nodes.Keys
    && forall n :: ShowsNode(w.ledger.log, w.vault, n)
  }

  /** The snapshot's payout total is the sum of the node's payouts in the log. */
  lemma {:induction false} PaidOutIsFlow(log: seq<Event>, n: Address)
    ensures NodeRowOf(log, n).usdcPaidOut == Flowed(PayoutsBy(n), log)
  {
    if log != [] {
      PaidOutIsFlow(Init(log), n);
    }
  }

  predicate Reports(e: Event) {
    e.Deposit? || e.Withdraw? || e.AppetiteSet?
  }

  lemma {:induction false} NodeIdle(log: seq<Event>, es: seq<Event>, n: Address)
    requires forall e :: e in es ==> !Reports(e)
    ensures NodeRowOf(log + es, n).appetites == NodeRowOf(log, n).appetites
    ensures NodeRowOf(log + es, n).depositedAtLastReport == NodeRowOf(log, n).depositedAtLastReport
    ensures PaidSince(log + es, n) == PaidSince(log, n) + Flowed(PayoutsBy(n), es)
  {
    if es == [] {
      assert log + es == log;
    } else {
      assert log + es == (log + Init(es)) + [Last(es)];
      NodeIdle(log, Init(es), n);
      NodeGrows(log + Init(es), Last(es), n);
      assert Last(es) in es && forall e :: e in Init(es) ==> e in es;
    }
  }

  lemma {:induction false} NodesSeenIdle(log: seq<Event>, es: seq<Event>)
    requires forall e :: e in es ==> NodesIn(e) <= NodesSeen(log)
    ensures NodesSeen(log + es) == NodesSeen(log)
  {
    if es == [] {
      assert log + es == log;
    } else {
      assert Init(log + es) == log + Init(es);
      NodesSeenIdle(log, Init(es));
    }
  }

  predicate SameBackings(v: VaultState, v': VaultState) {
    && v'.appetites.Keys == v.appetites.Keys
    && forall k :: k in v.appetites ==>
         v'.appetites[k] == v.appetites[k].(exposure := v'.appetites[k].exposure)
  }

  /** A call that reports no total and sets no terms, and pays out what its events say. */
  lemma {:induction false} QuietNodes(w: World, w': World, es: seq<Event>)
    requires NodesMirrored(w) && w'.ledger.log == w.ledger.log + es
    requires forall e :: e in es ==> !Reports(e) && NodesIn(e) <= w.vault.nodes.Keys
    requires w'.vault.nodes.Keys == w.vault.nodes.Keys && SameBackings(w.vault, w'.vault)
    requires forall n :: DepositOf(w'.vault, n) == DepositOf(w.vault, n) - Flowed(PayoutsBy(n), es)
    ensures NodesMirrored(w')
  {
    NodesSeenIdle(w.ledger.log, es);
    forall n
      ensures ShowsNode(w'.ledger.log, w'.vault, n)
    {
      assert ShowsNode(w.ledger.log, w.vault, n);
      NodeIdle(w.ledger.log, es, n);
      forall asset
        ensures ShowsBacking(NodeRowOf(w'.ledger.log, n), w'.vault, n, asset)
      {
        assert ShowsBacking(NodeRowOf(w.ledger.log, n), w.vault, n, asset);
      }
    }
  }

  lemma ChangeKeepsBackings(w: World, w': World, c: Change)
    requires Made(w, w', c)
    ensures SameBackings(w.vault, w'.vault) && w'.vault.nodes.Keys == w.vault.nodes.Keys
  {
  }

  /** A change names its bidder and the standing one, who both have a row, and reports no total. */
  lemma ChangeNodesIn(w: World, c: Change)
    requires Publishing(c)
    ensures forall e :: e in ChangeEvents(w, c) ==>
              !Reports(e) && NodesIn(e) <= (if c.Bids? then {c.node} else {})
                                           + (if c.exit.bestNode.Some? then {c.exit.bestNode.value} else {})
  {
  }

  /** A deposit falls by what the change pays out in its name. */
  lemma {:induction false} ChangePaysOut(w: World, w': World, c: Change, n: Address)
    requires Limits(w) && Made(w, w', c) && (c.Sells? ==> c.exit.bestUsdc > 0)
    ensures Publishing(c)
    ensures DepositOf(w'.vault, n) == DepositOf(w.vault, n) - Flowed(PayoutsBy(n), ChangeEvents(w, c))
  {
    ChangeAppended(w, w', c);
    if c.Sells? {
      PaidByFlow(w, c.exit, n);
      FillEventsFlow(w, c.exit, PayoutsBy(n));
    } else {
      ChangeKeepsAccounts(w, w', c, n);
      ChangeSpeaks(w, c);
      NoFlow(PayoutsBy(n), ChangeEvents(w, c));
    }
  }

  lemma ChangeNodes(w: World, w': World, c: Change)
    requires Registry(w.auction) && Books(w.auction, w.vault) && Solvent(w.vault) && Limits(w)
    requires NodesMirrored(w) && Made(w, w', c)
    ensures NodesMirrored(w')
  {
    if !c.Opens? && c.exit.bestNode.Some? {
      BidIsCommitted(w, c.exit.id);
    }
    ChangeAppended(w, w', c);
    ChangeKeepsBackings(w, w', c);
    ChangeNodesIn(w, c);
    forall n
      ensures DepositOf(w'.vault, n) == DepositOf(w.vault, n) - Flowed(PayoutsBy(n), ChangeEvents(w, c))
    {
      ChangePaysOut(w, w', c, n);
    }
    QuietNodes(w, w', ChangeEvents(w, c));
  }

  /** A call that changes nothing the snapshot keeps about nodes. */
  lemma UntouchedNodes(w: World, w': World, es: seq<Event>)
    requires NodesMirrored(w) && w'.ledger.log == w.ledger.log + es
    requires forall e :: e in es ==> !Reports(e) && !e.PaidOut? && NodesIn(e) <= w.vault.nodes.Keys
    requires w'.vault.nodes == w.vault.nodes && SameBackings(w.vault, w'.vault)
    ensures NodesMirrored(w')
  {
    forall n
      ensures Flowed(PayoutsBy(n), es) == 0
    {
      NoFlow(PayoutsBy(n), es);
    }
    QuietNodes(w, w', es);
  }

  lemma {:induction false} NodeGrows(log: seq<Event>, e: Event, n: Address)
    ensures NodeRowOf(log + [e], n) == NodeRead(NodeRowOf(log, n), n, e)
    ensures NodesSeen(log + [e]) == NodesSeen(log) + NodesIn(e)
    ensures PaidSince(log + [e], n) == if (e.Deposit? || e.Withdraw?) && e.node == n then 0
                                       else PaidSince(log, n) + FlowIn(PayoutsBy(n), e)
  {
    assert Init(log + [e]) == log;
  }

  /** A deposit or withdrawal reports the node's new total. */
  lemma ReportedNodes(w: World, w': World, e: Event, total: int)
    requires NodesMirrored(w) && w'.ledger.log == w.ledger.log + [e]
    requires (e.Deposit? || e.Withdraw?) && e.totalDeposited == total
    requires w'.vault.nodes.Keys == w.vault.nodes.Keys + {e.node} && w'.vault.appetites == w.vault.appetites
    requires forall n :: DepositOf(w'.vault, n) == if n == e.node then total else DepositOf(w.vault, n)
    ensures NodesMirrored(w')
  {
    forall n
      ensures ShowsNode(w'.ledger.log, w'.vault, n) && NodesSeen(w'.ledger.log) == w'.vault.nodes.Keys
    {
      assert ShowsNode(w.ledger.log, w.vault, n);
      NodeGrows(w.ledger.log, e, n);
      forall asset
        ensures ShowsBacking(NodeRowOf(w'.ledger.log, n), w'.vault, n, asset)
      {
        assert ShowsBacking(NodeRowOf(w.ledger.log, n), w.vault, n, asset);
      }
    }
  }

  lemma TermsSetNodes(w: World, w': World, e: Event)
    requires NodesMirrored(w) && w'.ledger.log == w.ledger.log + [e] && e.AppetiteSet? && e.node in w.vault.nodes
    requires w'.vault.nodes == w.vault.nodes
    requires w'.vault.appetites.Keys == w.vault.appetites.Keys + {(e.node, e.asset)}
    requires forall k :: k in w'.vault.appetites && k != (e.node, e.asset) ==>
              w'.vault.appetites[k] == w.vault.appetites[k]
    requires var a := w'.vault.appetites[(e.node, e.asset)];
             a.maxExposure == e.maxExposure && a.minDiscountBps == e.minDiscountBps && a.active == e.active
    ensures NodesMirrored(w')
  {
    forall n
      ensures ShowsNode(w'.ledger.log, w'.vault, n) && NodesSeen(w'.ledger.log) == w'.vault.nodes.Keys
    {
      assert ShowsNode(w.ledger.log, w.vault, n);
      NodeGrows(w.ledger.log, e, n);
      forall asset
        ensures ShowsBacking(NodeRowOf(w'.ledger.log, n), w'.vault, n, asset)
      {
        assert ShowsBacking(NodeRowOf(w.ledger.log, n), w.vault, n, asset);
        assert (n, asset) == (e.node, e.asset) <==> n == e.node && asset == e.asset;
      }
    }
  }

  lemma ReportNodes(w: World, call: Call)
    requires NodesMirrored(w) && Apply(w, call).Ok? && (call.Deposit? || call.ExecuteWithdrawal?)
    ensures NodesMirrored(Step(w, call))
  {
    var e := CapitalEvents(w, call)[0];
    ReportedNodes(w, Step(w, call), e, e.totalDeposited);
  }

  lemma AppetiteNodes(w: World, call: Call)
    requires NodesMirrored(w) && Apply(w, call).Ok? && call.SetAppetite?
    ensures NodesMirrored(Step(w, call))
  {
    TermsSetNodes(w, Step(w, call), CapitalEvents(w, call)[0]);
  }

  lemma QuietCapitalNodes(w: World, call: Call)
    requires Solvent(w.vault) && NodesMirrored(w) && Apply(w, call).Ok? && !AuctionCall(call)
    requires !call.Deposit? && !call.ExecuteWithdrawal? && !call.SetAppetite?
    ensures NodesMirrored(Step(w, call))
  {
    CapitalAppended(w, call);
    UntouchedNodes(w, Step(w, call), CapitalEvents(w, call));
  }

  lemma CapitalNodes(w: World, call: Call)
    requires Inv(w) && NodesMirrored(w) && Apply(w, call).Ok? && !AuctionCall(call)
    ensures NodesMirrored(Step(w, call))
  {
    match call {
      case Deposit(_, _) => ReportNodes(w, call);
      case ExecuteWithdrawal(_) => ReportNodes(w, call);
      case SetAppetite(_, _, _, _, _) => AppetiteNodes(w, call);
      case _ => QuietCapitalNodes(w, call);
    }
  }
}
