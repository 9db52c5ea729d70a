/** What a reader of a finished snapshot may conclude about the contracts, and what not. */
module SnapshotTheorems {
  import opened Ledger
  import opened LpVault
  import opened FifoQueue
  import opened ExitAuction
  import opened Totals
  import opened Chain
  import opened Invariant
  import opened Reachable
  import opened EventLog
  import opened Conservation
  import opened Payments
  import opened SampleRun
  import opened SnapshotRows
  import opened SnapshotBuild
  import opened Mirror
  import opened MirrorAssets
  import opened MirrorNodes
  import opened SnapshotRefines
  import opened Tallies
  import opened BidHistory
  import Prices

  lemma {:induction false} NothingFiltered(line: seq<nat>, log: seq<Event>, a: Address)
    requires forall id :: id in line ==> ExitRowOf(log, a, id).phase == Phase.Queued
    ensures Waiting(line, log, a) == line
  {
    if line != [] {
      NothingFiltered(line[1..], log, a);
    }
  }

  /** After any run, the snapshot's last filter removes nobody: the running line was already right. */
  lemma {:induction false} FilterIsANoOp(w: World, a: Address)
    requires Registry(w.auction) && Lines(w.auction, w.queue) && Mirrored(w)
    ensures LineIn(w.ledger.log, a) == AssetRowOf(w.ledger.log, a).queue == w.queue.Line(a)
  {
    var line := AssetRowOf(w.ledger.log, a).queue;
    assert ShowsAsset(AssetRowOf(w.ledger.log, a), w, a);
    forall id | id in line
      ensures ExitRowOf(w.ledger.log, a, id).phase == Phase.Queued
    {
      assert QueuedOn(w.auction, a, id);
      assert ShowsExit(ExitRowOf(w.ledger.log, w.auction.exits[id].asset, id), w.auction.exits[id]);
    }
    NothingFiltered(line, w.ledger.log, a);
  }

  // ---- what a finished snapshot shows ----

  ghost predicate AgreesOnExits(s: Snapshot, w: World) {
    && (forall asset, id: nat ::
          (asset, id) in s.exits <==> id in w.auction.exits && w.auction.exits[id].asset == asset)
    && (forall k :: k in s.exits ==>
          var x := w.auction.exits[k.1];
          && ShowsExit(s.exits[k], x)
          && (x.status == Status.Queued ==> s.exits[k].queuePosition == Some(IndexOf(w.queue.Line(k.0), k.1))))
  }

  ghost predicate AgreesOnAssets(s: Snapshot, w: World) {
    && (forall a :: w.queue.Line(a) == if a in s.assets then s.assets[a].queue else [])
    && (forall a :: ShowsAsset(if a in s.assets then s.assets[a] else BLANK_ASSET, w, a))
  }

  ghost predicate AgreesOnNodes(s: Snapshot, w: World) {
    && s.nodes.Keys == w.vault.nodes.Keys
    && (forall n :: n in s.nodes ==>
          && s.nodes[n].usdcPaidOut == w.vault.nodes[n].filled
          && w.vault.nodes[n].deposited == s.nodes[n].depositedAtLastReport - PaidSince(w.ledger.log, n)
          && forall a :: ShowsBacking(s.nodes[n], w.vault, n, a))
  }

  /** Fees shown for an asset are the protocol fees of its sales. */
  lemma {:induction false} FeesPaidIsFlow(log: seq<Event>, a: Address)
    ensures AssetRowOf(log, a).feesPaid == Flowed(FeesOn(Some(a)), log)
  {
    if log != [] {
      FeesPaidIsFlow(SnapshotRows.Init(log), a);
    }
  }

  /** USDC the vault paid the treasury on an asset (or on all) that were not its own proceeds. */
  function FeesReceived(w: World, on: Option<Address>): int {
    Flowed(PaidTo(on, w.router.treasury), w.ledger.log) - Flowed(NetTo(on, w.router.treasury), w.ledger.log)
  }

  /** The fees shown, in all and by asset, are what the treasury received from the vault. */
  ghost predicate AgreesOnFees(s: Snapshot, w: World) {
    && s.feesToTreasury == FeesReceived(w, None)
    && forall a :: a in s.assets ==> s.assets[a].feesPaid == FeesReceived(w, Some(a))
  }

  lemma {:induction false} FeesInAll(log: seq<Event>)
    ensures Flowed(FeesToTreasury, log) == Flowed(FeesOn(None), log)
  {
    if log != [] {
      FeesInAll(log[..|log| - 1]);
    }
  }

  lemma {:induction false} FeesAgree(w0: World, calls: seq<Call>, s: Snapshot)
    requires Genesis(w0) && ShowsFinally(s, Run(w0, calls).ledger.log)
    ensures AgreesOnFees(s, Run(w0, calls))
  {
    var w := Run(w0, calls);
    GenesisHolds(w0);
    TreasuryFixed(w0, calls);
    PaysOverRuns(w0, calls, None, w.router.treasury);
    FeesInAll(w.ledger.log);
    forall a | a in s.assets
      ensures s.assets[a].feesPaid == FeesReceived(w, Some(a))
    {
      PaysOverRuns(w0, calls, Some(a), w.router.treasury);
      FeesPaidIsFlow(w.ledger.log, a);
    }
  }

  // ---- counts of calls and quotes ----

  /** A node's counts: its own deposits and withdrawals, its quotes, those displaced, its purchases. */
  predicate CountsNode(r: NodeRow, w0: World, calls: seq<Call>, n: Address) {
    var w := Run(w0, calls);
    && r.deposits == CallsMade(w0, calls, Deposited(n))
    && r.withdrawals == CallsMade(w0, calls, Withdrawn(n))
    && r.bidsPlaced == SumTo(QuotesBy(w.ledger.log, n), w.auction.nextId)
    && r.bidsOutbid == SumTo(OutbidOn(w.ledger.log, n), w.auction.nextId)
    && r.fillsWon == Ledgered(WonBy(n), w.auction)
  }

  predicate CountsAsset(r: AssetRow, w0: World, calls: seq<Call>, a: Address) {
    r.bids == CallsMade(w0, calls, BidsOn(a)) && r.queued == CallsMade(w0, calls, JoinedOn(a))
  }

  /** An exit's bids, the last of them, and a sale at the fee rate that was in force. */
  predicate CountsExit(r: ExitRow, w0: World, calls: seq<Call>, id: nat)
    requires id in Run(w0, calls).auction.exits
  {
    var w := Run(w0, calls);
    var x := w.auction.exits[id];
    && ShowsQuotes(r, x.referenceUsdc, QuotesOn(w.ledger.log, id))
    && (x.status == Status.Settled ==>
          x.bestNode.Some? && r.settlement == Some(SaleOf(x, RateAtSale(w0, calls, id))))
  }

  ghost predicate AgreesOnCounts(s: Snapshot, w0: World, calls: seq<Call>) {
    && (forall n :: n in s.nodes ==> CountsNode(s.nodes[n], w0, calls, n))
    && (forall a :: a in s.assets ==> CountsAsset(s.assets[a], w0, calls, a))
    && (forall k :: k in s.exits ==>
          k.1 in Run(w0, calls).auction.exits && CountsExit(s.exits[k], w0, calls, k.1))
  }

  lemma {:induction false} NodeIsCounted(w0: World, calls: seq<Call>, n: Address)
    requires Genesis(w0)
    ensures CountsNode(NodeRowOf(Run(w0, calls).ledger.log, n), w0, calls, n)
  {
    var w := Run(w0, calls);
    Prices.PricedFromGenesis(w0, calls);
    GenesisHolds(w0);
    ToldFromGenesis(w0, calls);
    RowCountsQuotes(w.auction, w.ledger.log, n);
    NodeRowTallies(w.ledger.log, n);
    TalliesCountCalls(w0, calls, Deposited(n));
    TalliesCountCalls(w0, calls, Withdrawn(n));
    TalliesCountCalls(w0, calls, Won(n));
    TotalEmpty(WonBy(n), w0.auction.nextId);
    WonOverRuns(w0, calls, n);
  }

  lemma {:induction false} AssetIsCounted(w0: World, calls: seq<Call>, a: Address)
    requires Genesis(w0)
    ensures CountsAsset(AssetRowOf(Run(w0, calls).ledger.log, a), w0, calls, a)
  {
    GenesisHolds(w0);
    AssetRowTallies(Run(w0, calls).ledger.log, a);
    TalliesCountCalls(w0, calls, BidsOn(a));
    TalliesCountCalls(w0, calls, JoinedOn(a));
  }

  lemma {:induction false} ExitIsCounted(w0: World, calls: seq<Call>, id: nat)
    requires Genesis(w0) && id in Run(w0, calls).auction.exits
    ensures CountsExit(ExitRowOf(Run(w0, calls).ledger.log, Run(w0, calls).auction.exits[id].asset, id), w0, calls, id)
  {
    GenesisHolds(w0);
    ToldFromGenesis(w0, calls);
    RowShowsQuotes(Run(w0, calls).auction, Run(w0, calls).ledger.log, id);
    SoldAtTheRate(w0, calls, id);
  }

  lemma {:induction false} ToldFromGenesis(w0: World, calls: seq<Call>)
    requires Genesis(w0)
    ensures AllToldRight(Run(w0, calls).auction, Run(w0, calls).ledger.log)
  {
    GenesisHolds(w0);
    Prices.PricedFromGenesis(w0, []);
    ToldOverRuns(w0, calls);
  }

  lemma {:induction false} CountsAgreeWithRun(w0: World, calls: seq<Call>, s: Snapshot)
    requires Genesis(w0) && ShowsFinally(s, Run(w0, calls).ledger.log)
    requires AgreesOnExits(s, Run(w0, calls))
    ensures AgreesOnCounts(s, w0, calls)
  {
    forall n | n in s.nodes
      ensures CountsNode(s.nodes[n], w0, calls, n)
    {
      NodeIsCounted(w0, calls, n);
    }
    forall a | a in s.assets
      ensures CountsAsset(s.assets[a], w0, calls, a)
    {
      AssetIsCounted(w0, calls, a);
    }
    forall k | k in s.exits
      ensures k.1 in Run(w0, calls).auction.exits && CountsExit(s.exits[k], w0, calls, k.1)
    {
      assert k == (k.0, k.1);
      ExitIsCounted(w0, calls, k.1);
    }
  }

  /**
   Rebuilding from the log of any run gives back the chain: every exit's status and standing
   bid, every line in order, every node with its terms and payouts, and the fees the treasury
   received; and every count is the number of calls, quotes or exits it stands for. The transient
   phases unknown, left-queue and refunded never survive to a boundary between calls.
   */
  lemma {:induction false} SnapshotShowsTheChain(w0: World, calls: seq<Call>, s: Snapshot)
    requires Genesis(w0) && ShowsFinally(s, Run(w0, calls).ledger.log)
    ensures AgreesOnExits(s, Run(w0, calls))
    ensures AgreesOnAssets(s, Run(w0, calls))
    ensures AgreesOnNodes(s, Run(w0, calls))
    ensures AgreesOnFees(s, Run(w0, calls))
    ensures AgreesOnCounts(s, w0, calls)
    ensures s.usdcSettled == Ledgered(AllPaid, Run(w0, calls).auction)
    ensures forall k :: k in s.exits ==> s.exits[k].phase !in {Phase.Unknown, Phase.LeftQueue, Phase.Refunded}
  {
    RunIsMirrored(w0, calls);
    FeesAgree(w0, calls, s);
    var w := Run(w0, calls);
    ExitsAgree(w, s);
    NoTransientPhase(w, s);
    AssetsAgree(w, s);
    NodesAgree(w, s);
    CountsAgreeWithRun(w0, calls, s);
  }

  lemma {:induction false} RunIsMirrored(w0: World, calls: seq<Call>)
    requires Genesis(w0)
    ensures Inv(Run(w0, calls)) && Mirrored(Run(w0, calls)) && Accounted(Run(w0, calls))
  {
    GenesisHolds(w0);
    GenesisMirrored(w0);
    RunKeeps(w0, calls);
    MirrorOverRuns(w0, calls);
    AccountsOverRuns(w0, calls);
  }

  lemma ExitsAgree(w: World, s: Snapshot)
    requires Inv(w) && Mirrored(w) && ShowsFinally(s, w.ledger.log)
    ensures AgreesOnExits(s, w)
  {
    ExitKeys(w, s);
    forall k | k in s.exits
      ensures k.1 in w.auction.exits && w.auction.exits[k.1].asset == k.0
      ensures ShowsExit(s.exits[k], w.auction.exits[k.1])
      ensures w.auction.exits[k.1].status == Status.Queued ==>
                s.exits[k].queuePosition == Some(IndexOf(w.queue.Line(k.0), k.1))
    {
      assert k == (k.0, k.1);
      ExitAgrees(w, s, k.0, k.1);
    }
  }

  lemma ExitKeys(w: World, s: Snapshot)
    requires Mirrored(w) && ShowsFinally(s, w.ledger.log)
    ensures forall asset, id: nat ::
              (asset, id) in s.exits <==> id in w.auction.exits && w.auction.exits[id].asset == asset
  {
  }

  lemma NoTransientPhase(w: World, s: Snapshot)
    requires AgreesOnExits(s, w)
    ensures forall k :: k in s.exits ==> s.exits[k].phase !in {Phase.Unknown, Phase.LeftQueue, Phase.Refunded}
  {
  }

  lemma {:induction false} ExitAgrees(w: World, s: Snapshot, asset: Address, id: nat)
    requires Registry(w.auction) && Lines(w.auction, w.queue) && Mirrored(w)
    requires ShowsFinally(s, w.ledger.log) && (asset, id) in s.exits
    ensures id in w.auction.exits && w.auction.exits[id].asset == asset
    ensures ShowsExit(s.exits[(asset, id)], w.auction.exits[id])
    ensures w.auction.exits[id].status == Status.Queued ==>
              s.exits[(asset, id)].queuePosition == Some(IndexOf(w.queue.Line(asset), id))
  {
    FilterIsANoOp(w, asset);
    InItsLine(w, w.auction.exits[id]);
  }

  lemma AssetsAgree(w: World, s: Snapshot)
    requires Inv(w) && Mirrored(w) && ShowsFinally(s, w.ledger.log)
    ensures AgreesOnAssets(s, w)
  {
    UnseenAreBlank(w.ledger.log);
    forall a
      ensures w.queue.Line(a) == if a in s.assets then s.assets[a].queue else []
      ensures ShowsAsset(if a in s.assets then s.assets[a] else BLANK_ASSET, w, a)
    {
      FilterIsANoOp(w, a);
      assert ShowsAsset(AssetRowOf(w.ledger.log, a), w, a);
    }
  }

  lemma NodesAgree(w: World, s: Snapshot)
    requires Inv(w) && Mirrored(w) && Accounted(w) && ShowsFinally(s, w.ledger.log)
    ensures AgreesOnNodes(s, w)
  {
    forall n | n in s.nodes
      ensures s.nodes[n].usdcPaidOut == w.vault.nodes[n].filled
      ensures w.vault.nodes[n].deposited == s.nodes[n].depositedAtLastReport - PaidSince(w.ledger.log, n)
      ensures forall a :: ShowsBacking(s.nodes[n], w.vault, n, a)
    {
      PaidOutIsFlow(w.ledger.log, n);
      assert ShowsNode(w.ledger.log, w.vault, n);
      assert NodeAccounted(w.vault, w.ledger.log, n);
    }
  }

  // ---- counts ----

  function WithPhase(s: Snapshot, status: Status, bound: nat): set<(Address, nat)> {
    set k | k in s.exits && k.1 < bound && s.exits[k].phase == PhaseOf(status)
  }

  lemma OneMoreId(w: World, s: Snapshot, status: Status, id: nat)
    requires AgreesOnExits(s, w)
    ensures WithPhase(s, status, id + 1) == WithPhase(s, status, id)
              + if id in w.auction.exits && w.auction.exits[id].status == status
                then {(w.auction.exits[id].asset, id)} else {}
  {
    forall k | k in WithPhase(s, status, id + 1) && k.1 == id
      ensures id in w.auction.exits && w.auction.exits[id].status == status && k == (w.auction.exits[id].asset, id)
    {
      assert k == (k.0, k.1);
    }
  }

  lemma {:induction false} CountsAgree(w: World, s: Snapshot, status: Status, bound: nat)
    requires AgreesOnExits(s, w)
    ensures |WithPhase(s, status, bound)| == Total(AllWith(status), w.auction.exits, bound)
  {
    if bound > 0 {
      CountsAgree(w, s, status, bound - 1);
      OneMoreId(w, s, status, bound - 1);
    }
  }

  /** The snapshot's counts of open, queued and settled exits are the chain's. */
  lemma {:induction false} ProtocolCounts(w0: World, calls: seq<Call>, s: Snapshot, status: Status)
    requires Genesis(w0) && ShowsFinally(s, Run(w0, calls).ledger.log)
    ensures |set k | k in s.exits && s.exits[k].phase == PhaseOf(status)|
         == Ledgered(AllWith(status), Run(w0, calls).auction)
  {
    SnapshotShowsTheChain(w0, calls, s);
    RunIsMirrored(w0, calls);
    CountsAreLedgered(Run(w0, calls), s, status);
  }

  lemma CountsAreLedgered(w: World, s: Snapshot, status: Status)
    requires Registry(w.auction) && AgreesOnExits(s, w)
    ensures |set k | k in s.exits && s.exits[k].phase == PhaseOf(status)| == Ledgered(AllWith(status), w.auction)
  {
    CountsAgree(w, s, status, w.auction.nextId);
    assert (set k | k in s.exits && s.exits[k].phase == PhaseOf(status)) == WithPhase(s, status, w.auction.nextId) by {
      assert forall k :: k in s.exits ==> k == (k.0, k.1) && k.1 in w.auction.exits;
    }
  }

  // ---- payouts, by node and in all ----

  ghost function PaidPerNode(nodes: set<Address>, exits: map<nat, Exit>, bound: nat): map<Address, int> {
    map n | n in nodes :: Total(SettledBids(n), exits, bound)
  }

  lemma {:induction false} SumOfZeros(m: map<Address, int>)
    requires forall k :: k in m ==> m[k] == 0
    ensures Sum(m) == 0
    decreases |m|
  {
    if m != map[] {
      SumOfZeros(m - {Pick(m)});
    }
  }

  /** Every settled bid is some node's: adding up by node or by exit gives the same. */
  lemma {:induction false} PaidByWhom(nodes: set<Address>, exits: map<nat, Exit>, bound: nat)
    requires forall id :: id in exits && exits[id].status == Status.Settled ==>
               exits[id].bestNode.Some? && exits[id].bestNode.value in nodes
    ensures Sum(PaidPerNode(nodes, exits, bound)) == Total(AllPaid, exits, bound)
  {
    if bound == 0 {
      SumOfZeros(PaidPerNode(nodes, exits, 0));
    } else {
      var id := bound - 1;
      PaidByWhom(nodes, exits, id);
      if id in exits && exits[id].status == Status.Settled {
        OneMorePaid(nodes, exits, id);
      } else {
        NoMorePaid(nodes, exits, id);
      }
    }
  }

  lemma NoMorePaid(nodes: set<Address>, exits: map<nat, Exit>, id: nat)
    requires id in exits ==> exits[id].status != Status.Settled
    ensures PaidPerNode(nodes, exits, id + 1) == PaidPerNode(nodes, exits, id)
    ensures Total(AllPaid, exits, id + 1) == Total(AllPaid, exits, id)
  {
  }

  lemma OneMorePaid(nodes: set<Address>, exits: map<nat, Exit>, id: nat)
    requires id in exits && exits[id].status == Status.Settled
    requires exits[id].bestNode.Some? && exits[id].bestNode.value in nodes
    ensures Sum(PaidPerNode(nodes, exits, id + 1)) == Sum(PaidPerNode(nodes, exits, id)) + exits[id].bestUsdc
  {
    var m, n := PaidPerNode(nodes, exits, id), exits[id].bestNode.value;
    SumSet(m, n, m[n] + exits[id].bestUsdc);
    assert PaidPerNode(nodes, exits, id + 1) == m[n := m[n] + exits[id].bestUsdc];
  }

  ghost function PayoutsShown(s: Snapshot): map<Address, int> {
    map n | n in s.nodes :: s.nodes[n].usdcPaidOut
  }

  function FilledPerNode(v: VaultState): map<Address, int> {
    map n | n in v.nodes :: v.nodes[n].filled
  }

  lemma FilledAddsUp(w: World)
    requires Inv(w)
    ensures Sum(FilledPerNode(w.vault)) == Ledgered(AllPaid, w.auction)
  {
    BidderIsNode(w);
    PaidByWhom(w.vault.nodes.Keys, w.auction.exits, w.auction.nextId);
    forall n | n in w.vault.nodes
      ensures FilledPerNode(w.vault)[n] == Total(SettledBids(n), w.auction.exits, w.auction.nextId)
    {
      assert FilledBy(w.vault, n) == Ledgered(SettledBids(n), w.auction);
    }
    assert FilledPerNode(w.vault) == PaidPerNode(w.vault.nodes.Keys, w.auction.exits, w.auction.nextId);
  }

  /** The protocol's settled volume is the sum of the nodes' payouts, in the snapshot and on chain. */
  lemma {:induction false} VolumeIsTheSumOfPayouts(w0: World, calls: seq<Call>, s: Snapshot)
    requires Genesis(w0) && ShowsFinally(s, Run(w0, calls).ledger.log)
    ensures s.usdcSettled == Sum(PayoutsShown(s)) == Sum(FilledPerNode(Run(w0, calls).vault))
    ensures PayoutsShown(s) == FilledPerNode(Run(w0, calls).vault)
  {
    SnapshotShowsTheChain(w0, calls, s);
    SamePayouts(Run(w0, calls), s);
    ReachableHolds(w0, calls);
    FilledAddsUp(Run(w0, calls));
  }

  lemma SamePayouts(w: World, s: Snapshot)
    requires AgreesOnNodes(s, w)
    ensures PayoutsShown(s) == FilledPerNode(w.vault)
  {
  }

  lemma BidderIsNode(w: World)
    requires Inv(w)
    ensures forall id :: id in w.auction.exits && w.auction.exits[id].status == Status.Settled ==>
              w.auction.exits[id].bestNode.Some? && w.auction.exits[id].bestNode.value in w.vault.nodes.Keys
  {
    forall id | id in w.auction.exits && w.auction.exits[id].status == Status.Settled
      ensures w.auction.exits[id].bestNode.Some? && w.auction.exits[id].bestNode.value in w.vault.nodes.Keys
    {
      var x := w.auction.exits[id];
      assert WellFormed(x);
      assert (x.bestNode.value, x.asset) in w.vault.appetites;
    }
  }

  // ---- the documented rule for a node's balance ----

  /**
   The documentation says a node's deposit is its last reported total less all it paid out.
   That holds exactly when nothing was paid out before that report.
   */
  lemma {:induction false} DocumentedBalanceExactlyWhen(w0: World, calls: seq<Call>, s: Snapshot, n: Address)
    requires Genesis(w0) && ShowsFinally(s, Run(w0, calls).ledger.log) && n in s.nodes
    ensures s.nodes[n].depositedAtLastReport - s.nodes[n].usdcPaidOut == DepositOf(Run(w0, calls).vault, n)
       <==> PaidBeforeReport(Run(w0, calls).ledger.log, n) == 0
  {
    RunIsMirrored(w0, calls);
    NodesAgree(Run(w0, calls), s);
    RuleReads(Run(w0, calls), s, n);
  }

  /** The rule is off by what was paid before the last report. */
  lemma {:induction false} RuleReads(w: World, s: Snapshot, n: Address)
    requires AgreesOnNodes(s, w) && Accounted(w) && n in s.nodes
    ensures s.nodes[n].depositedAtLastReport - s.nodes[n].usdcPaidOut
         == DepositOf(w.vault, n) - PaidBeforeReport(w.ledger.log, n)
  {
    PaidInTwoParts(w.ledger.log, n);
    assert NodeAccounted(w.vault, w.ledger.log, n);
  }

  /** What the vault had paid out in the node's name when it last reported a total. */
  function PaidBeforeReport(log: seq<Event>, n: Address): int {
    if log == [] then 0
    else if (SnapshotRows.Last(log).Deposit? || SnapshotRows.Last(log).Withdraw?) && SnapshotRows.Last(log).node == n
    then Flowed(PayoutsBy(n), log)
    else PaidBeforeReport(SnapshotRows.Init(log), n)
  }

  lemma {:induction false} PaidInTwoParts(log: seq<Event>, n: Address)
    ensures Flowed(PayoutsBy(n), log) == PaidBeforeReport(log, n) + PaidSince(log, n)
  {
    if log != [] {
      PaidInTwoParts(SnapshotRows.Init(log), n);
    }
  }

  /** It fails after every fill followed by another deposit, and by exactly what had been filled. */
  lemma {:induction false} DocumentedBalanceReadsLow(w0: World, calls: seq<Call>, n: User, amount: int, s: Snapshot)
    requires Genesis(w0)
    requires var w := Run(w0, calls);
             && n in w.vault.nodes && w.vault.nodes[n].filled > 0
             && Apply(w, Call.Deposit(n, amount)).Ok?
             && ShowsFinally(s, Step(w, Call.Deposit(n, amount)).ledger.log)
    ensures var w := Run(w0, calls);
            var w' := Step(w, Call.Deposit(n, amount));
            n in s.nodes &&
            s.nodes[n].depositedAtLastReport - s.nodes[n].usdcPaidOut
              == w'.vault.nodes[n].deposited - w.vault.nodes[n].filled < w'.vault.nodes[n].deposited
  {
    var w := Run(w0, calls);
    var call := Call.Deposit(n, amount);
    RunConcat(w0, calls, [call]);
    assert Run(w0, calls + [call]) == Step(w, call);
    SnapshotShowsTheChain(w0, calls + [call], s);
    RunIsMirrored(w0, calls + [call]);
    DepositReportsTotal(w, n, amount);
  }

  /** One sale and one more deposit: the rule reads 1900 where the vault has 1950. */
  lemma DocumentedBalanceOnce(s: Snapshot)
    requires var calls := BACKING + BIDDING + [AcceptBid(SELLER, 1)];
             ShowsFinally(s, Step(Run(START, calls), Call.Deposit(NODE, 1000)).ledger.log)
    ensures var calls := BACKING + BIDDING + [AcceptBid(SELLER, 1)];
            && Genesis(START)
            && DepositOf(Step(Run(START, calls), Call.Deposit(NODE, 1000)).vault, NODE) == 1950
            && NODE in s.nodes && s.nodes[NODE].depositedAtLastReport - s.nodes[NODE].usdcPaidOut == 1900
  {
    SoldOnce();
    DocumentedBalanceReadsLow(START, BACKING + BIDDING + [AcceptBid(SELLER, 1)], NODE, 1000, s);
  }

  /** A deposit reports the new total, and leaves what the node has filled alone. */
  lemma {:induction false} DepositReportsTotal(w: World, n: User, amount: int)
    requires n in w.vault.nodes && Apply(w, Call.Deposit(n, amount)).Ok?
    ensures var w' := Step(w, Call.Deposit(n, amount));
            && n in w'.vault.nodes && w'.vault.nodes[n].filled == w.vault.nodes[n].filled
            && NodeRowOf(w'.ledger.log, n).depositedAtLastReport == w'.vault.nodes[n].deposited
  {
    var call := Call.Deposit(n, amount);
    CapitalAppended(w, call);
    NodeGrows(w.ledger.log, CapitalEvents(w, call)[0], n);
  }
}
