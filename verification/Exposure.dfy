/**
 A node's exposure to an asset over whole runs: what it bids, plus what it bought, less what
 it said it divested. The last is self-reported and unchecked, and decides whether the vault
 will let a standing bid go.
 */
module Exposure {
  import opened Ledger
  import opened LpVault
  import opened SettlementRouter
  import opened FifoQueue
  import opened ExitAuction
  import opened Totals
  import opened Chain
  import opened Invariant
  import opened Effects
  import opened Changes
  import opened Preservation
  import opened Reachable
  import opened SampleRun

  function OnBook(w: World, n: Address, asset: Address): int {
    Ledgered(LiveBidsOn(n, asset), w.auction) + Ledgered(SettledBidsOn(n, asset), w.auction)
  }

  /** What a call really takes off the node's exposure: a report is clamped at what is booked. */
  function Divests(w: World, call: Call, n: Address, asset: Address): int {
    if call.ReduceExposure? && call.node == n && call.asset == asset && Apply(w, call).Ok?
    then (if call.amount > ExposureOf(w.vault, n, asset) then ExposureOf(w.vault, n, asset) else call.amount)
    else 0
  }

  function Divested(w: World, calls: seq<Call>, n: Address, asset: Address): int
    decreases |calls|
  {
    if calls == [] then 0
    else Divests(w, calls[0], n, asset) + Divested(Step(w, calls[0]), calls[1..], n, asset)
  }

  /** What a change of one exit does to the node's book. */
  lemma BookAfter(w: World, w': World, c: Change, n: Address, asset: Address)
    requires Registry(w.auction) && Made(w, w', c)
    ensures OnBook(w', n, asset) == OnBook(w, n, asset)
              + Weight(LiveBidsOn(n, asset), After(c)) - WeightAt(LiveBidsOn(n, asset), w.auction.exits, c.exit.id)
              + Weight(SettledBidsOn(n, asset), After(c))
              - WeightAt(SettledBidsOn(n, asset), w.auction.exits, c.exit.id)
  {
    ChangeWrites(w, w', c);
    RecordedTotals(w.auction, w'.auction, After(c), LiveBidsOn(n, asset));
    RecordedTotals(w.auction, w'.auction, After(c), SettledBidsOn(n, asset));
  }

  function BidOn(x: Exit, n: Address, asset: Address): int {
    If(x.asset == asset && x.bestNode == Some(n), x.bestUsdc)
  }

  lemma ShiftExposure(v: VaultState, m: Address, a: Address, amount: int, n: Address, asset: Address)
    requires m in v.nodes && (m, a) in v.appetites
    ensures ExposureOf(v.Shift(m, a, amount), n, asset) == ExposureOf(v, n, asset) + If(m == n && a == asset, amount)
  {
  }

  lemma LetGoExposure(v: VaultState, x: Exit, n: Address, asset: Address)
    requires x.bestNode.Some? ==> x.bestNode.value in v.nodes && (x.bestNode.value, x.asset) in v.appetites
    ensures ExposureOf(LetGo(v, x), n, asset) == ExposureOf(v, n, asset) - BidOn(x, n, asset)
  {
  }

  /** The difference the ledger below is about. */
  function Gap(w: World, n: Address, asset: Address): int {
    ExposureOf(w.vault, n, asset) - OnBook(w, n, asset)
  }

  lemma ReportExposure(w: World, call: Call, n: Address, asset: Address)
    requires call.ReduceExposure? && Apply(w, call).Ok?
    ensures ExposureOf(Step(w, call).vault, n, asset) == ExposureOf(w.vault, n, asset) - Divests(w, call, n, asset)
  {
  }

  lemma OtherExposure(w: World, call: Call, n: Address, asset: Address)
    requires !AuctionCall(call) && (call.ReduceExposure? ==> Apply(w, call).Err?)
    ensures ExposureOf(Step(w, call).vault, n, asset) == ExposureOf(w.vault, n, asset)
  {
  }

  lemma TermsExposure(w: World, call: Call, n: Address, asset: Address)
    requires !AuctionCall(call)
    ensures Gap(Step(w, call), n, asset) == Gap(w, n, asset) - Divests(w, call, n, asset)
  {
    OtherCallsKeepExits(w, call);
    if call.ReduceExposure? && Apply(w, call).Ok? {
      ReportExposure(w, call, n, asset);
    } else {
      OtherExposure(w, call, n, asset);
    }
  }

  /** What it does to the exposure: a bid adds itself, and a displaced or cancelled one goes. */
  lemma ExposureAfter(w: World, w': World, c: Change, n: Address, asset: Address)
    requires Made(w, w', c)
    requires c.exit.bestNode.Some? ==>
               c.exit.bestNode.value in w.vault.nodes && (c.exit.bestNode.value, c.exit.asset) in w.vault.appetites
    ensures ExposureOf(w'.vault, n, asset) == ExposureOf(w.vault, n, asset)
              + (if c.Bids? && c.node == n && c.exit.asset == asset then c.usdc else 0)
              - If(c.Bids? || c.Drops?, BidOn(c.exit, n, asset))
  {
    match c {
      case Bids(x, node, usdc) =>
        ShiftExposure(w.vault, node, x.asset, usdc, n, asset);
        LetGoExposure(w.vault.Shift(node, x.asset, usdc), x, n, asset);
      case Drops(x) => LetGoExposure(w.vault, x, n, asset);
      case _ =>
    }
  }

  lemma ChangeExposure(w: World, w': World, c: Change, n: Address, asset: Address)
    requires Registry(w.auction) && Books(w.auction, w.vault) && Solvent(w.vault) && Made(w, w', c)
    ensures Gap(w', n, asset) == Gap(w, n, asset)
  {
    if !c.Opens? && c.exit.bestNode.Some? {
      BidIsCommitted(w, c.exit.id);
    }
    BookAfter(w, w', c, n, asset);
    ExposureAfter(w, w', c, n, asset);
  }

  /** One call changes exposure exactly as it changes the node's book, less what it divests. */
  lemma ExposureStep(w: World, call: Call, n: Address, asset: Address)
    requires Inv(w)
    ensures Gap(Step(w, call), n, asset) == Gap(w, n, asset) - Divests(w, call, n, asset)
  {
    if !AuctionCall(call) {
      TermsExposure(w, call, n, asset);
    } else {
      assert Divests(w, call, n, asset) == 0;
      if Apply(w, call).Ok? {
        CallMakes(w, call);
        ChangeExposure(w, Step(w, call), ChangeOf(w, call), n, asset);
      }
    }
  }

  lemma {:induction false} ExposureOverRuns(w: World, calls: seq<Call>, n: Address, asset: Address)
    requires Inv(w)
    ensures Gap(Run(w, calls), n, asset) == Gap(w, n, asset) - Divested(w, calls, n, asset)
    decreases |calls|
  {
    if calls != [] {
      StepKeeps(w, calls[0]);
      ExposureStep(w, calls[0], n, asset);
      ExposureOverRuns(Step(w, calls[0]), calls[1..], n, asset);
    }
  }

  /** From a fresh deployment: exposure = live bids + settled bids - divested, per node and asset. */
  lemma {:induction false} ExposureLedger(w: World, calls: seq<Call>, n: Address, asset: Address)
    requires Genesis(w)
    ensures ExposureOf(Run(w, calls).vault, n, asset)
         == Ledgered(LiveBidsOn(n, asset), Run(w, calls).auction)
            + Ledgered(SettledBidsOn(n, asset), Run(w, calls).auction)
            - Divested(w, calls, n, asset)
  {
    GenesisHolds(w);
    ExposureOverRuns(w, calls, n, asset);
    TotalEmpty(LiveBidsOn(n, asset), w.auction.nextId);
    TotalEmpty(SettledBidsOn(n, asset), w.auction.nextId);
  }

  /**
   Exactly when a seller's cancel goes through, read off the run: the bidder has divested no
   more than it holds on this asset besides the bid being released.
   */
  lemma {:induction false} CancelExactlyWhen(w0: World, calls: seq<Call>, id: nat, n: Address)
    requires Genesis(w0)
    requires var w := Run(w0, calls);
             id in w.auction.exits && w.auction.exits[id].Live() && w.auction.exits[id].bestNode == Some(n)
    ensures var w := Run(w0, calls);
            var x := w.auction.exits[id];
            w.Cancel(x.seller, id).Ok? <==>
              Divested(w0, calls, n, x.asset) <= Ledgered(SettledBidsOn(n, x.asset), w.auction)
                                                 + Ledgered(LiveBidsOn(n, x.asset), w.auction) - x.bestUsdc
  {
    ReachableHolds(w0, calls);
    var w := Run(w0, calls);
    var x := w.auction.exits[id];
    assert WellFormed(x);
    BidIsCommitted(w, id);
    ExposureLedger(w0, calls, n, x.asset);
    CancelEffect(w, x.seller, id);
  }

  /**
   While a node has reported no more divested than it really bought, the vault lets its
   standing bids go: the seller's cancel succeeds, and so does any bid that beats it and
   that its own bidder can back.
   */
  lemma {:induction false} HonestReportsNeverBlock(w0: World, calls: seq<Call>, id: nat)
    requires Genesis(w0)
    requires var w := Run(w0, calls);
             && id in w.auction.exits && w.auction.exits[id].Live()
             && forall n :: w.auction.exits[id].bestNode == Some(n) ==>
                  Divested(w0, calls, n, w.auction.exits[id].asset)
                    <= Ledgered(SettledBidsOn(n, w.auction.exits[id].asset), w.auction)
    ensures Releasable(Run(w0, calls).vault, Run(w0, calls).auction.exits[id])
    ensures Run(w0, calls).Cancel(Run(w0, calls).auction.exits[id].seller, id).Ok?
  {
    ReachableHolds(w0, calls);
    var w := Run(w0, calls);
    var x := w.auction.exits[id];
    assert WellFormed(x);
    if x.bestNode.Some? {
      var n := x.bestNode.value;
      ExposureLedger(w0, calls, n, x.asset);
      TotalAtLeast(LiveBidsOn(n, x.asset), w.auction.exits, w.auction.nextId, id);
    }
    CancelEffect(w, x.seller, id);
  }

  /** The bidder of a standing bid reports more divested than it has booked on the asset. */
  function OverReport(w: World, x: Exit): Call
    requires x.bestNode.Some? && x.bestNode.value.Party?
  {
    ReduceExposure(x.bestNode.value, x.asset, ExposureOf(w.vault, x.bestNode.value, x.asset) + 1)
  }

  /** Nothing is left booked, and nothing else is touched. */
  lemma NothingLeftBooked(w: World, x: Exit)
    requires Solvent(w.vault) && x.bestNode.Some? && x.bestNode.value.Party?
    requires (x.bestNode.value, x.asset) in w.vault.appetites
    ensures Apply(w, OverReport(w, x)).Ok?
    ensures ExposureOf(Step(w, OverReport(w, x)).vault, x.bestNode.value, x.asset) == 0
    ensures Step(w, OverReport(w, x)).auction == w.auction
  {
  }

  lemma NothingBookedRefuses(w: World, id: nat)
    requires Inv(w) && id in w.auction.exits && w.auction.exits[id].Live() && w.auction.exits[id].bestNode.Some?
    requires ExposureOf(w.vault, w.auction.exits[id].bestNode.value, w.auction.exits[id].asset) == 0
    ensures RefusesCancel(w, id)
  {
    assert WellFormed(w.auction.exits[id]);
    CancelEffect(w, w.auction.exits[id].seller, id);
  }

  /** The seller of a live exit cannot cancel it. */
  predicate RefusesCancel(w: World, id: nat) {
    && id in w.auction.exits && w.auction.exits[id].Live()
    && w.Cancel(w.auction.exits[id].seller, id) == Err(Error.Vault(CommitUnderflow))
  }

  /**
   The condition is needed. In any reachable state with a standing bid, its bidder can report
   everything divested while the bid is live; the seller's cancel is then refused.
   */
  lemma OverReportingBlocksCancel(w: World, id: nat)
    requires Inv(w) && id in w.auction.exits && w.auction.exits[id].Live() && w.auction.exits[id].bestNode.Some?
    ensures var x := w.auction.exits[id];
            && x.bestNode.value.Party?
            && Apply(w, OverReport(w, x)).Ok?
            && RefusesCancel(Step(w, OverReport(w, x)), id)
  {
    var x := w.auction.exits[id];
    assert WellFormed(x);
    BidIsCommitted(w, id);
    NothingLeftBooked(w, x);
    StepKeeps(w, OverReport(w, x));
    NothingBookedRefuses(Step(w, OverReport(w, x)), id);
  }

  /**
   Nor can anybody else take the exit over: no rival's bid, at any price, displaces one whose
   exposure its own bidder has reported away. `BidEffect` has the exact condition.
   */
  lemma OverReportingLocksOutRivals(w: World, id: nat, rival: User, usdc: int)
    requires Inv(w) && id in w.auction.exits && w.auction.exits[id].Live() && w.auction.exits[id].bestNode.Some?
    requires w.auction.exits[id].bestNode != Some(rival)
    ensures var x := w.auction.exits[id];
            && x.bestNode.value.Party?
            && Apply(w, OverReport(w, x)).Ok?
            && Step(w, OverReport(w, x)).PlaceBid(rival, id, usdc).Err?
  {
    var x := w.auction.exits[id];
    assert WellFormed(x);
    BidIsCommitted(w, id);
    NothingLeftBooked(w, x);
    StepKeeps(w, OverReport(w, x));
    BidEffect(Step(w, OverReport(w, x)), rival, id, usdc);
  }

  /** A higher bid that its node's records cover. */
  predicate Outbids(w: World, rival: Address, id: nat, usdc: int) {
    && TakesBids(w, id) && usdc > w.auction.exits[id].bestUsdc >= 0
    && var x := w.auction.exits[id];
       Backs(w.vault, w.ledger.now, rival, x.asset, usdc, DiscountBps(x.referenceUsdc, usdc))
  }

  /**
   Exactly when the highest gross bid wins, read off the run: a rival's higher and backed bid is
   taken if and only if the standing bidder has divested no more than it holds besides that bid.
   */
  lemma {:induction false} HighestBidWinsExactlyWhen(w0: World, calls: seq<Call>, id: nat, n: Address, rival: User,
                                                     usdc: int)
    requires Genesis(w0) && rival != n
    requires Outbids(Run(w0, calls), rival, id, usdc) && Run(w0, calls).auction.exits[id].bestNode == Some(n)
    ensures var w := Run(w0, calls);
            var x := w.auction.exits[id];
            w.PlaceBid(rival, id, usdc).Ok? <==>
              Divested(w0, calls, n, x.asset) <= Ledgered(SettledBidsOn(n, x.asset), w.auction)
                                                 + Ledgered(LiveBidsOn(n, x.asset), w.auction) - x.bestUsdc
  {
    var w := Run(w0, calls);
    ReachableHolds(w0, calls);
    BidIsCommitted(w, id);
    ExposureLedger(w0, calls, n, w.auction.exits[id].asset);
    BidEffect(w, rival, id, usdc);
  }

  // ---- a run in which it happens ----

  lemma {:induction false} OneReportLater(w0: World, calls: seq<Call>, id: nat)
    requires Genesis(w0) && id in Run(w0, calls).auction.exits
    requires var x := Run(w0, calls).auction.exits[id]; x.Live() && x.bestNode.Some? && x.bestNode.value.Party?
    ensures var report := OverReport(Run(w0, calls), Run(w0, calls).auction.exits[id]);
            RefusesCancel(Run(w0, calls + [report]), id)
  {
    var w := Run(w0, calls);
    ReachableHolds(w0, calls);
    OverReportingBlocksCancel(w, id);
    var report := OverReport(w, w.auction.exits[id]);
    RunConcat(w0, calls, [report]);
    assert Run(w, [report]) == Step(w, report);
  }

  /** Five calls lead from a fresh deployment to a standing bid; one report then blocks the cancel. */
  lemma CancelCanBeRefused()
    ensures Genesis(START)
    ensures exists report: Call :: report.ReduceExposure? && report.node == NODE
                                   && RefusesCancel(Run(START, BACKING + BIDDING + [report]), 1)
  {
    BidOnce();
    OneReportLater(START, BACKING + BIDDING, 1);
  }
}
