/**
 From the chain to the dashboard: an indexer that has caught up holds every event the contracts
 published, whatever crashes it went through, so the snapshot built from its log is the chain.
 */
module EndToEnd {
  import opened Ledger
  import opened ExitAuction
  import opened Chain
  import opened Totals
  import opened SnapshotRows
  import opened SnapshotBuild
  import opened SnapshotTheorems
  import I = Indexer
  import C = CrashSafety

  function RecordsOf(log: seq<I.Entry<Record>>): (records: seq<Record>)
    ensures |records| == |log|
    ensures forall i :: 0 <= i < |log| ==> records[i] == log[i].record
  {
    seq(|log|, i requires 0 <= i < |log| => log[i].record)
  }

  /** The history, from the start point on, is what the contracts published in this run. */
  ghost predicate Publishes(history: seq<I.Entry<Record>>, start: nat, w: World) {
    Trusted(RecordsOf(history[C.Origin(history, start)..])) == w.ledger.log
  }

  /** Nothing of the history lies beyond what the disk has covered. */
  ghost predicate CaughtUp(history: seq<I.Entry<Record>>, disk: I.Disk<Record>) {
    forall i :: 0 <= i < |history| ==> history[i].id <= C.Reach(disk)
  }

  lemma CaughtUpHoldsAll(history: seq<I.Entry<Record>>, start: nat, disk: I.Disk<Record>)
    requires C.Sorted(history) && C.Good(history, start, disk) && CaughtUp(history, disk)
    ensures disk.log == history[C.Origin(history, start)..]
  {
    var s := C.Origin(history, start);
    var m := s + |disk.log|;
    if m < |history| {
      C.BeyondReach(history, start, disk, m);
    }
  }

  lemma {:induction false} SnapshotOfAnIndexedRun(
    w0: World, calls: seq<Call>, history: seq<I.Entry<Record>>, start: nat,
    sessions: seq<C.Session<Record>>, s: Snapshot)
    requires Genesis(w0) && C.Sorted(history) && Publishes(history, start, Run(w0, calls))
    requires C.AllAccepted(history, start, I.Disk([], None), sessions)
    requires CaughtUp(history, C.Passes(I.Disk([], None), sessions))
    requires ShowsFinally(s, Trusted(RecordsOf(C.Passes(I.Disk([], None), sessions).log)))
    ensures AgreesOnExits(s, Run(w0, calls))
    ensures AgreesOnAssets(s, Run(w0, calls))
    ensures AgreesOnNodes(s, Run(w0, calls))
    ensures AgreesOnFees(s, Run(w0, calls)) && AgreesOnCounts(s, w0, calls)
    ensures s.usdcSettled == Ledgered(AllPaid, Run(w0, calls).auction)
  {
    var disk := C.Passes(I.Disk([], None), sessions);
    C.PassesKeep(history, start, I.Disk([], None), sessions);
    CaughtUpHoldsAll(history, start, disk);
    SnapshotShowsTheChain(w0, calls, s);
  }

  /** What the monitor does at the end of a pass: read the log back and build. */
  method Publish(
    m: I.Monitor<Record>, ghost w0: World, ghost calls: seq<Call>, ghost history: seq<I.Entry<Record>>,
    ghost start: nat)
    returns (s: Snapshot)
    requires Genesis(w0) && C.Sorted(history) && Publishes(history, start, Run(w0, calls))
    requires C.Good(history, start, m.Durable()) && CaughtUp(history, m.Durable())
    ensures AgreesOnExits(s, Run(w0, calls))
    ensures AgreesOnAssets(s, Run(w0, calls))
    ensures AgreesOnNodes(s, Run(w0, calls))
    ensures AgreesOnFees(s, Run(w0, calls)) && AgreesOnCounts(s, w0, calls)
  {
    CaughtUpHoldsAll(history, start, m.Durable());
    s := Build(RecordsOf(m.log));
    SnapshotShowsTheChain(w0, calls, s);
  }
}
