/** The snapshot's second loop, and the whole build. */
module SnapshotBuild {
  import opened Ledger
  import opened FifoQueue
  import opened EventLog
  import opened SnapshotRows

  datatype Snapshot = Snapshot(
    nodes: map<Address, NodeRow>,
    assets: map<Address, AssetRow>,
    exits: map<(Address, nat), ExitRow>,
    usdcSettled: int,
    feesToTreasury: int,
    flagged: nat)

  /** The places of a line whose exit the log leaves queued. */
  function Waiting(line: seq<nat>, log: seq<Event>, a: Address): seq<nat> {
    if line == [] then []
    else (if ExitRowOf(log, a, line[0]).phase == Phase.Queued then [line[0]] else []) + Waiting(line[1..], log, a)
  }

  function LineIn(log: seq<Event>, a: Address): seq<nat> {
    Waiting(AssetRowOf(log, a).queue, log, a)
  }

  function Placed(x: ExitRow, line: seq<nat>, id: nat): ExitRow {
    if id in line then x.(queuePosition := Some(IndexOf(line, id))) else x
  }

  lemma {:induction false} RemovedDistinct(line: seq<nat>, id: nat)
    requires Distinct(line)
    ensures Distinct(Removed(line, id))
  {
    if line != [] {
      RemovedDistinct(line[1..], id);
      assert line[0] !in line[1..];
    }
  }

  lemma {:induction false} WaitingDistinct(line: seq<nat>, log: seq<Event>, a: Address)
    requires Distinct(line)
    ensures Distinct(Waiting(line, log, a))
    ensures forall id :: id in Waiting(line, log, a) ==> id in line && ExitRowOf(log, a, id).phase == Phase.Queued
  {
    if line != [] {
      WaitingDistinct(line[1..], log, a);
    }
  }

  /** The running line never lists an exit twice, whatever the log says. */
  lemma {:induction false} RunningLineDistinct(log: seq<Event>, a: Address)
    ensures Distinct(AssetRowOf(log, a).queue)
  {
    if log != [] {
      var before := AssetRowOf(Init(log), a).queue;
      RunningLineDistinct(Init(log), a);
      if Last(log).Dequeued? {
        RemovedDistinct(before, Last(log).exitId);
      }
    }
  }

  lemma {:induction false} WaitingStep(line: seq<nat>, i: nat, log: seq<Event>, a: Address)
    requires i < |line|
    ensures Waiting(line[i..], log, a)
         == (if ExitRowOf(log, a, line[i]).phase == Phase.Queued then [line[i]] else [])
            + Waiting(line[i + 1..], log, a)
  {
    assert line[i..][1..] == line[i + 1..];
  }

  /** The next place is either dropped or moves to the end of those kept. */
  lemma {:induction false} WaitingMoves(kept: seq<nat>, line: seq<nat>, i: nat, log: seq<Event>, a: Address)
    requires i < |line|
    ensures kept + Waiting(line[i..], log, a)
         == (if ExitRowOf(log, a, line[i]).phase == Phase.Queued then kept + [line[i]] else kept)
            + Waiting(line[i + 1..], log, a)
  {
    WaitingStep(line, i, log, a);
  }

  /** Keeps the places whose exit row says queued, in order. */
  method FilterLine(line: seq<nat>, exits: map<(Address, nat), ExitRow>, a: Address, ghost log: seq<Event>)
    returns (kept: seq<nat>)
    requires forall id: nat :: ((a, id) in exits && exits[(a, id)].phase == Phase.Queued)
                               <==> ExitRowOf(log, a, id).phase == Phase.Queued
    ensures kept == Waiting(line, log, a)
  {
    kept := [];
    for i := 0 to |line|
      invariant kept + Waiting(line[i..], log, a) == Waiting(line, log, a)
    {
      WaitingMoves(kept, line, i, log, a);
      if (a, line[i]) in exits && exits[(a, line[i])].phase == Phase.Queued {
        kept := kept + [line[i]];
      }
    }
    assert line[|line|..] == [];
  }

  /** Writes each place of one asset's line into its exit's row. */
  method PlaceLine(exits: map<(Address, nat), ExitRow>, line: seq<nat>, a: Address)
    returns (placed: map<(Address, nat), ExitRow>)
    requires Distinct(line)
    ensures placed.Keys == exits.Keys
    ensures forall k :: k in exits ==> placed[k] == if k.0 == a then Placed(exits[k], line, k.1) else exits[k]
  {
    placed := exits;
    for i := 0 to |line|
      invariant placed.Keys == exits.Keys
      invariant forall k :: k in exits && k.0 != a ==> placed[k] == exits[k]
      invariant forall k :: k in exits && k.0 == a && k.1 !in line[..i] ==> placed[k] == exits[k]
      invariant forall j :: 0 <= j < i && (a, line[j]) in exits ==>
                  placed[(a, line[j])] == exits[(a, line[j])].(queuePosition := Some(j))
    {
      assert line[..i + 1] == line[..i] + [line[i]];
      if (a, line[i]) in placed {
        placed := placed[(a, line[i]) := placed[(a, line[i])].(queuePosition := Some(i))];
      }
    }
    assert line[..|line|] == line;
    forall k | k in exits && k.0 == a && k.1 in line
      ensures placed[k] == Placed(exits[k], line, k.1)
    {
      assert k == (a, line[IndexOf(line, k.1)]);
    }
  }

  /** The whole build: both loops, over all records. */
  method Build(records: seq<Record>) returns (s: Snapshot)
    ensures ShowsFinally(s, Trusted(records))
    ensures s.flagged == FlaggedIn(records)
  {
    var b := new Builder();
    for i := 0 to |records|
      invariant fresh(b) && b.Shows(Trusted(records[..i])) && b.flagged == FlaggedIn(records[..i])
    {
      assert records[..i + 1][..i] == records[..i];
      b.Read(records[i], Trusted(records[..i]));
    }
    assert records[..|records|] == records;
    s := RederiveLines(b, Trusted(records));
  }

  /** What a finished snapshot of the trusted events `log` holds. */
  ghost predicate ShowsFinally(s: Snapshot, log: seq<Event>) {
    && s.nodes.Keys == NodesSeen(log) && (forall n :: n in s.nodes ==> s.nodes[n] == NodeRowOf(log, n))
    && s.assets.Keys == AssetsSeen(log)
    && (forall a :: a in s.assets ==> s.assets[a] == AssetRowOf(log, a).(queue := LineIn(log, a)))
    && s.exits.Keys == ExitsSeen(log)
    && (forall k :: k in s.exits ==> s.exits[k] == Placed(ExitRowOf(log, k.0, k.1), LineIn(log, k.0), k.1))
    && s.usdcSettled == Flowed(GrossSettled, log) && s.feesToTreasury == Flowed(FeesToTreasury, log)
  }

  /** Every line but those still to do has been re-derived. */
  ghost predicate LinesDone(assets: map<Address, AssetRow>, todo: set<Address>, log: seq<Event>) {
    && assets.Keys == AssetsSeen(log)
    && forall a :: a in assets ==>
         assets[a] == if a in todo then AssetRowOf(log, a) else AssetRowOf(log, a).(queue := LineIn(log, a))
  }

  ghost predicate PlacesDone(exits: map<(Address, nat), ExitRow>, todo: set<Address>, log: seq<Event>) {
    && exits.Keys == ExitsSeen(log)
    && forall k :: k in exits ==>
         exits[k] == if k.0 in todo then ExitRowOf(log, k.0, k.1)
                     else Placed(ExitRowOf(log, k.0, k.1), LineIn(log, k.0), k.1)
  }

  /** Placing changes no phase, so every filter reads what the log says. */
  lemma PhasesKept(exits: map<(Address, nat), ExitRow>, todo: set<Address>, log: seq<Event>, a: Address)
    requires PlacesDone(exits, todo, log)
    ensures forall id: nat :: ((a, id) in exits && exits[(a, id)].phase == Phase.Queued)
                              <==> ExitRowOf(log, a, id).phase == Phase.Queued
  {
    UnseenAreBlank(log);
  }

  lemma {:induction false} UnlistedAssetsHaveNoLine(exits: map<(Address, nat), ExitRow>, log: seq<Event>)
    requires exits.Keys == ExitsSeen(log) && forall k :: k in exits ==> exits[k] == ExitRowOf(log, k.0, k.1)
    ensures PlacesDone(exits, AssetsSeen(log), log)
  {
    UnseenAreBlank(log);
    forall k | k in exits && k.0 !in AssetsSeen(log)
      ensures LineIn(log, k.0) == []
    {
      assert AssetRowOf(log, k.0) == BLANK_ASSET;
    }
  }

  lemma OnePlaced(exits: map<(Address, nat), ExitRow>, exits': map<(Address, nat), ExitRow>, todo: set<Address>,
                  log: seq<Event>, a: Address)
    requires PlacesDone(exits, todo, log) && a in todo && exits'.Keys == exits.Keys
    requires forall k :: k in exits ==>
               exits'[k] == if k.0 == a then Placed(exits[k], LineIn(log, a), k.1) else exits[k]
    ensures PlacesDone(exits', todo - {a}, log)
  {
  }

  /** One turn of the loop: filters one asset's line and writes its places. */
  method RederiveLine(assets: map<Address, AssetRow>, exits: map<(Address, nat), ExitRow>, a: Address,
                      ghost todo: set<Address>, ghost log: seq<Event>)
    returns (assets': map<Address, AssetRow>, exits': map<(Address, nat), ExitRow>)
    requires a in todo && todo <= assets.Keys
    requires LinesDone(assets, todo, log) && PlacesDone(exits, todo, log)
    ensures assets'.Keys == assets.Keys
    ensures LinesDone(assets', todo - {a}, log) && PlacesDone(exits', todo - {a}, log)
  {
    RunningLineDistinct(log, a);
    WaitingDistinct(AssetRowOf(log, a).queue, log, a);
    PhasesKept(exits, todo, log, a);
    var line := FilterLine(assets[a].queue, exits, a, log);
    assets' := assets[a := assets[a].(queue := line)];
    exits' := PlaceLine(exits, line, a);
    OnePlaced(exits, exits', todo, log, a);
  }

  method RederiveLines(b: Builder, ghost log: seq<Event>) returns (s: Snapshot)
    requires b.Shows(log)
    ensures ShowsFinally(s, log)
    ensures s.flagged == b.flagged
  {
    var assets, exits := b.assets, b.exits;
    var todo := b.assets.Keys;
    UnlistedAssetsHaveNoLine(exits, log);
    while todo != {}
      invariant todo <= assets.Keys
      invariant LinesDone(assets, todo, log) && PlacesDone(exits, todo, log)
      decreases todo
    {
      var a :| a in todo;
      assets, exits := RederiveLine(assets, exits, a, todo, log);
      todo := todo - {a};
    }
    s := Snapshot(b.nodes, assets, exits, b.usdcTotal, b.feesTotal, b.flagged);
  }
}
