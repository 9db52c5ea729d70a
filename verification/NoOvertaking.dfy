/**
 First come, first sold, over whole runs: however openings, bids and closes interleave, no
 price gets a later exit sold before one that already waits on the same asset.
 */
module NoOvertaking {
  import opened Ledger
  import opened FifoQueue
  import opened ExitAuction
  import opened Chain
  import opened Invariant
  import opened Effects
  import opened Changes
  import opened Reachable
  import opened Guarantees

  // ---- one exit's life ----

  predicate Ended(x: Exit) {
    x.status == Status.Settled || x.status == Status.Cancelled
  }

  /** Terms never change; a queued exit never reopens; an ended one is finished with; bids only rise. */
  predicate Evolves(x: Exit, y: Exit) {
    && SameTerms(x, y)
    && (Ended(x) ==> y == x)
    && (x.status == Status.Queued ==> y.status != Status.Open)
    && (y.status != Status.Cancelled ==>
          y.bestUsdc > x.bestUsdc || (y.bestUsdc == x.bestUsdc && y.bestNode == x.bestNode))
  }

  lemma ChangeEvolves(w: World, w': World, c: Change, id: nat)
    requires Registry(w.auction) && Made(w, w', c) && id in w.auction.exits
    ensures id in w'.auction.exits && Evolves(w.auction.exits[id], w'.auction.exits[id])
  {
    ChangeWrites(w, w', c);
  }

  lemma ExitStep(w: World, call: Call, id: nat)
    requires Inv(w) && id in w.auction.exits
    ensures id in Step(w, call).auction.exits
    ensures Evolves(w.auction.exits[id], Step(w, call).auction.exits[id])
  {
    if AuctionCall(call) && Apply(w, call).Ok? {
      CallMakes(w, call);
      ChangeEvolves(w, Step(w, call), ChangeOf(w, call), id);
    } else {
      OtherCallsKeepExits(w, call);
    }
  }

  lemma EvolvesOn(x: Exit, y: Exit, z: Exit)
    requires Evolves(x, y) && Evolves(y, z)
    ensures Evolves(x, z)
  {
  }

  lemma EvolvesNot(x: Exit)
    ensures Evolves(x, x)
  {
  }

  lemma {:induction false} ExitOverRuns(w: World, calls: seq<Call>, id: nat)
    requires Inv(w) && id in w.auction.exits
    ensures id in Run(w, calls).auction.exits
    ensures Evolves(w.auction.exits[id], Run(w, calls).auction.exits[id])
    decreases |calls|
  {
    if calls == [] {
      EvolvesNot(w.auction.exits[id]);
    } else {
      var w1 := Step(w, calls[0]);
      StepKeeps(w, calls[0]);
      ExitStep(w, calls[0], id);
      ExitOverRuns(w1, calls[1..], id);
      EvolvesOn(w.auction.exits[id], w1.auction.exits[id], Run(w1, calls[1..]).auction.exits[id]);
    }
  }

  // ---- one line's life ----

  /** Somebody joined at the back, somebody left, or nothing happened: the line never reorders. */
  ghost predicate LineMoves(line: seq<nat>, line': seq<nat>) {
    || line' == line
    || (exists id :: id !in line && line' == line + [id])
    || (exists k :: 0 <= k < |line| && line' == Without(line, k))
  }

  lemma LeftMoves(w: World, x: Exit, asset: Address)
    ensures LineMoves(w.queue.Line(asset), Left(w.queue, x).Line(asset))
  {
  }

  lemma ChangeMovesLine(w: World, w': World, c: Change, asset: Address)
    requires Made(w, w', c)
    ensures LineMoves(w.queue.Line(asset), w'.queue.Line(asset))
  {
    LeftMoves(w, c.exit, asset);
  }

  lemma LineStep(w: World, call: Call, asset: Address)
    requires Inv(w)
    ensures LineMoves(w.queue.Line(asset), Step(w, call).queue.Line(asset))
  {
    if AuctionCall(call) && Apply(w, call).Ok? {
      CallMakes(w, call);
      ChangeMovesLine(w, Step(w, call), ChangeOf(w, call), asset);
    } else {
      OtherCallsKeepExits(w, call);
    }
  }

  /** `x` stands strictly before `y`. */
  predicate Before(line: seq<nat>, x: nat, y: nat) {
    x in line && y in line && IndexOf(line, x) < IndexOf(line, y)
  }

  /** Where a member of a line stands once someone else has left it. */
  lemma {:induction false} WithoutIndex(line: seq<nat>, k: nat, x: nat)
    requires Distinct(line) && k < |line| && x in line && x != line[k]
    ensures x in Without(line, k)
    ensures IndexOf(Without(line, k), x) == IndexOf(line, x) - if k < IndexOf(line, x) then 1 else 0
  {
    var i := IndexOf(line, x);
    var j := if k < i then i - 1 else i;
    var rest := Without(line, k);
    WithoutMembers(line, k);
    assert rest[j] == x;
    assert IndexOf(rest, x) == j;
  }

  lemma {:induction false} JoinKeepsOrder(line: seq<nat>, id: nat, x: nat, y: nat)
    requires x in line && id !in line
    ensures var line' := line + [id];
            && IndexOf(line', x) == IndexOf(line, x)
            && (y in line ==> IndexOf(line', y) == IndexOf(line, y))
            && (y !in line && y in line' ==> IndexOf(line', y) == |line|)
  {
    var line' := line + [id];
    assert line'[IndexOf(line, x)] == x;
    assert y in line ==> line'[IndexOf(line, y)] == y;
  }

  lemma {:induction false} LeaveKeepsOrder(line: seq<nat>, k: nat, x: nat, y: nat)
    requires Distinct(line) && k < |line| && x in line && x in Without(line, k)
    ensures IndexOf(Without(line, k), x) <= IndexOf(line, x)
    ensures y in Without(line, k) ==> y in line
    ensures y in Without(line, k) && Before(line, x, y) ==> Before(Without(line, k), x, y)
  {
    WithoutMembers(line, k);
    WithoutIndex(line, k, x);
    if y in Without(line, k) {
      WithoutIndex(line, k, y);
    }
  }

  /** Staying in line means never moving back, and never changing places. */
  lemma {:induction false} MovesKeepOrder(line: seq<nat>, line': seq<nat>, x: nat, y: nat)
    requires Distinct(line) && Distinct(line') && LineMoves(line, line')
    requires x in line && x in line'
    ensures IndexOf(line', x) <= IndexOf(line, x)
    ensures y in line && y in line' && Before(line, x, y) ==> Before(line', x, y)
    ensures y !in line && y in line' ==> Before(line', x, y)
  {
    if id :| id !in line && line' == line + [id] {
      JoinKeepsOrder(line, id, x, y);
    } else if k :| 0 <= k < |line| && line' == Without(line, k) {
      LeaveKeepsOrder(line, k, x, y);
    }
  }

  // ---- two exits' lives together ----

  predicate Gone(w: World, x: nat) {
    x in w.auction.exits && Ended(w.auction.exits[x])
  }

  predicate SettledOn(w: World, asset: Address, y: nat) {
    y in w.auction.exits && w.auction.exits[y].asset == asset && w.auction.exits[y].status == Status.Settled
  }

  /** `x` has left, or is still queued on `asset` with `y` unsettled and not ahead of it. */
  predicate Waits(w: World, asset: Address, x: nat, y: nat) {
    || Gone(w, x)
    || (&& x in w.queue.Line(asset)
        && !SettledOn(w, asset, y)
        && (y in w.queue.Line(asset) ==> Before(w.queue.Line(asset), x, y)))
  }

  /** The exit that settles is alone or first in its line, so nobody queued is behind it. */
  lemma NotSettledYet(w: World, w': World, c: Change, asset: Address, x: nat, y: nat)
    requires Registry(w.auction) && Lines(w.auction, w.queue) && Made(w, w', c)
    requires x != y && x in w.queue.Line(asset) && !SettledOn(w, asset, y)
    requires y in w.queue.Line(asset) ==> Before(w.queue.Line(asset), x, y)
    ensures !SettledOn(w', asset, y)
  {
    ChangeSettles(w, w', c, y);
    ChangeWrites(w, w', c);
    if y in w.auction.exits && Fillable(w, w.auction.exits[y]) && w.auction.exits[y].asset == asset {
      assert QueuedOn(w.auction, asset, x) && !WaitsAhead(w, x, w.auction.exits[y]);
    }
  }

  lemma ChangeWaits(w: World, w': World, c: Change, asset: Address, x: nat, y: nat)
    requires Registry(w.auction) && Lines(w.auction, w.queue) && Lines(w'.auction, w'.queue) && Made(w, w', c)
    requires x != y && Waits(w, asset, x, y)
    ensures Waits(w', asset, x, y)
  {
    if Gone(w, x) {
      ChangeEvolves(w, w', c, x);
    } else {
      assert QueuedOn(w.auction, asset, x);
      ChangeEvolves(w, w', c, x);
      if x in w'.queue.Line(asset) {
        ChangeMovesLine(w, w', c, asset);
        MovesKeepOrder(w.queue.Line(asset), w'.queue.Line(asset), x, y);
        NotSettledYet(w, w', c, asset, x, y);
      } else {
        assert !QueuedOn(w'.auction, asset, x);
      }
    }
  }

  lemma {:induction false} WaitsOverRuns(w: World, calls: seq<Call>, asset: Address, x: nat, y: nat)
    requires Inv(w) && x != y && Waits(w, asset, x, y)
    ensures Waits(Run(w, calls), asset, x, y)
    decreases |calls|
  {
    if calls != [] {
      StepKeeps(w, calls[0]);
      if AuctionCall(calls[0]) && Apply(w, calls[0]).Ok? {
        CallMakes(w, calls[0]);
        StepKeeps(w, calls[0]);
        ChangeWaits(w, Step(w, calls[0]), ChangeOf(w, calls[0]), asset, x, y);
      } else {
        OtherCallsKeepExits(w, calls[0]);
      }
      WaitsOverRuns(Step(w, calls[0]), calls[1..], asset, x, y);
    }
  }

  /**
   Nobody jumps the line. Take any reachable state in which `x` is queued, and any other exit
   `y` of the same asset that is not ahead of `x`: queued behind it, still open, or not even
   opened yet. Whatever happens afterwards, if `y` has been settled then `x` had already left,
   settled or cancelled. As this holds after every prefix of the run, `x` left first.
   */
  lemma {:induction false} NobodyJumpsTheLine(w: World, calls: seq<Call>, asset: Address, x: nat, y: nat)
    requires Inv(w) && x != y
    requires x in w.queue.Line(asset) && !SettledOn(w, asset, y)
    requires y in w.queue.Line(asset) ==> Before(w.queue.Line(asset), x, y)
    ensures SettledOn(Run(w, calls), asset, y) ==> Gone(Run(w, calls), x)
  {
    WaitsOverRuns(w, calls, asset, x, y);
  }

  /** Two exits that are queued at both ends of a run keep their order, and nobody moves back. */
  lemma {:induction false} OrderOverRuns(w: World, calls: seq<Call>, asset: Address, x: nat, y: nat)
    requires Inv(w) && x in w.queue.Line(asset) && x in Run(w, calls).queue.Line(asset)
    ensures IndexOf(Run(w, calls).queue.Line(asset), x) <= IndexOf(w.queue.Line(asset), x)
    ensures (Before(w.queue.Line(asset), x, y) && y in Run(w, calls).queue.Line(asset))
            ==> Before(Run(w, calls).queue.Line(asset), x, y)
    decreases |calls|
  {
    if calls != [] {
      var w1 := Step(w, calls[0]);
      StepKeeps(w, calls[0]);
      LineStep(w, calls[0], asset);
      StillQueued(w, calls, asset, x);
      if y in w.queue.Line(asset) && y in Run(w, calls).queue.Line(asset) {
        StillQueued(w, calls, asset, y);
      }
      MovesKeepOrder(w.queue.Line(asset), w1.queue.Line(asset), x, y);
      OrderOverRuns(w1, calls[1..], asset, x, y);
    }
  }

  /** Who is queued at both ends of a run was queued all along: leaving the line is final. */
  lemma {:induction false} StillQueued(w: World, calls: seq<Call>, asset: Address, x: nat)
    requires Inv(w) && calls != [] && x in w.queue.Line(asset) && x in Run(w, calls).queue.Line(asset)
    ensures x in Step(w, calls[0]).queue.Line(asset)
  {
    var w1 := Step(w, calls[0]);
    StepKeeps(w, calls[0]);
    assert QueuedOn(w.auction, asset, x);
    ExitStep(w, calls[0], x);
    RunKeeps(w1, calls[1..]);
    ExitOverRuns(w1, calls[1..], x);
    QueuedBetween(w, w1, Run(w1, calls[1..]), asset, x);
  }

  lemma QueuedBetween(w: World, w1: World, w2: World, asset: Address, x: nat)
    requires Lines(w.auction, w.queue) && Lines(w1.auction, w1.queue) && Lines(w2.auction, w2.queue)
    requires x in w.queue.Line(asset) && x in w2.queue.Line(asset)
    requires x in w.auction.exits && x in w1.auction.exits && x in w2.auction.exits
    requires Evolves(w.auction.exits[x], w1.auction.exits[x]) && Evolves(w1.auction.exits[x], w2.auction.exits[x])
    ensures x in w1.queue.Line(asset)
  {
    assert QueuedOn(w.auction, asset, x) && QueuedOn(w2.auction, asset, x);
    assert QueuedOn(w1.auction, asset, x);
  }
}
