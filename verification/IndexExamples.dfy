/**
 Concrete passes, served faithfully, after which the index is not what it claims: an event lost
 to a rejected cursor, a flag raised over a hole by a reset, an entry that is never counted.
 */
module IndexExamples {
  import opened Ledger
  import opened Indexer
  import opened CrashSafety
  import opened ReEntry
  import opened EventCount
  import opened CompleteFlag

  // ---- a cursor rejected inside a ledger ----

  const FIRST: Entry<int> := Entry(5 * POSITIONS_PER_LEDGER, 5, 0)
  const SECOND: Entry<int> := Entry(5 * POSITIONS_PER_LEDGER + 1, 5, 1)

  /** The first event of ledger 5 is logged, and the cursor stands between the two. */
  const HALFWAY: Disk<int> := Disk([FIRST], Some(St(0, true, Some(FIRST.id), 5, Some(FIRST.id), 1, 0)))

  const EMPTY_PAGE: Reply<int> := Page([], Some(9 * POSITIONS_PER_LEDGER), 10)

  lemma TwoEvents()
    ensures Sorted([FIRST, SECOND]) && Origin([FIRST, SECOND], 0) == 0
    ensures Count([FIRST, SECOND], FIRST.id) == 1
    ensures Count([FIRST, SECOND], 6 * POSITIONS_PER_LEDGER - 1)
         == Count([FIRST, SECOND], 9 * POSITIONS_PER_LEDGER) == 2
  {
    var history := [FIRST, SECOND];
    assert history[1..] == [SECOND] && [SECOND][1..] == [];
    assert Count([SECOND], FIRST.id) == 0;
    assert Count([SECOND], 6 * POSITIONS_PER_LEDGER - 1) == Count([SECOND], 9 * POSITIONS_PER_LEDGER) == 1;
  }

  lemma HalfwayIsGood()
    ensures Good([FIRST, SECOND], 0, HALFWAY)
  {
    TwoEvents();
    assert [FIRST, SECOND][0..1] == [FIRST];
  }

  const FIRST_PAGE: Reply<int> := Page([FIRST], Some(FIRST.id), 10)

  /** From an empty disk one page, appended and saved, leads there; the pass then dies. */
  lemma HalfwayIsReached(env: Env<int>)
    requires env.oldest == 0 && env.startLedger == None && env.maxPages == 1 && env.lives == 2
    requires env.rpc(0, FromLedger(0)) == FIRST_PAGE
    ensures Serves([FIRST, SECOND], FromLedger(0), FIRST_PAGE)
    ensures PassOn(Disk([], None), env) == HALFWAY
  {
    TwoEvents();
    assert [FIRST, SECOND][0..1] == [FIRST];
    var p := Started(Disk([], None), env);
    OnlyFirstIsFresh();
    var p1 := TakeReply(p.disk, p.st, env, FIRST_PAGE, p.lives);
    assert p1.disk == HALFWAY;
    assert Pages(p1, env, 1) == p1.disk;
    assert Pages(p, env, 0) == Pages(p1, env, 1);
  }

  lemma OnlyFirstIsFresh()
    ensures Fresh([FIRST], Ids<int>([])) == [FIRST]
    ensures Noted(St(0, true, None, -1, None, 0, 0), [FIRST]) == St(0, true, None, 5, Some(FIRST.id), 0, 0)
  {
    assert [FIRST][1..] == [];
    assert Fresh([FIRST][1..], Ids<int>([]) + {FIRST.id}) == [];
    var st := St(0, true, None, 5, Some(FIRST.id), 0, 0);
    assert Noted(st, [FIRST][1..]) == st;
  }

  lemma ReEntryServesNothing()
    ensures Serves([FIRST, SECOND], FromLedger(6), EMPTY_PAGE)
  {
    TwoEvents();
  }

  /** What a whole pass leaves when its cursor is rejected and it re-enters at ledger 6. */
  lemma ReEnteredPass(env: Env<int>)
    requires env.oldest <= 6 && env.maxPages >= 2 && env.lives >= 3
    requires env.rpc(0, AfterCursor(FIRST.id)) == Rejected && env.rpc(1, FromLedger(6)) == EMPTY_PAGE
    ensures PassOn(HALFWAY, env).log == [FIRST]
    ensures var saved := PassOn(HALFWAY, env).state;
            saved.Some? && saved.value.complete && saved.value.cursor == Some(9 * POSITIONS_PER_LEDGER)
  {
    var p := Progress(HALFWAY, HALFWAY.state.value, env.lives, Next);
    var p1 := TakeReply(p.disk, p.st, env, Rejected, p.lives);
    var p2 := TakeReply(p1.disk, p1.st, env, EMPTY_PAGE, p1.lives);
    assert [FIRST] + Fresh(EMPTY_PAGE.events, Ids([FIRST])) == [FIRST];
    assert Pages(p2, env, 2) == Finish(p2.disk, p2.st, p2.lives);
    assert Pages(p1, env, 1) == Pages(p2, env, 2);
    assert Pages(p, env, 0) == Pages(p1, env, 1);
  }

  /**
   Two events of ledger 5, the cursor rejected between them, and nothing wrong with the RPC's
   window: after one pass of faithful pages the second event is not in the log, the saved cursor
   is past it, and the index still calls itself complete.
   */
  lemma RejectionInsideALedgerLosesEvents(env: Env<int>)
    requires env.oldest <= 6 && env.maxPages >= 2 && env.lives >= 3
    requires env.rpc(0, AfterCursor(FIRST.id)) == Rejected && env.rpc(1, FromLedger(6)) == EMPTY_PAGE
    ensures Good([FIRST, SECOND], 0, HALFWAY) && Serves([FIRST, SECOND], FromLedger(6), EMPTY_PAGE)
    ensures var disk := PassOn(HALFWAY, env);
            && SECOND !in disk.log
            && disk.state.Some? && disk.state.value.complete
            && disk.state.value.cursor.Some? && disk.state.value.cursor.value >= SECOND.id
            && !Good([FIRST, SECOND], 0, disk)
  {
    TwoEvents();
    HalfwayIsGood();
    ReEntryServesNothing();
    ReEnteredPass(env);
  }

  // ---- a reset after retention has passed the end of the log ----

  const LATER: Entry<int> := Entry(7 * POSITIONS_PER_LEDGER, 7, 2)

  lemma OneLater()
    ensures Sorted([FIRST, LATER]) && Origin([FIRST, LATER], 0) == 0
    ensures Count([FIRST, LATER], FIRST.id) == 1
    ensures Count([FIRST, LATER], 8 * POSITIONS_PER_LEDGER - 1) == 2
    ensures Count([FIRST, LATER], 9 * POSITIONS_PER_LEDGER) == 2
  {
    assert [FIRST, LATER][1..] == [LATER] && [LATER][1..] == [];
    assert Count([LATER], FIRST.id) == 0;
    assert Count([LATER], 8 * POSITIONS_PER_LEDGER - 1) == Count([LATER], 9 * POSITIONS_PER_LEDGER) == 1;
  }

  /** What a reset and one pass leave when retention has passed the end of the log. */
  lemma ResetPass(env: Env<int>)
    requires env.oldest == 8 && env.startLedger == None && env.maxPages >= 1 && env.lives >= 2
    requires env.rpc(0, FromLedger(8)) == EMPTY_PAGE
    ensures var disk := PassOn(HALFWAY.(state := None), env);
            && disk.log == [FIRST]
            && disk.state.Some? && disk.state.value.complete
            && disk.state.value.cursor == Some(9 * POSITIONS_PER_LEDGER)
  {
    var p := Started(HALFWAY.(state := None), env);
    var p1 := TakeReply(p.disk, p.st, env, EMPTY_PAGE, p.lives);
    assert [FIRST] + Fresh(EMPTY_PAGE.events, Ids([FIRST])) == [FIRST];
    assert Pages(p1, env, 1) == Finish(p1.disk, p1.st, p1.lives);
    assert Pages(p, env, 0) == Pages(p1, env, 1);
  }

  /**
   A reset keeps the log. When retention has passed its end by then, the next pass puts the flag up
   over the events in between, which nothing will ever read: served faithfully, it ends without
   `LATER`, with the cursor past it, and with a flag that the next pass keeps.
   */
  lemma ResetRaisesFlagOverHole(env: Env<int>)
    requires env.oldest == 8 && env.startLedger == None && env.maxPages >= 1 && env.lives >= 2
    requires env.rpc(0, FromLedger(8)) == EMPTY_PAGE
    ensures Good([FIRST, LATER], 0, HALFWAY) && Serves([FIRST, LATER], FromLedger(8), EMPTY_PAGE)
    ensures var disk := Passes(HALFWAY, [Session(true, env)]);
            && LATER !in disk.log && Reach(disk) >= LATER.id
            && Vouched(disk.state, env.oldest) && !Good([FIRST, LATER], 0, disk)
  {
    OneLater();
    assert [FIRST, LATER][0..1] == [FIRST];
    ResetPass(env);
    var disk := PassOn(HALFWAY.(state := None), env);
    assert Passes(disk, []) == disk;
    assert [Session(true, env)][1..] == [];
  }

  // ---- a death before the first save ----

  /** One page, appended by a pass that dies before saving it: one entry is never counted. */
  lemma OneUncounted(env: Env<int>)
    requires env.oldest == 0 && env.startLedger == None && env.maxPages == 1 && env.lives == 1
    requires env.rpc(0, FromLedger(0)) == FIRST_PAGE
    ensures PassOn(Disk([], None), env) == Disk([FIRST], None)
    ensures Uncounted(PassOn(Disk([], None), env)) == 1
  {
    var p := Started(Disk([], None), env);
    OnlyFirstIsFresh();
    var p1 := TakeReply(p.disk, p.st, env, FIRST_PAGE, p.lives);
    assert Pages(p1, env, 1) == p1.disk;
    assert Pages(p, env, 0) == Pages(p1, env, 1);
  }
}
