/**
 The monitor's indexing pass: read pages of events from the RPC, append what is new to the
 log, then save the cursor. A pass may die before any write to disk; the next one resumes
 from whatever the disk holds, and drops what it has already logged by id.

 `PassOn` says what a pass leaves on disk; the class `Monitor` runs the loop and is proved to
 leave exactly that.
 */
module Indexer {
  import opened Ledger

  const POSITIONS_PER_LEDGER: nat := 0x1_0000_0000

  /** One event of the chain. Its id is its position; the ledger is in the id's high bits. */
  datatype Entry<+T> = Entry(id: nat, ledger: nat, record: T)

  datatype St = St(
    startedFrom: nat,
    complete: bool,
    cursor: Option<nat>,
    lastLedger: int,
    lastEventId: Option<nat>,
    events: nat,
    passes: nat)

  datatype Request = AfterCursor(cursor: nat) | FromLedger(ledger: int)

  datatype Reply<+T> =
    | Page(events: seq<Entry<T>>, cursor: Option<nat>, latestLedger: nat)
    | Rejected  // the cursor or ledger fell out of the RPC's range
    | Failed    // anything else: the pass fails

  /** What one pass meets: the RPC's window and answers, its settings, and how many writes it lives for. */
  datatype Env<!T> = Env(
    latest: nat,
    oldest: nat,
    startLedger: Option<nat>,
    maxPages: nat,
    rpc: (nat, Request) -> Reply<T>,
    lives: nat)

  datatype Disk<+T> = Disk(log: seq<Entry<T>>, state: Option<St>)

  function Max(a: int, b: int): int {
    if a > b then a else b
  }

  function StartOf<T>(env: Env<T>): nat {
    if env.startLedger.Some? then env.startLedger.value else env.oldest
  }

  /** Cold start, or the saved state; a saved state without a cursor may have lost history. */
  function Begin<T>(state: Option<St>, env: Env<T>): St {
    if state.None? then
      St(StartOf(env), StartOf(env) <= env.oldest, None, StartOf(env) - 1, None, 0, 0)
    else if state.value.cursor.None? && state.value.lastLedger < env.oldest then
      state.value.(complete := false, lastLedger := env.oldest - 1)
    else state.value
  }

  function RequestOf<T>(st: St, env: Env<T>): Request {
    if st.cursor.Some? then AfterCursor(st.cursor.value) else FromLedger(Max(st.lastLedger + 1, env.oldest))
  }

  function Ids<T>(log: seq<Entry<T>>): set<nat> {
    set i | 0 <= i < |log| :: log[i].id
  }

  /** The page without what was seen before, in order. */
  function Fresh<T>(page: seq<Entry<T>>, seen: set<nat>): seq<Entry<T>> {
    if page == [] then []
    else if page[0].id in seen then Fresh(page[1..], seen)
    else [page[0]] + Fresh(page[1..], seen + {page[0].id})
  }

  function Noted<T>(st: St, batch: seq<Entry<T>>): (noted: St)
    ensures noted == st.(lastLedger := noted.lastLedger, lastEventId := noted.lastEventId)
    ensures st.lastLedger <= noted.lastLedger
    decreases |batch|
  {
    if batch == [] then st
    else Noted(st.(lastLedger := Max(st.lastLedger, batch[0].ledger), lastEventId := Some(batch[0].id)), batch[1..])
  }

  function AfterRejection<T>(st: St, env: Env<T>): St {
    if st.lastLedger < env.oldest - 1
    then st.(cursor := None, complete := false, lastLedger := env.oldest - 1)
    else st.(cursor := None)
  }

  function AfterPage<T>(st: St, batch: seq<Entry<T>>, cursor: Option<nat>): St {
    var noted := Noted(st, batch);
    noted.(cursor := if cursor.Some? then cursor else noted.cursor, events := noted.events + |batch|)
  }

  function Scanned(st: St): int {
    if st.cursor.Some? then st.cursor.value / POSITIONS_PER_LEDGER else st.lastLedger
  }

  predicate AtTip<T>(st: St, latestLedger: nat, env: Env<T>) {
    Scanned(st) >= (if latestLedger > 0 then latestLedger else env.latest) - 1
  }

  function Finish<T>(disk: Disk<T>, st: St, lives: nat): Disk<T> {
    if lives == 0 then disk else disk.(state := Some(st.(passes := st.passes + 1)))
  }

  datatype Outcome = Next | Done | Died

  /** A pass between two pages: the disk, its own memory, and the writes it has left to live. */
  datatype Progress<+T> = Progress(disk: Disk<T>, st: St, lives: nat, outcome: Outcome)

  /** Append, then save; the process may die before either. */
  function TakePage<T>(disk: Disk<T>, st: St, env: Env<T>, reply: Reply<T>, lives: nat): Progress<T>
    requires reply.Page?
  {
    var batch := Fresh(reply.events, Ids(disk.log));
    var st' := AfterPage(st, batch, reply.cursor);
    if batch != [] && lives == 0 then Progress(disk, st', 0, Died)
    else
      var appended := disk.(log := disk.log + batch);
      var left := if batch != [] then lives - 1 else lives;
      if left == 0 then Progress(appended, st', 0, Died)
      else
        var saved := appended.(state := Some(st'));
        if AtTip(st', reply.latestLedger, env) then
          Progress(saved, st'.(lastLedger := Max(st'.lastLedger, Scanned(st'))), left - 1, Done)
        else Progress(saved, st', left - 1, if reply.cursor.None? then Done else Next)
  }

  function TakeReply<T>(disk: Disk<T>, st: St, env: Env<T>, reply: Reply<T>, lives: nat): Progress<T> {
    match reply
    case Failed => Progress(disk, st, lives, Died)
    case Rejected =>
      var st' := AfterRejection(st, env);
      if lives == 0 then Progress(disk, st', 0, Died)
      else Progress(disk.(state := Some(st')), st', lives - 1, Next)
    case Page(_, _, _) => TakePage(disk, st, env, reply, lives)
  }

  /** The page loop, from what is on disk and what the pass holds in memory. */
  function Pages<T>(p: Progress<T>, env: Env<T>, page: nat): Disk<T>
    decreases env.maxPages - page
  {
    if p.outcome == Died then p.disk
    else if p.outcome == Done || page >= env.maxPages then Finish(p.disk, p.st, p.lives)
    else Pages(TakeReply(p.disk, p.st, env, env.rpc(page, RequestOf(p.st, env)), p.lives), env, page + 1)
  }

  function PassOn<T>(disk: Disk<T>, env: Env<T>): Disk<T> {
    Pages(Progress(disk, Begin(disk.state, env), env.lives, Next), env, 0)
  }

  class Monitor<T> {
    var log: seq<Entry<T>>
    var state: Option<St>

    constructor (disk: Disk<T>)
      ensures Durable() == disk
    {
      log, state := disk.log, disk.state;
    }

    function Durable(): Disk<T>
      reads this
    {
      Disk(log, state)
    }

    /** The entries of a page not seen before; `seen` grows as it goes. */
    method Dedup(page: seq<Entry<T>>, seen: set<nat>) returns (batch: seq<Entry<T>>, seen': set<nat>)
      ensures batch == Fresh(page, seen)
      ensures seen' == seen + Ids(batch)
    {
      batch, seen' := [], seen;
      for i := 0 to |page|
        invariant Fresh(page, seen) == batch + Fresh(page[i..], seen')
        invariant seen' == seen + Ids(batch)
      {
        assert page[i..][1..] == page[i + 1..];
        if page[i].id !in seen' {
          IdsConcat(batch, [page[i]]);
          assert Ids([page[i]]) == {page[i].id} by {
            assert [page[i]][0].id in Ids([page[i]]);
          }
          batch := batch + [page[i]];
          seen' := seen' + {page[i].id};
        }
      }
      assert page[|page|..] == [];
    }

    method Append(batch: seq<Entry<T>>)
      modifies this`log
      ensures log == old(log) + batch
    {
      log := log + batch;
    }

    method Save(st: St)
      modifies this`state
      ensures state == Some(st)
    {
      state := Some(st);
    }

    /** One page: append the new entries, save the cursor, decide whether to go on. */
    method ReadPage(before: St, env: Env<T>, reply: Reply<T>, seen: set<nat>, lives: nat)
      returns (st: St, seen': set<nat>, left: nat, outcome: Outcome)
      requires reply.Page? && seen == Ids(log)
      modifies this
      ensures Progress(Durable(), st, left, outcome) == TakePage(old(Durable()), before, env, reply, lives)
      ensures outcome != Died ==> seen' == Ids(log)
    {
      var batch;
      batch, seen' := Dedup(reply.events, seen);
      IdsConcat(log, batch);
      st, left := AfterPage(before, batch, reply.cursor), lives;
      if batch != [] {
        if left == 0 {
          return st, seen', 0, Died;
        }
        Append(batch);
        left := left - 1;
      } else {
        assert log + [] == log;
      }
      if left == 0 {
        return st, seen', 0, Died;
      }
      Save(st);
      left := left - 1;
      if AtTip(st, reply.latestLedger, env) {
        st := st.(lastLedger := Max(st.lastLedger, Scanned(st)));
        outcome := Done;
      } else if reply.cursor.None? {
        outcome := Done;
      } else {
        outcome := Next;
      }
    }

    /**
     One pass. `died` when the process was killed, or failed, before finishing: exactly when the
     saved state does not count one more pass.
     */
    method Pass(env: Env<T>) returns (died: bool)
      modifies this
      ensures Durable() == PassOn(old(Durable()), env)
      ensures died <==> state.None? || state.value.passes == Begin(old(state), env).passes
      ensures !died ==> state.value.passes == Begin(old(state), env).passes + 1
    {
      var st := Begin(state, env);
      var seen := Ids(log);
      var pages, lives, outcome := 0, env.lives, Next;
      while outcome == Next && pages < env.maxPages
        invariant 0 <= pages && (outcome == Next ==> seen == Ids(log))
        invariant Pages(Progress(Durable(), st, lives, outcome), env, pages) == PassOn(old(Durable()), env)
        invariant st.passes == Begin(old(state), env).passes && (state.Some? ==> state.value.passes == st.passes)
        decreases env.maxPages - pages
      {
        var reply := env.rpc(pages, RequestOf(st, env));
        if reply.Failed? {
          return true;
        } else if reply.Rejected? {
          st := AfterRejection(st, env);
          if lives == 0 {
            return true;
          }
          Save(st);
          lives := lives - 1;
        } else {
          st, seen, lives, outcome := ReadPage(st, env, reply, seen, lives);
        }
        pages := pages + 1;
      }
      if outcome == Died || lives == 0 {
        return true;
      }
      Save(st.(passes := st.passes + 1));
      return false;
    }
  }

  lemma IdsConcat<T>(a: seq<Entry<T>>, b: seq<Entry<T>>)
    ensures Ids(a + b) == Ids(a) + Ids(b)
  {
    forall id | id in Ids(a) + Ids(b)
      ensures id in Ids(a + b)
    {
      if id in Ids(a) {
        var i :| 0 <= i < |a| && a[i].id == id;
        assert (a + b)[i].id == id;
      } else {
        var i :| 0 <= i < |b| && b[i].id == id;
        assert (a + b)[|a| + i].id == id;
      }
    }
  }
}
