/**
 How far a pass reads, and what it then saves. It reads on, page after page, until a cursor has
 reached the ledger before the newest one, and not a page longer; what it saves says exactly how
 far that was, and never claims more.
 */
module HowFar {
  import opened Ledger
  import opened Indexer
  import opened CrashSafety

  // ---- what is noted of a batch ----

  /** `x` is the highest of `was` and the ledgers of the batch. */
  predicate Highest<T>(x: int, was: int, batch: seq<Entry<T>>) {
    && was <= x && (forall i :: 0 <= i < |batch| ==> batch[i].ledger <= x)
    && (x == was || exists i :: 0 <= i < |batch| && batch[i].ledger == x)
  }

  function LastId<T>(batch: seq<Entry<T>>, was: Option<nat>): Option<nat> {
    if batch == [] then was else Some(batch[|batch| - 1].id)
  }

  lemma {:induction false} NotedHighest<T>(st: St, batch: seq<Entry<T>>)
    ensures Highest(Noted(st, batch).lastLedger, st.lastLedger, batch)
    ensures Noted(st, batch).lastEventId == LastId(batch, st.lastEventId)
    decreases |batch|
  {
    if batch != [] {
      var first := st.(lastLedger := Max(st.lastLedger, batch[0].ledger), lastEventId := Some(batch[0].id));
      NotedHighest(first, batch[1..]);
      assert [batch[0]] + batch[1..] == batch;
      assert first.lastLedger != st.lastLedger ==> [batch[0]][0].ledger == first.lastLedger;
      HighestOfBoth(Noted(st, batch).lastLedger, first.lastLedger, st.lastLedger, st.lastLedger, [batch[0]],
                    batch[1..]);
    }
  }

  /** The highest of two batches, one after the other, and of `floor`. */
  lemma HighestOfBoth<T>(x: int, first: int, was: int, floor: int, a: seq<Entry<T>>, b: seq<Entry<T>>)
    requires Highest(first, was, a) && Highest(x, Max(first, floor), b)
    ensures Highest(x, Max(was, floor), a + b)
  {
    if x != Max(first, floor) {
      var i :| 0 <= i < |b| && b[i].ledger == x;
      assert (a + b)[|a| + i].ledger == x;
    } else if x != Max(was, floor) {
      var i :| 0 <= i < |a| && a[i].ledger == x;
      assert (a + b)[i].ledger == x;
    }
  }

  // ---- one reply ----

  /** The newest ledger there is, as the page says or else as the RPC said when the pass began. */
  function Newest<T>(env: Env<T>, reply: Reply<T>): nat
    requires reply.Page?
  {
    if reply.latestLedger > 0 then reply.latestLedger else env.latest
  }

  /** The state stands in the ledger before the newest one, or later. */
  predicate CaughtUpWith(st: St, newest: nat) {
    if st.cursor.Some? then st.cursor.value >= (newest - 1) * POSITIONS_PER_LEDGER else st.lastLedger >= newest - 1
  }

  /** What a state says once `batch` and `cursor` are in it. */
  predicate Takes<T>(st: St, st': St, batch: seq<Entry<T>>, cursor: Option<nat>) {
    && st' == st.(cursor := if cursor.Some? then cursor else st.cursor, lastLedger := st'.lastLedger,
                  lastEventId := LastId(batch, st.lastEventId), events := st.events + |batch|)
    && Highest(st'.lastLedger, st.lastLedger, batch)
  }

  /**
   What a page does in a pass that lives through it: the new entries and the state with them are
   on disk; the pass ends exactly when it is caught up or the page brings no cursor; and only when
   caught up does its memory take the cursor's ledger for read.
   */
  lemma PageDoes<T>(p: Progress<T>, env: Env<T>, reply: Reply<T>)
    requires reply.Page? && p.lives >= 2
    ensures var batch, p' := Fresh(reply.events, Ids(p.disk.log)), TakePage(p.disk, p.st, env, reply, p.lives);
            && p'.disk.log == p.disk.log + batch && p'.lives >= p.lives - 2
            && p'.disk.state.Some? && Takes(p.st, p'.disk.state.value, batch, reply.cursor)
            && var saved := p'.disk.state.value;
               && p'.outcome == (if CaughtUpWith(saved, Newest(env, reply)) || reply.cursor.None? then Done else Next)
               && p'.st == saved.(lastLedger := p'.st.lastLedger)
               && p'.st.lastLedger == if CaughtUpWith(saved, Newest(env, reply)) && saved.cursor.Some?
                                      then Max(saved.lastLedger, saved.cursor.value / POSITIONS_PER_LEDGER)
                                      else saved.lastLedger
  {
    var batch := Fresh(reply.events, Ids(p.disk.log));
    NotedHighest(p.st, batch);
    assert p.disk.log + [] == p.disk.log;
  }

  /** What a rejected cursor does: it is dropped, and the next request skips only what is out of retention. */
  lemma RejectionDoes<T>(p: Progress<T>, env: Env<T>)
    ensures var p' := TakeReply(p.disk, p.st, env, Rejected, p.lives);
            && p'.st == p.st.(cursor := None, complete := p.st.complete && env.oldest <= p.st.lastLedger + 1,
                              lastLedger := Max(p.st.lastLedger, env.oldest - 1))
            && RequestOf(p'.st, env) == FromLedger(Max(p.st.lastLedger + 1, env.oldest))
            && if p.lives > 0 then p'.disk == p.disk.(state := Some(p'.st)) && p'.outcome == Next
               else p'.disk == p.disk && p'.outcome == Died
  {
  }

  /** Any other failure ends the pass there and then: nothing more is written, and no pass is counted. */
  lemma {:induction false} FailureDoes<T>(p: Progress<T>, env: Env<T>, page: nat)
    requires p.outcome == Next && page < env.maxPages && env.rpc(page, RequestOf(p.st, env)) == Failed
    ensures Pages(p, env, page) == p.disk
  {
    assert Pages(p, env, page) == Pages(Progress(p.disk, p.st, p.lives, Died), env, page + 1);
  }

  /** Where a pass enters, and with which flag. */
  lemma EntersAt<T>(state: Option<St>, env: Env<T>)
    ensures var st := Begin(state, env);
            match state
            case None =>
              var start := if env.startLedger.Some? then env.startLedger.value else env.oldest;
              && RequestOf(st, env) == FromLedger(Max(start, env.oldest))
              && (st.complete <==> start <= env.oldest)
              && st.startedFrom == start && st.events == st.passes == 0 && st.lastEventId == None
            case Some(saved) =>
              && RequestOf(st, env) == (if saved.cursor.Some? then AfterCursor(saved.cursor.value)
                                        else FromLedger(Max(saved.lastLedger + 1, env.oldest)))
              && (st.complete <==> saved.complete && (saved.cursor.Some? || saved.lastLedger >= env.oldest))
              && st == saved.(complete := st.complete, lastLedger := st.lastLedger)
  {
  }

  // ---- a whole pass ----

  predicate AtTheTip<T>(env: Env<T>, reply: Reply<T>)
    requires reply.Page? && reply.cursor.Some?
  {
    reply.cursor.value >= (Newest(env, reply) - 1) * POSITIONS_PER_LEDGER
  }

  /**
   What the RPC answers from request number `page` on: pages with a cursor, each asked for after
   the cursor of the one before, up to the first at the tip or the last the settings allow.
   */
  ghost predicate Reads<T(!new)>(env: Env<T>, page: nat, req: Request, replies: seq<Reply<T>>)
    decreases |replies|
  {
    && replies != [] && page < env.maxPages && replies[0] == env.rpc(page, req)
    && replies[0].Page? && replies[0].cursor.Some?
    && if |replies| == 1 then AtTheTip(env, replies[0]) || page + 1 == env.maxPages
       else !AtTheTip(env, replies[0])
            && Reads(env, page + 1, AfterCursor(replies[0].cursor.value), replies[1..])
  }

  /** All of them are faithful. */
  ghost predicate AllServe<T(!new)>(history: seq<Entry<T>>, req: Request, replies: seq<Reply<T>>)
    decreases |replies|
  {
    replies != [] && replies[0].Page? ==>
      && Serves(history, req, replies[0])
      && (replies[0].cursor.Some? ==> AllServe(history, AfterCursor(replies[0].cursor.value), replies[1..]))
  }

  function LastPage<T>(replies: seq<Reply<T>>): Reply<T>
    requires replies != []
  {
    replies[|replies| - 1]
  }

  /** What a finished pass saves, having added `added` and read up to `cursor`, at the tip or not. */
  predicate Saves<T>(st: St, st': St, added: seq<Entry<T>>, cursor: nat, tip: bool) {
    && st' == st.(cursor := Some(cursor), lastLedger := st'.lastLedger, lastEventId := LastId(added, st.lastEventId),
                  events := st.events + |added|, passes := st.passes + 1)
    && Highest(st'.lastLedger, Max(st.lastLedger, if tip then cursor / POSITIONS_PER_LEDGER else st.lastLedger), added)
  }

  /** A pass that goes on from `st` over `log` and reads up to page `last` leaves `disk`. */
  ghost predicate Leaves<T>(log: seq<Entry<T>>, st: St, env: Env<T>, last: Reply<T>, disk: Disk<T>) {
    && last.Page? && last.cursor.Some? && log <= disk.log && disk.state.Some?
    && Saves(st, disk.state.value, disk.log[|log|..], last.cursor.value, AtTheTip(env, last))
  }

  lemma OneMorePage<T>(st: St, st1: St, st': St, batch: seq<Entry<T>>, added: seq<Entry<T>>, first: nat, cursor: nat,
                       tip: bool)
    requires Takes(st, st1, batch, Some(first)) && Saves(st1, st', added, cursor, tip)
    ensures Saves(st, st', batch + added, cursor, tip)
  {
    HighestOfBoth(st'.lastLedger, st1.lastLedger, st.lastLedger,
                  if tip then cursor / POSITIONS_PER_LEDGER else st.lastLedger, batch, added);
  }

  /** The last page of a pass, and the save that ends it. */
  lemma {:induction false} PassEnds<T>(p: Progress<T>, env: Env<T>, page: nat, reply: Reply<T>)
    requires p.outcome == Next && p.lives > 2 && page < env.maxPages
    requires reply == env.rpc(page, RequestOf(p.st, env)) && reply.Page? && reply.cursor.Some?
    requires AtTheTip(env, reply) || page + 1 == env.maxPages
    ensures Leaves(p.disk.log, p.st, env, reply, Pages(p, env, page))
  {
    PageDoes(p, env, reply);
    var p' := TakePage(p.disk, p.st, env, reply, p.lives);
    assert Pages(p', env, page + 1) == Finish(p'.disk, p'.st, p'.lives);
    assert Pages(p, env, page) == Pages(p', env, page + 1);
    var batch := Fresh(reply.events, Ids(p.disk.log));
    assert p'.disk.log[|p.disk.log|..] == batch;
    TipLedger(p'.disk.state.value.lastLedger, p.st.lastLedger, reply.cursor.value / POSITIONS_PER_LEDGER, batch);
  }

  lemma TipLedger<T>(x: int, was: int, floor: int, batch: seq<Entry<T>>)
    requires Highest(x, was, batch)
    ensures Highest(Max(x, floor), Max(was, floor), batch)
  {
  }

  lemma {:induction false} ReadsOn<T(!new)>(p: Progress<T>, env: Env<T>, page: nat, replies: seq<Reply<T>>)
    requires p.outcome == Next && p.lives > 2 * |replies| && Reads(env, page, RequestOf(p.st, env), replies)
    ensures Leaves(p.disk.log, p.st, env, LastPage(replies), Pages(p, env, page))
    decreases |replies|
  {
    if |replies| == 1 {
      PassEnds(p, env, page, replies[0]);
    } else {
      PageDoes(p, env, replies[0]);
      var p' := TakePage(p.disk, p.st, env, replies[0], p.lives);
      ReadsOn(p', env, page + 1, replies[1..]);
      assert Pages(p, env, page) == Pages(p', env, page + 1);
      assert LastPage(replies[1..]) == LastPage(replies);
      BothBatches(p, p', env, Fresh(replies[0].events, Ids(p.disk.log)), replies[0].cursor.value, LastPage(replies),
                  Pages(p', env, page + 1));
    }
  }

  lemma BothBatches<T>(p: Progress<T>, p': Progress<T>, env: Env<T>, batch: seq<Entry<T>>, first: nat, last: Reply<T>,
                       disk: Disk<T>)
    requires p'.disk.log == p.disk.log + batch && Takes(p.st, p'.st, batch, Some(first))
    requires Leaves(p'.disk.log, p'.st, env, last, disk)
    ensures Leaves(p.disk.log, p.st, env, last, disk)
  {
    assert disk.log[|p.disk.log|..] == batch + disk.log[|p'.disk.log|..];
    OneMorePage(p.st, p'.st, disk.state.value, batch, disk.log[|p'.disk.log|..], first, last.cursor.value,
                AtTheTip(env, last));
  }

  /** Faithful pages are answers a pass can take. */
  lemma {:induction false} ReadsAreAnswers<T(!new)>(
    history: seq<Entry<T>>, start: nat, p: Progress<T>, env: Env<T>, page: nat, replies: seq<Reply<T>>)
    requires p.outcome == Next && p.lives > 2 * |replies| && Reads(env, page, RequestOf(p.st, env), replies)
    requires AllServe(history, RequestOf(p.st, env), replies)
    ensures AnswersAll(history, start, p, env, page)
    decreases |replies|
  {
    PageDoes(p, env, replies[0]);
    var p' := TakePage(p.disk, p.st, env, replies[0], p.lives);
    if |replies| > 1 {
      ReadsAreAnswers(history, start, p', env, page + 1, replies[1..]);
    }
    assert AnswersAll(history, start, p', env, page + 1);
  }

  /**
   A pass that lives and is served faithfully reads on until it is at the tip, or has read all the
   pages it may: it then holds every event up to its last cursor, and so, at the tip, every event
   below the ledger before the newest. What it saves is told exactly.
   */
  lemma {:induction false} PassReadsToTheTip<T(!new)>(history: seq<Entry<T>>, start: nat, disk: Disk<T>, env: Env<T>,
                                   replies: seq<Reply<T>>)
    requires Sorted(history) && Good(history, start, disk) && (disk.state.None? ==> StartOf(env) >= start)
    requires Resumable(history, start, disk.log, Begin(disk.state, env), env.oldest)
    requires Reads(env, 0, RequestOf(Begin(disk.state, env), env), replies) && env.lives > 2 * |replies|
    requires AllServe(history, RequestOf(Begin(disk.state, env), env), replies)
    ensures Leaves(disk.log, Begin(disk.state, env), env, LastPage(replies), PassOn(disk, env))
    ensures HoldsUpTo(history, start, PassOn(disk, env), LastPage(replies).cursor.value)
    ensures AtTheTip(env, LastPage(replies)) ==>
              HoldsUpTo(history, start, PassOn(disk, env), (Newest(env, LastPage(replies)) - 1) * POSITIONS_PER_LEDGER)
  {
    ReadsOn(Started(disk, env), env, 0, replies);
    ReadsAreAnswers(history, start, Started(disk, env), env, 0, replies);
    PassKeeps(history, start, disk, env);
    HoldsUpToCursor(history, start, PassOn(disk, env));
  }

  /** Every event from the start up to position `hi` is in the log. */
  ghost predicate HoldsUpTo<T(!new)>(history: seq<Entry<T>>, start: nat, disk: Disk<T>, hi: int) {
    forall e :: e in history && start * POSITIONS_PER_LEDGER <= e.id <= hi ==> e in disk.log
  }

  lemma HoldsUpToCursor<T(!new)>(history: seq<Entry<T>>, start: nat, disk: Disk<T>)
    requires Sorted(history) && Good(history, start, disk) && disk.state.Some? && disk.state.value.cursor.Some?
    ensures HoldsUpTo(history, start, disk, disk.state.value.cursor.value)
  {
    GoodIsAPrefix(history, start, disk);
  }

  // ---- nothing is logged twice ----

  predicate Once<T>(log: seq<Entry<T>>) {
    forall i, j :: 0 <= i < j < |log| ==> log[i].id != log[j].id
  }

  /** What is new in a page, whatever the page holds: every id not seen before, once. */
  lemma {:induction false} FreshOnce<T>(page: seq<Entry<T>>, seen: set<nat>)
    ensures Once(Fresh(page, seen))
    ensures forall i :: 0 <= i < |Fresh(page, seen)| ==> Fresh(page, seen)[i].id !in seen
    ensures Ids(page) <= seen + Ids(Fresh(page, seen))
  {
    if page != [] {
      var unseen := page[0].id !in seen;
      var rest := Fresh(page[1..], if unseen then seen + {page[0].id} else seen);
      FreshOnce(page[1..], if unseen then seen + {page[0].id} else seen);
      assert [page[0]] + page[1..] == page;
      IdsConcat([page[0]], page[1..]);
      IdsConcat([page[0]], rest);
      assert Ids([page[0]]) == {page[0].id} by {
        assert [page[0]][0].id in Ids([page[0]]);
      }
    }
  }

  lemma AppendOnce<T>(log: seq<Entry<T>>, batch: seq<Entry<T>>)
    requires Once(log) && Once(batch) && forall i :: 0 <= i < |batch| ==> batch[i].id !in Ids(log)
    ensures Once(log + batch)
  {
    forall i, j | 0 <= i < j < |log + batch|
      ensures (log + batch)[i].id != (log + batch)[j].id
    {
      if i < |log| <= j {
        assert log[i].id in Ids(log) && batch[j - |log|].id !in Ids(log);
      }
    }
  }

  lemma {:induction false} PagesLogOnce<T>(p: Progress<T>, env: Env<T>, page: nat)
    requires Once(p.disk.log)
    ensures Once(Pages(p, env, page).log)
    decreases env.maxPages - page
  {
    if p.outcome == Next && page < env.maxPages {
      var reply := env.rpc(page, RequestOf(p.st, env));
      if reply.Page? {
        FreshOnce(reply.events, Ids(p.disk.log));
        AppendOnce(p.disk.log, Fresh(reply.events, Ids(p.disk.log)));
      }
      PagesLogOnce(TakeReply(p.disk, p.st, env, reply, p.lives), env, page + 1);
    }
  }

  /** Whatever the RPC serves, and wherever passes die, no event id is ever logged twice. */
  lemma {:induction false} NothingIsLoggedTwice<T>(disk: Disk<T>, sessions: seq<Session<T>>)
    requires Once(disk.log)
    ensures Once(Passes(disk, sessions).log)
    decreases |sessions|
  {
    if sessions != [] {
      var resumed, env := ClearedIf(disk, sessions[0]), sessions[0].env;
      PagesLogOnce(Started(resumed, env), env, 0);
      NothingIsLoggedTwice(PassOn(resumed, env), sessions[1..]);
    }
  }

  // ---- the last ledger is never ahead of what was read ----

  /** Neither the last ledger nor the cursor is beyond ledger `hi`. */
  predicate Within(st: St, hi: int) {
    st.lastLedger <= hi && (st.cursor.Some? ==> st.cursor.value < (hi + 1) * POSITIONS_PER_LEDGER)
  }

  predicate DiskWithin<T>(disk: Disk<T>, hi: int) {
    disk.state.Some? ==> Within(disk.state.value, hi)
  }

  predicate PageWithin<T>(reply: Reply<T>, hi: int)
    requires reply.Page?
  {
    && (forall i :: 0 <= i < |reply.events| ==> reply.events[i].ledger <= hi)
    && (reply.cursor.Some? ==> reply.cursor.value < (hi + 1) * POSITIONS_PER_LEDGER)
  }

  /** Every page along the loop is. */
  predicate PagesWithin<T>(p: Progress<T>, env: Env<T>, page: nat, hi: int)
    decreases env.maxPages - page
  {
    p.outcome == Next && page < env.maxPages ==>
      var reply := env.rpc(page, RequestOf(p.st, env));
      && (reply.Page? ==> PageWithin(reply, hi))
      && PagesWithin(TakeReply(p.disk, p.st, env, reply, p.lives), env, page + 1, hi)
  }

  lemma {:induction false} FreshIsFromThePage<T>(page: seq<Entry<T>>, seen: set<nat>)
    ensures forall e :: e in Fresh(page, seen) ==> e in page
  {
    if page != [] {
      FreshIsFromThePage(page[1..], if page[0].id in seen then seen else seen + {page[0].id});
    }
  }

  lemma PageStaysWithin<T>(p: Progress<T>, env: Env<T>, reply: Reply<T>, hi: int)
    requires reply.Page? && Within(p.st, hi) && DiskWithin(p.disk, hi) && PageWithin(reply, hi)
    ensures var p' := TakePage(p.disk, p.st, env, reply, p.lives);
            DiskWithin(p'.disk, hi) && (p'.outcome != Died ==> Within(p'.st, hi))
  {
    var batch := Fresh(reply.events, Ids(p.disk.log));
    FreshIsFromThePage(reply.events, Ids(p.disk.log));
    NotedHighest(p.st, batch);
    assert forall i :: 0 <= i < |batch| ==> batch[i] in batch;
    assert Within(AfterPage(p.st, batch, reply.cursor), hi);
  }

  lemma {:induction false} PagesStayWithin<T>(p: Progress<T>, env: Env<T>, page: nat, hi: int)
    requires DiskWithin(p.disk, hi) && (p.outcome != Died ==> Within(p.st, hi))
    requires env.oldest - 1 <= hi && PagesWithin(p, env, page, hi)
    ensures DiskWithin(Pages(p, env, page), hi)
    decreases env.maxPages - page
  {
    if p.outcome == Next && page < env.maxPages {
      var reply := env.rpc(page, RequestOf(p.st, env));
      if reply.Page? {
        PageStaysWithin(p, env, reply, hi);
      }
      PagesStayWithin(TakeReply(p.disk, p.st, env, reply, p.lives), env, page + 1, hi);
    }
  }

  /** Every ledger the sessions meet: where they start, what is retained, what they are served. */
  predicate MetWithin<T>(disk: Disk<T>, sessions: seq<Session<T>>, hi: int)
    decreases |sessions|
  {
    sessions != [] ==>
      var resumed, env := ClearedIf(disk, sessions[0]), sessions[0].env;
      && (resumed.state.None? ==> StartOf(env) - 1 <= hi) && env.oldest - 1 <= hi
      && PagesWithin(Started(resumed, env), env, 0, hi)
      && MetWithin(PassOn(resumed, env), sessions[1..], hi)
  }

  /**
   Over any sessions the saved last ledger is no higher than the highest ledger met: of an event or
   a cursor served, of the one before a start, or of the one before the oldest retained.
   */
  lemma {:induction false} LastLedgerNeverRunsAhead<T>(disk: Disk<T>, sessions: seq<Session<T>>, hi: int)
    requires DiskWithin(disk, hi) && MetWithin(disk, sessions, hi)
    ensures DiskWithin(Passes(disk, sessions), hi)
    decreases |sessions|
  {
    if sessions != [] {
      var resumed, env := ClearedIf(disk, sessions[0]), sessions[0].env;
      PagesStayWithin(Started(resumed, env), env, 0, hi);
      LastLedgerNeverRunsAhead(PassOn(resumed, env), sessions[1..], hi);
    }
  }
}
