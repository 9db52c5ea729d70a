/**
 The `complete` flag, in runs that may lose retention, where the log itself may have holes. A
 flag that is up is right exactly when the index has not slipped since its last cold start: it
 slips by starting cold, with the flag up, on a log it does not join, and by being left to enter
 by ledger, with the flag up, while something unread lies below that ledger.
 */
module CompleteFlag {
  import opened Ledger
  import opened Indexer
  import opened CrashSafety
  import opened ReEntry

  /** The flag as the next pass takes it: up, and not about to be taken down. */
  predicate Vouched(state: Option<St>, oldest: nat) {
    && state.Some? && state.value.complete
    && (state.value.cursor.Some? || state.value.lastLedger >= oldest)
  }

  /** The log has no gap, and a pass that enters by ledger will leave none. */
  predicate NoGap<T(==)>(history: seq<Entry<T>>, start: nat, disk: Disk<T>, st: St, oldest: nat) {
    && Good(history, start, disk) && Covered(history, start, disk.log, st)
    && Resumable(history, start, disk.log, st, oldest)
  }

  /** Some entry of the log is not where a run of history from the start has it. */
  predicate Holed<T(==)>(history: seq<Entry<T>>, start: nat, log: seq<Entry<T>>) {
    !Good(history, start, Disk(log, None))
  }

  /** There is a hole, or all further reading starts past an unread event. */
  predicate Lost<T(==)>(history: seq<Entry<T>>, start: nat, log: seq<Entry<T>>, st: St, oldest: nat) {
    || Holed(history, start, log)
    || (&& Origin(history, start) + |log| < Count(history, LowerBound(FromLedger(Max(st.lastLedger + 1, oldest))))
        && (st.cursor.Some? ==> Origin(history, start) + |log| < Count(history, st.cursor.value)))
  }

  predicate Right<T(==)>(history: seq<Entry<T>>, start: nat, disk: Disk<T>, st: St, oldest: nat, slipped: bool) {
    if slipped then Lost(history, start, disk.log, st, oldest) else NoGap(history, start, disk, st, oldest)
  }

  /** What a flag the next pass keeps is worth. */
  predicate Judged<T(==)>(history: seq<Entry<T>>, start: nat, disk: Disk<T>, oldest: nat, slipped: bool) {
    Vouched(disk.state, oldest) ==> Right(history, start, disk, disk.state.value, oldest, slipped)
  }

  /** The same of the pass's own flag; once down, it is down on the disk as well. */
  predicate JudgedPass<T(==)>(history: seq<Entry<T>>, start: nat, p: Progress<T>, oldest: nat, slipped: bool) {
    && Judged(history, start, p.disk, oldest, slipped)
    && (p.outcome != Died ==>
          if p.st.complete then Right(history, start, p.disk, p.st, oldest, slipped)
          else !Vouched(p.disk.state, oldest))
  }

  /** What is lost stays lost: reading only moves on. */
  lemma LostForGood<T>(history: seq<Entry<T>>, start: nat, log: seq<Entry<T>>, st: St, st': St, oldest: nat,
                       oldest': nat)
    requires Lost(history, start, log, st, oldest) && st.lastLedger <= st'.lastLedger && oldest <= oldest'
    requires st'.cursor == st.cursor || st'.cursor.None?
    ensures Lost(history, start, log, st', oldest')
  {
    CountIsMonotone(history, LowerBound(FromLedger(Max(st.lastLedger + 1, oldest))),
                    LowerBound(FromLedger(Max(st'.lastLedger + 1, oldest'))));
  }

  /** A disk is never both. */
  lemma LostIsNoGap<T>(history: seq<Entry<T>>, start: nat, disk: Disk<T>, st: St, oldest: nat)
    requires Lost(history, start, disk.log, st, oldest)
    ensures !NoGap(history, start, disk, st, oldest)
  {
  }

  // ---- one reply ----

  /** The pass goes on, or ends, with its flag up, and will enter by ledger past an unread event. */
  predicate Slips<T>(history: seq<Entry<T>>, start: nat, p: Progress<T>, oldest: nat) {
    p.outcome != Died && p.st.complete && !Resumable(history, start, p.disk.log, p.st, oldest)
  }

  lemma RejectionIsJudged<T>(history: seq<Entry<T>>, start: nat, p: Progress<T>, env: Env<T>, slipped: bool)
    requires JudgedPass(history, start, p, env.oldest, slipped) && p.outcome == Next
    ensures var p' := TakeReply(p.disk, p.st, env, Rejected, p.lives);
            JudgedPass(history, start, p', env.oldest, slipped || Slips(history, start, p', env.oldest))
  {
    if p.lives > 0 && p.st.complete && slipped {
      LostForGood(history, start, p.disk.log, p.st, AfterRejection(p.st, env), env.oldest, env.oldest);
    }
  }

  lemma PageWithoutFlag<T>(history: seq<Entry<T>>, start: nat, p: Progress<T>, env: Env<T>, reply: Reply<T>,
                           slipped: bool)
    requires JudgedPass(history, start, p, env.oldest, slipped) && p.outcome == Next && !p.st.complete && reply.Page?
    ensures var p' := TakePage(p.disk, p.st, env, reply, p.lives);
            && JudgedPass(history, start, p', env.oldest, slipped)
            && !Slips(history, start, p', env.oldest)
  {
    PageWrites(p, env, reply);
  }

  /** A page taken with nothing lost yet: the disk stays right, whatever the page managed to write. */
  lemma PageKeepsRight<T(!new)>(history: seq<Entry<T>>, start: nat, p: Progress<T>, env: Env<T>, reply: Reply<T>)
    requires Sorted(history) && JudgedPass(history, start, p, env.oldest, false) && p.outcome == Next && p.st.complete
    requires reply.Page? && Serves(history, RequestOf(p.st, env), reply)
    ensures var p' := TakePage(p.disk, p.st, env, reply, p.lives);
            JudgedPass(history, start, p', env.oldest, Slips(history, start, p', env.oldest))
  {
    PageKeeps(history, start, p, env, reply);
    PageWrites(p, env, reply);
    RightIsKept(history, start, p, TakePage(p.disk, p.st, env, reply, p.lives), env.oldest);
  }

  lemma RightIsKept<T>(history: seq<Entry<T>>, start: nat, p: Progress<T>, p': Progress<T>, oldest: nat)
    requires Judged(history, start, p.disk, oldest, false) && Ready(history, start, p', oldest)
    requires p'.outcome != Died ==> p'.st.complete
    requires |p.disk.log| <= |p'.disk.log|
    requires if p'.outcome == Died then p'.disk.state == p.disk.state
             else && p'.disk.state.Some? && p'.disk.state.value.cursor == p'.st.cursor
                  && (p'.st.cursor.None? ==> p'.st == p'.disk.state.value)
    ensures JudgedPass(history, start, p', oldest, Slips(history, start, p', oldest))
  {
  }

  lemma RunsHaveRunsBefore<T>(history: seq<Entry<T>>, start: nat, log: seq<Entry<T>>, batch: seq<Entry<T>>)
    requires Good(history, start, Disk(log + batch, None))
    ensures Good(history, start, Disk(log, None))
  {
    var s := Origin(history, start);
    assert log == (log + batch)[..|log|];
    assert history[s..s + |log + batch|][..|log|] == history[s..s + |log|];
  }

  /** A hole is never filled: the log only grows at its end. */
  lemma HoleStays<T>(history: seq<Entry<T>>, start: nat, log: seq<Entry<T>>, batch: seq<Entry<T>>)
    requires Holed(history, start, log)
    ensures Holed(history, start, log + batch)
  {
    if !Holed(history, start, log + batch) {
      RunsHaveRunsBefore(history, start, log, batch);
    }
  }

  /** A page read past an unread event makes a hole; an empty one only moves the cursor on. */
  lemma LostPage<T(!new)>(history: seq<Entry<T>>, start: nat, log: seq<Entry<T>>, st: St, env: Env<T>, reply: Reply<T>)
    requires Sorted(history) && Lost(history, start, log, st, env.oldest)
    requires reply.Page? && Serves(history, RequestOf(st, env), reply)
    ensures var batch := Fresh(reply.events, Ids(log));
            && Lost(history, start, log + batch, AfterPage(st, batch, reply.cursor), env.oldest)
            && (batch != [] ==> Holed(history, start, log + batch))
  {
    var batch := Fresh(reply.events, Ids(log));
    if Holed(history, start, log) {
      HoleStays(history, start, log, batch);
    } else if reply.events != [] {
      LaterPageSkips(history, start, Disk(log, None), RequestOf(st, env), reply, None);
    } else {
      assert log + batch == log;
      if reply.cursor.Some? {
        CountIsMonotone(history, LowerBound(RequestOf(st, env)), reply.cursor.value);
      }
    }
  }

  /** A page taken after a slip: what was lost stays lost. */
  lemma PageKeepsLost<T(!new)>(history: seq<Entry<T>>, start: nat, p: Progress<T>, env: Env<T>, reply: Reply<T>)
    requires Sorted(history) && JudgedPass(history, start, p, env.oldest, true) && p.outcome == Next && p.st.complete
    requires reply.Page? && Serves(history, RequestOf(p.st, env), reply)
    ensures JudgedPass(history, start, TakePage(p.disk, p.st, env, reply, p.lives), env.oldest, true)
  {
    LostPage(history, start, p.disk.log, p.st, env, reply);
    PageWrites(p, env, reply);
    var p' := TakePage(p.disk, p.st, env, reply, p.lives);
    if p'.outcome != Died {
      LostForGood(history, start, p'.disk.log, p'.disk.state.value, p'.st, env.oldest, env.oldest);
    } else {
      assert p.disk.log + [] == p.disk.log;
    }
  }

  lemma ReplyIsJudged<T(!new)>(history: seq<Entry<T>>, start: nat, p: Progress<T>, env: Env<T>, reply: Reply<T>,
                               slipped: bool)
    requires Sorted(history) && JudgedPass(history, start, p, env.oldest, slipped) && p.outcome == Next
    requires reply.Page? ==> Serves(history, RequestOf(p.st, env), reply)
    ensures var p' := TakeReply(p.disk, p.st, env, reply, p.lives);
            JudgedPass(history, start, p', env.oldest, slipped || Slips(history, start, p', env.oldest))
  {
    if reply.Rejected? {
      RejectionIsJudged(history, start, p, env, slipped);
    } else if reply.Page? {
      if !p.st.complete {
        PageWithoutFlag(history, start, p, env, reply, slipped);
      } else if slipped {
        PageKeepsLost(history, start, p, env, reply);
      } else {
        PageKeepsRight(history, start, p, env, reply);
      }
    }
  }

  // ---- one pass ----

  /** Every page along the loop is faithful to what was asked. */
  ghost predicate Faithful<T(!new)>(history: seq<Entry<T>>, p: Progress<T>, env: Env<T>, page: nat)
    decreases env.maxPages - page
  {
    p.outcome == Next && page < env.maxPages ==>
      var reply := env.rpc(page, RequestOf(p.st, env));
      && (reply.Page? ==> Serves(history, RequestOf(p.st, env), reply))
      && Faithful(history, TakeReply(p.disk, p.st, env, reply, p.lives), env, page + 1)
  }

  /** Somewhere along the loop the pass slips. */
  predicate SlipsInPass<T>(history: seq<Entry<T>>, start: nat, p: Progress<T>, env: Env<T>, page: nat)
    decreases env.maxPages - page
  {
    && p.outcome == Next && page < env.maxPages
    && var p' := TakeReply(p.disk, p.st, env, env.rpc(page, RequestOf(p.st, env)), p.lives);
       Slips(history, start, p', env.oldest) || SlipsInPass(history, start, p', env, page + 1)
  }

  lemma FinishIsJudged<T>(history: seq<Entry<T>>, start: nat, p: Progress<T>, oldest: nat, slipped: bool)
    requires JudgedPass(history, start, p, oldest, slipped) && p.outcome != Died
    ensures Judged(history, start, Finish(p.disk, p.st, p.lives), oldest, slipped)
  {
  }

  lemma {:induction false} PagesAreJudged<T(!new)>(
    history: seq<Entry<T>>, start: nat, p: Progress<T>, env: Env<T>, page: nat, slipped: bool)
    requires Sorted(history) && JudgedPass(history, start, p, env.oldest, slipped) && Faithful(history, p, env, page)
    ensures Judged(history, start, Pages(p, env, page), env.oldest,
                   slipped || SlipsInPass(history, start, p, env, page))
    decreases env.maxPages - page
  {
    if p.outcome == Died {
    } else if p.outcome == Next && page < env.maxPages {
      var reply := env.rpc(page, RequestOf(p.st, env));
      var p' := TakeReply(p.disk, p.st, env, reply, p.lives);
      ReplyIsJudged(history, start, p, env, reply, slipped);
      PagesAreJudged(history, start, p', env, page + 1, slipped || Slips(history, start, p', env.oldest));
      assert Pages(p, env, page) == Pages(p', env, page + 1);
    } else {
      FinishIsJudged(history, start, p, env.oldest, slipped);
    }
  }

  // ---- starting ----

  /** A cold start puts the flag up on a log it does not join. */
  predicate SlipsAtStart<T(==)>(history: seq<Entry<T>>, start: nat, disk: Disk<T>, env: Env<T>) {
    && Begin(disk.state, env).complete
    && !(Good(history, start, disk) && Resumable(history, start, disk.log, Begin(disk.state, env), env.oldest))
  }

  /** Whether the index has slipped by the end of a pass; only what happened since a cold start counts. */
  predicate SlippedAfter<T(==)>(history: seq<Entry<T>>, start: nat, disk: Disk<T>, env: Env<T>, before: bool) {
    || (if disk.state.None? then SlipsAtStart(history, start, disk, env) else before)
    || SlipsInPass(history, start, Started(disk, env), env, 0)
  }

  lemma ColdStartIsJudged<T>(history: seq<Entry<T>>, start: nat, disk: Disk<T>, env: Env<T>)
    requires disk.state.None? && StartOf(env) >= start
    ensures JudgedPass(history, start, Started(disk, env), env.oldest, SlipsAtStart(history, start, disk, env))
  {
  }

  lemma WarmStartIsJudged<T>(history: seq<Entry<T>>, start: nat, disk: Disk<T>, oldest: nat, env: Env<T>, slipped: bool)
    requires disk.state.Some? && Judged(history, start, disk, oldest, slipped) && oldest <= env.oldest
    ensures JudgedPass(history, start, Started(disk, env), env.oldest, slipped)
  {
    if Vouched(disk.state, env.oldest) && slipped {
      LostForGood(history, start, disk.log, disk.state.value, disk.state.value, oldest, env.oldest);
    }
  }

  /** The world of one pass: retention only moves forward, cold starts are late enough, pages faithful. */
  ghost predicate Meets<T(!new)>(history: seq<Entry<T>>, start: nat, disk: Disk<T>, oldest: nat, env: Env<T>) {
    && oldest <= env.oldest && (disk.state.None? ==> StartOf(env) >= start)
    && Faithful(history, Started(disk, env), env, 0)
  }

  lemma PassIsJudged<T(!new)>(
    history: seq<Entry<T>>, start: nat, disk: Disk<T>, oldest: nat, env: Env<T>, slipped: bool)
    requires Sorted(history) && Judged(history, start, disk, oldest, slipped)
    requires Meets(history, start, disk, oldest, env)
    ensures Judged(history, start, PassOn(disk, env), env.oldest, SlippedAfter(history, start, disk, env, slipped))
  {
    if disk.state.None? {
      ColdStartIsJudged(history, start, disk, env);
      PagesAreJudged(history, start, Started(disk, env), env, 0, SlipsAtStart(history, start, disk, env));
    } else {
      WarmStartIsJudged(history, start, disk, oldest, env, slipped);
      PagesAreJudged(history, start, Started(disk, env), env, 0, slipped);
    }
  }

  // ---- any sessions ----

  /** What the RPC still holds after the last of these sessions. */
  function Retained<T>(oldest: nat, sessions: seq<Session<T>>): nat {
    if sessions == [] then oldest else sessions[|sessions| - 1].env.oldest
  }

  ghost predicate AllMeet<T(!new)>(history: seq<Entry<T>>, start: nat, disk: Disk<T>, oldest: nat,
                                   sessions: seq<Session<T>>)
    decreases |sessions|
  {
    sessions != [] ==>
      var resumed, env := ClearedIf(disk, sessions[0]), sessions[0].env;
      && Meets(history, start, resumed, oldest, env)
      && AllMeet(history, start, PassOn(resumed, env), env.oldest, sessions[1..])
  }

  predicate Slipped<T(==)>(history: seq<Entry<T>>, start: nat, disk: Disk<T>, sessions: seq<Session<T>>, before: bool)
    decreases |sessions|
  {
    if sessions == [] then before
    else
      var resumed, env := ClearedIf(disk, sessions[0]), sessions[0].env;
      Slipped(history, start, PassOn(resumed, env), sessions[1..], SlippedAfter(history, start, resumed, env, before))
  }

  lemma {:induction false} SessionsAreJudged<T(!new)>(
    history: seq<Entry<T>>, start: nat, disk: Disk<T>, oldest: nat, sessions: seq<Session<T>>, slipped: bool)
    requires Sorted(history) && Judged(history, start, disk, oldest, slipped)
    requires AllMeet(history, start, disk, oldest, sessions)
    ensures Judged(history, start, Passes(disk, sessions), Retained(oldest, sessions),
                   Slipped(history, start, disk, sessions, slipped))
    decreases |sessions|
  {
    if sessions != [] {
      var resumed, env := ClearedIf(disk, sessions[0]), sessions[0].env;
      PassIsJudged(history, start, resumed, oldest, env, slipped);
      SessionsAreJudged(history, start, PassOn(resumed, env), env.oldest, sessions[1..],
                        SlippedAfter(history, start, resumed, env, slipped));
      assert Retained(oldest, sessions) == Retained(env.oldest, sessions[1..]);
    }
  }

  /**
   Whatever retention was lost on the way, wherever passes died, and whenever the state was reset:
   a flag that is up, and that the next pass would keep, stands for a log without a gap if and only
   if the index has not slipped since its last cold start.
   */
  lemma {:induction false} FlagMeansNoGapExactlyWhen<T(!new)>(history: seq<Entry<T>>, start: nat,
                                                       sessions: seq<Session<T>>)
    requires Sorted(history) && AllMeet(history, start, Disk([], None), 0, sessions)
    ensures var disk, oldest := Passes(Disk([], None), sessions), Retained(0, sessions);
            Vouched(disk.state, oldest) ==>
              && (NoGap(history, start, disk, disk.state.value, oldest)
                  <==> !Slipped(history, start, Disk([], None), sessions, false))
              && (NoGap(history, start, disk, disk.state.value, oldest) ==> IsAPrefixFrom(history, start, disk))
  {
    var disk, oldest := Passes(Disk([], None), sessions), Retained(0, sessions);
    SessionsAreJudged(history, start, Disk([], None), 0, sessions, false);
    if Vouched(disk.state, oldest) {
      if Slipped(history, start, Disk([], None), sessions, false) {
        LostIsNoGap(history, start, disk, disk.state.value, oldest);
      } else {
        GoodIsAPrefix(history, start, disk);
      }
    }
  }

  // ---- how a flag comes to be wrong: a cursor rejected inside a ledger ----

  /** Everything up to and including the last ledger noted has been logged. */
  predicate EndsItsLedger<T>(history: seq<Entry<T>>, start: nat, log: seq<Entry<T>>, st: St) {
    Count(history, (st.lastLedger + 1) * POSITIONS_PER_LEDGER - 1) <= Origin(history, start) + |log|
  }

  /**
   After a rejected cursor, a flag that stays up is right about the next page that says anything
   if and only if the log had reached the end of its last ledger.
   */
  lemma FlagIsRightExactlyWhen<T(!new)>(history: seq<Entry<T>>, start: nat, disk: Disk<T>, st: St, env: Env<T>,
                                        reply: Reply<T>)
    requires Sorted(history) && Good(history, start, disk) && Covered(history, start, disk.log, st)
    requires reply.Page? && Serves(history, RequestOf(AfterRejection(st, env), env), reply)
    requires AfterRejection(st, env).complete
    ensures Good(history, start, Saved(disk, AfterRejection(st, env), reply))
       <==> EndsItsLedger(history, start, disk.log, st) || SaysNothing(reply)
  {
    EndingIsResumable(history, start, disk.log, st, env);
    ReEntryIsSafeExactlyWhen(history, start, disk, AfterRejection(st, env), env, reply);
  }

  /** With the flag still up the RPC holds the next ledger, so only this one can be cut short. */
  lemma EndingIsResumable<T>(history: seq<Entry<T>>, start: nat, log: seq<Entry<T>>, st: St, env: Env<T>)
    requires AfterRejection(st, env).complete
    ensures Resumable(history, start, log, AfterRejection(st, env), env.oldest)
       <==> EndsItsLedger(history, start, log, st)
  {
  }

  // ---- a reset, or a death before the first save ----

  /**
   A cold start on a log that is already there is right about the first page that says anything if
   and only if that log has no hole and nothing unread lies below the ledger it enters at.
   */
  lemma ColdStartIsRightExactlyWhen<T(!new)>(history: seq<Entry<T>>, start: nat, disk: Disk<T>, env: Env<T>,
                                             reply: Reply<T>)
    requires Sorted(history) && disk.state.None? && StartOf(env) >= start
    requires reply.Page? && Serves(history, RequestOf(Begin(disk.state, env), env), reply)
    ensures Good(history, start, Saved(disk, Begin(disk.state, env), reply))
       <==> Good(history, start, disk)
            && (Resumable(history, start, disk.log, Begin(disk.state, env), env.oldest) || SaysNothing(reply))
  {
    if Good(history, start, disk) {
      ReEntryIsSafeExactlyWhen(history, start, disk, Begin(disk.state, env), env, reply);
    } else {
      HoleStays(history, start, disk.log, Fresh(reply.events, Ids(disk.log)));
    }
  }

  // ---- a flag taken down in memory and not on the disk ----

  predicate FlagUp<T>(disk: Disk<T>) {
    disk.state.Some? && disk.state.value.complete
  }

  lemma {:induction false} DownStaysDown<T>(p: Progress<T>, env: Env<T>, page: nat)
    requires p.disk.state.Some? && !FlagUp(p.disk) && !p.st.complete
    ensures !FlagUp(Pages(p, env, page))
    decreases env.maxPages - page
  {
    if p.outcome == Next && page < env.maxPages {
      var reply := env.rpc(page, RequestOf(p.st, env));
      DownStaysDown(TakeReply(p.disk, p.st, env, reply, p.lives), env, page + 1);
    }
  }

  /** The pass appends its first page and dies before it saves. */
  predicate AppendsAndDies<T>(disk: Disk<T>, env: Env<T>, reply: Reply<T>) {
    env.maxPages > 0 && env.lives == 1 && reply.Page? && Fresh(reply.events, Ids(disk.log)) != []
  }

  /** A pass that takes the flag down saves that with its first write, unless that write is an append. */
  lemma TakenDown<T>(disk: Disk<T>, env: Env<T>, reply: Reply<T>)
    requires FlagUp(disk) && !Begin(disk.state, env).complete
    requires reply == env.rpc(0, RequestOf(Begin(disk.state, env), env))
    ensures AppendsAndDies(disk, env, reply) ==>
              PassOn(disk, env) == disk.(log := disk.log + Fresh(reply.events, Ids(disk.log)))
    ensures !AppendsAndDies(disk, env, reply) ==> !FlagUp(PassOn(disk, env)) || PassOn(disk, env) == disk
  {
    var p := Started(disk, env);
    if env.maxPages > 0 {
      var p' := TakeReply(p.disk, p.st, env, reply, p.lives);
      assert Pages(p, env, 0) == Pages(p', env, 1);
      if reply.Page? {
        PageWrites(p, env, reply);
      }
      if p'.outcome == Died {
        assert disk.log + [] == disk.log;
      } else {
        DownStaysDown(p', env, 1);
      }
    }
  }

  /**
   Why the flag counts only as the next pass takes it. A pass that finds its position out of
   retention takes the flag down; from a disk that is right, the flag is left up over a hole if and
   only if the first page has events, starts past an unread one, and the pass dies between
   appending them and the save. The next pass does not believe it.
   */
  lemma {:induction false} FlagLeftUpExactlyWhen<T(!new)>(history: seq<Entry<T>>, start: nat, disk: Disk<T>,
                                                   env: Env<T>, reply: Reply<T>)
    requires Sorted(history) && Good(history, start, disk) && FlagUp(disk)
    requires disk.state.value.cursor.None? && disk.state.value.lastLedger < env.oldest
    requires reply == env.rpc(0, FromLedger(env.oldest))
    requires reply.Page? ==> Serves(history, FromLedger(env.oldest), reply)
    ensures (FlagUp(PassOn(disk, env)) && !Good(history, start, PassOn(disk, env)))
       <==> (&& env.maxPages > 0 && env.lives == 1 && reply.Page? && reply.events != []
             && Origin(history, start) + |disk.log| < Count(history, LowerBound(FromLedger(env.oldest))))
    ensures !Vouched(disk.state, env.oldest)
    ensures FlagUp(PassOn(disk, env)) ==> PassOn(disk, env).state == disk.state
  {
    var req := FromLedger(env.oldest);
    TakenDown(disk, env, reply);
    if reply.Page? && reply.events != [] {
      if Origin(history, start) + |disk.log| < Count(history, LowerBound(req)) {
        LaterPageSkips(history, start, disk, req, reply, disk.state);
      } else {
        LogStaysGood(history, start, disk, Begin(disk.state, env), env, reply);
      }
    }
  }
}
