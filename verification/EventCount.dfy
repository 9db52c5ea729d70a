/**
 The saved event count and the length of the log: exactly which passes and resets drive them
 apart. Once they differ they differ for good, so the length of the log is the true count.
 */
module EventCount {
  import opened Ledger
  import opened Indexer
  import opened CrashSafety

  /** Logged entries the saved count misses; a missing state counts none. */
  function Uncounted<T>(disk: Disk<T>): int {
    |disk.log| - if disk.state.Some? then disk.state.value.events else 0
  }

  /** The process dies after this reply's append and before the save that would count it. */
  predicate DiesUncounted<T>(p: Progress<T>, reply: Reply<T>) {
    reply.Page? && Fresh(reply.events, Ids(p.disk.log)) != [] && p.lives == 1
  }

  /** Somewhere along the page loop it does. */
  predicate PassDiesUncounted<T>(p: Progress<T>, env: Env<T>, page: nat)
    decreases env.maxPages - page
  {
    && p.outcome == Next && page < env.maxPages
    && var reply := env.rpc(page, RequestOf(p.st, env));
       (|| DiesUncounted(p, reply)
        || PassDiesUncounted(TakeReply(p.disk, p.st, env, reply, p.lives), env, page + 1))
  }

  /** The disk and the pass's own memory miss the same number of entries. */
  predicate Missing<T>(p: Progress<T>, d: int) {
    Uncounted(p.disk) == d && (p.outcome != Died ==> |p.disk.log| - p.st.events == d)
  }

  /** One page leaves the count as far behind as it was, or dies before counting what it added. */
  lemma PageCount<T>(p: Progress<T>, env: Env<T>, reply: Reply<T>, d: int)
    requires p.outcome == Next && Missing(p, d)
    ensures var p' := TakeReply(p.disk, p.st, env, reply, p.lives);
            if DiesUncounted(p, reply) then p'.outcome == Died && Uncounted(p'.disk) > d else Missing(p', d)
  {
  }

  lemma {:induction false} PagesCount<T>(p: Progress<T>, env: Env<T>, page: nat, d: int)
    requires Missing(p, d)
    ensures if PassDiesUncounted(p, env, page) then Uncounted(Pages(p, env, page)) > d
            else Uncounted(Pages(p, env, page)) == d
    decreases env.maxPages - page
  {
    if p.outcome == Next && page < env.maxPages {
      var reply := env.rpc(page, RequestOf(p.st, env));
      var p' := TakeReply(p.disk, p.st, env, reply, p.lives);
      PageCount(p, env, reply, d);
      assert Pages(p, env, page) == Pages(p', env, page + 1);
      if !DiesUncounted(p, reply) {
        PagesCount(p', env, page + 1, d);
      }
    }
  }

  /** A pass leaves the count as far behind as it was exactly when it does not die uncounted. */
  lemma {:induction false} PassCount<T>(disk: Disk<T>, env: Env<T>)
    ensures Uncounted(PassOn(disk, env)) >= Uncounted(disk)
    ensures Uncounted(PassOn(disk, env)) == Uncounted(disk) <==> !PassDiesUncounted(Started(disk, env), env, 0)
  {
    PagesCount(Started(disk, env), env, 0, Uncounted(disk));
  }

  // ---- sessions ----

  /** Clearing a state that had counted something forgets it, while the log stays. */
  predicate ForgetsCount<T>(disk: Disk<T>, s: Session<T>) {
    s.reset && disk.state.Some? && disk.state.value.events > 0
  }

  predicate LosesCount<T>(disk: Disk<T>, s: Session<T>) {
    ForgetsCount(disk, s) || PassDiesUncounted(Started(ClearedIf(disk, s), s.env), s.env, 0)
  }

  predicate AnyLosesCount<T>(disk: Disk<T>, sessions: seq<Session<T>>)
    decreases |sessions|
  {
    && sessions != []
    && (|| LosesCount(disk, sessions[0])
        || AnyLosesCount(PassOn(ClearedIf(disk, sessions[0]), sessions[0].env), sessions[1..]))
  }

  lemma SessionCount<T>(disk: Disk<T>, s: Session<T>)
    ensures var disk' := PassOn(ClearedIf(disk, s), s.env);
            && Uncounted(disk') >= Uncounted(disk)
            && (Uncounted(disk') == Uncounted(disk) <==> !LosesCount(disk, s))
  {
    PassCount(ClearedIf(disk, s), s.env);
  }

  /** Over any sessions: the entries not counted never get fewer, and stay the same only if no session loses count. */
  lemma {:induction false} UncountedNeverShrinks<T>(disk: Disk<T>, sessions: seq<Session<T>>)
    ensures Uncounted(Passes(disk, sessions)) >= Uncounted(disk)
    ensures Uncounted(Passes(disk, sessions)) == Uncounted(disk) <==> !AnyLosesCount(disk, sessions)
    decreases |sessions|
  {
    if sessions != [] {
      SessionCount(disk, sessions[0]);
      UncountedNeverShrinks(PassOn(ClearedIf(disk, sessions[0]), sessions[0].env), sessions[1..]);
    }
  }

  /**
   From an empty disk, the saved count is the length of the log exactly when no pass died between
   an append and its save, and no reset cleared a state that had counted something.
   */
  lemma {:induction false} CountIsTheLengthExactlyWhen<T>(sessions: seq<Session<T>>)
    ensures Uncounted(Passes(Disk([], None), sessions)) == 0 <==> !AnyLosesCount(Disk([], None), sessions)
  {
    UncountedNeverShrinks(Disk([], None), sessions);
  }

  /** A death between any append of a pass and its save leaves the count short, whatever runs later. */
  lemma {:induction false} CrashLeavesCountShort<T>(disk: Disk<T>, env: Env<T>, later: seq<Session<T>>)
    requires Uncounted(disk) >= 0 && PassDiesUncounted(Started(disk, env), env, 0)
    ensures Uncounted(Passes(PassOn(disk, env), later)) > 0
  {
    PassCount(disk, env);
    UncountedNeverShrinks(PassOn(disk, env), later);
  }

  /** So does a reset after anything was counted, with no death at all. */
  lemma {:induction false} ResetLeavesCountShort<T>(disk: Disk<T>, s: Session<T>, later: seq<Session<T>>)
    requires Uncounted(disk) >= 0 && ForgetsCount(disk, s)
    ensures Uncounted(Passes(PassOn(ClearedIf(disk, s), s.env), later)) > 0
  {
    SessionCount(disk, s);
    UncountedNeverShrinks(PassOn(ClearedIf(disk, s), s.env), later);
  }
}
