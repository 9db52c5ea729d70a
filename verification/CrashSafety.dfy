/**
 Crash-safe indexing: for every interleaving of passes, crashes and state resets the log is a
 prefix, in order, without gaps or duplicates, of the chain's events from the start point, and
 reaches at least as far as the saved cursor.

 Assumed of the world: appends and saves are all-or-nothing, pages are faithful runs of the
 final history, and whenever a pass must enter by ledger (a cold start, a state saved without a
 cursor, or a cursor the RPC rejects) nothing unread lies below the ledger it enters at.
 `ReEntry` shows that the last assumption is the exact one.
 */
module CrashSafety {
  import opened Ledger
  import opened Indexer

  // ---- the chain, as the RPC will ever show it ----

  ghost predicate Sorted<T>(history: seq<Entry<T>>) {
    forall i, j :: 0 <= i < j < |history| ==> history[i].id < history[j].id
  }

  /** How many events of the history lie at or below position `hi`. */
  function Count<T>(history: seq<Entry<T>>, hi: int): (n: nat)
    ensures n <= |history|
    ensures forall i :: 0 <= i < n ==> history[i].id <= hi
    ensures n < |history| ==> history[n].id > hi
  {
    if history == [] || history[0].id > hi then 0
    else
      var rest := Count(history[1..], hi);
      assert forall i :: 0 <= i < rest ==> history[1..][i] == history[i + 1];
      rest + 1
  }

  function LowerBound(req: Request): int {
    match req
    case AfterCursor(c) => c
    case FromLedger(l) => l * POSITIONS_PER_LEDGER - 1
  }

  /** Where a page stops: at its cursor, or after its last event when it comes without one. */
  function PageStop<T>(history: seq<Entry<T>>, req: Request, reply: Reply<T>): nat
    requires reply.Page?
  {
    if reply.cursor.Some? then Count(history, reply.cursor.value) else Count(history, LowerBound(req)) + |reply.events|
  }

  /** A page is the history from the request's position to where the page stops. */
  ghost predicate Serves<T(!new)>(history: seq<Entry<T>>, req: Request, reply: Reply<T>)
    requires reply.Page?
  {
    && (reply.cursor.Some? ==> LowerBound(req) <= reply.cursor.value)
    && Count(history, LowerBound(req)) <= PageStop(history, req, reply) <= |history|
    && reply.events == history[Count(history, LowerBound(req))..PageStop(history, req, reply)]
  }

  function Origin<T>(history: seq<Entry<T>>, start: nat): nat {
    Count(history, start * POSITIONS_PER_LEDGER - 1)
  }

  /** The state has covered no more than the log, and counted no more than it holds. */
  predicate Covered<T>(history: seq<Entry<T>>, start: nat, log: seq<Entry<T>>, st: St) {
    && (st.cursor.Some? ==> Origin(history, start) <= Count(history, st.cursor.value) <= Origin(history, start) + |log|)
    && start - 1 <= st.lastLedger
    && st.events <= |log|
  }

  /** Nothing unread lies below the ledger a pass without a cursor enters at. */
  predicate Resumable<T>(history: seq<Entry<T>>, start: nat, log: seq<Entry<T>>, st: St, oldest: nat) {
    st.cursor.None? ==>
      Count(history, LowerBound(FromLedger(Max(st.lastLedger + 1, oldest)))) <= Origin(history, start) + |log|
  }

  /** The disk is right: a gap-free run of history from the start, at least up to the cursor. */
  predicate Good<T(==)>(history: seq<Entry<T>>, start: nat, disk: Disk<T>) {
    var s := Origin(history, start);
    && s + |disk.log| <= |history|
    && disk.log == history[s..s + |disk.log|]
    && (disk.state.Some? ==> Covered(history, start, disk.log, disk.state.value))
  }

  // ---- dropping what was already logged ----

  lemma {:induction false} AllFresh<T>(page: seq<Entry<T>>, seen: set<nat>)
    requires Sorted(page) && forall i :: 0 <= i < |page| ==> page[i].id !in seen
    ensures Fresh(page, seen) == page
  {
    if page != [] {
      AllFresh(page[1..], seen + {page[0].id});
    }
  }

  /** What is new in `history[i..j]` once `history[s..m]` is logged: whatever lies past `m`. */
  lemma {:induction false} FreshIsTheTail<T>(history: seq<Entry<T>>, s: nat, m: nat, i: nat, j: nat)
    requires Sorted(history) && s <= i <= m <= |history| && i <= j <= |history|
    ensures Fresh(history[i..j], Ids(history[s..m])) == if j <= m then [] else history[m..j]
    decreases m - i
  {
    if i == m {
      AllFresh(history[m..j], Ids(history[s..m]));
    } else if i < j {
      FirstIsSeen(history, s, m, i, j);
      FreshIsTheTail(history, s, m, i + 1, j);
    }
  }

  lemma FirstIsSeen<T>(history: seq<Entry<T>>, s: nat, m: nat, i: nat, j: nat)
    requires s <= i < m <= |history| && i < j <= |history|
    ensures Fresh(history[i..j], Ids(history[s..m])) == Fresh(history[i + 1..j], Ids(history[s..m]))
  {
    assert history[i..j][0] == history[i] == history[s..m][i - s];
    assert history[i..j][1..] == history[i + 1..j];
  }

  // ---- one page ----

  /** The pass's own memory agrees with the disk it works on. */
  predicate Ready<T(==)>(history: seq<Entry<T>>, start: nat, p: Progress<T>, oldest: nat) {
    && Good(history, start, p.disk)
    && (p.outcome != Died ==> Covered(history, start, p.disk.log, p.st))
    && (p.outcome == Next ==> Resumable(history, start, p.disk.log, p.st, oldest))
  }

  lemma {:induction false} CountIsMonotone<T>(history: seq<Entry<T>>, a: int, b: int)
    requires a <= b
    ensures Count(history, a) <= Count(history, b)
  {
    if history != [] && history[0].id <= a {
      CountIsMonotone(history[1..], a, b);
    }
  }

  lemma {:induction false} RequestIsCovered<T>(history: seq<Entry<T>>, start: nat, log: seq<Entry<T>>, st: St,
                                               env: Env<T>)
    requires Covered(history, start, log, st) && Resumable(history, start, log, st, env.oldest)
    ensures var lo := Count(history, LowerBound(RequestOf(st, env)));
            Origin(history, start) <= lo <= Origin(history, start) + |log|
  {
    if st.cursor.None? {
      assert start <= Max(st.lastLedger + 1, env.oldest);
      CountIsMonotone(history, start * POSITIONS_PER_LEDGER - 1, LowerBound(RequestOf(st, env)));
    }
  }

  /** What a page leaves in the log: the same run of history, extended to the page's end. */
  lemma {:induction false} PageExtends<T>(history: seq<Entry<T>>, s: nat, m: nat, log: seq<Entry<T>>, i: nat, j: nat,
                                          page: seq<Entry<T>>)
    requires Sorted(history) && s <= i <= m <= |history| && i <= j <= |history|
    requires log == history[s..m] && page == history[i..j]
    ensures log + Fresh(page, Ids(log)) == history[s..Max(m, j)]
  {
    FreshIsTheTail(history, s, m, i, j);
  }

  lemma GoodGrows<T>(history: seq<Entry<T>>, start: nat, disk: Disk<T>, batch: seq<Entry<T>>, k: nat)
    requires Good(history, start, disk)
    requires Origin(history, start) + |disk.log| <= k <= |history|
    requires disk.log + batch == history[Origin(history, start)..k]
    ensures Good(history, start, disk.(log := disk.log + batch))
  {
  }

  /** Where the pass dies within a page makes no difference to what its writes keep. */
  lemma WritesKeep<T>(history: seq<Entry<T>>, start: nat, p: Progress<T>, env: Env<T>, reply: Reply<T>,
                      batch: seq<Entry<T>>, st': St)
    requires reply.Page? && batch == Fresh(reply.events, Ids(p.disk.log)) && st' == AfterPage(p.st, batch, reply.cursor)
    requires Good(history, start, p.disk) && Good(history, start, p.disk.(log := p.disk.log + batch))
    requires Covered(history, start, p.disk.log + batch, st')
    ensures Ready(history, start, TakePage(p.disk, p.st, env, reply, p.lives), env.oldest)
  {
    PageWrites(p, env, reply);
  }

  /** The three disks a page can leave, and what the pass goes on with. */
  lemma PageWrites<T>(p: Progress<T>, env: Env<T>, reply: Reply<T>)
    requires reply.Page?
    ensures var batch := Fresh(reply.events, Ids(p.disk.log));
            var st' := AfterPage(p.st, batch, reply.cursor);
            var appended := p.disk.(log := p.disk.log + batch);
            var p' := TakePage(p.disk, p.st, env, reply, p.lives);
            && (p'.outcome == Died ==> p'.disk == p.disk || p'.disk == appended)
            && (p'.outcome != Died ==>
                  && p'.disk == appended.(state := Some(st'))
                  && p'.st == st'.(lastLedger := p'.st.lastLedger) && p'.st.lastLedger >= st'.lastLedger
                  && (st'.cursor.None? ==> p'.st == st'))
            && (p'.outcome == Next ==> p'.st.cursor.Some?)
  {
  }

  /** Where the log ends once the page is in it. */
  function LogEnd<T>(history: seq<Entry<T>>, start: nat, log: seq<Entry<T>>, req: Request, reply: Reply<T>): int
    requires reply.Page?
  {
    Max(Origin(history, start) + |log|, PageStop(history, req, reply))
  }

  lemma PageIsLogged<T(!new)>(history: seq<Entry<T>>, start: nat, disk: Disk<T>, st: St, env: Env<T>, reply: Reply<T>)
    requires Sorted(history) && Good(history, start, disk)
    requires Covered(history, start, disk.log, st) && Resumable(history, start, disk.log, st, env.oldest)
    requires reply.Page? && Serves(history, RequestOf(st, env), reply)
    ensures disk.log + Fresh(reply.events, Ids(disk.log))
         == history[Origin(history, start)..LogEnd(history, start, disk.log, RequestOf(st, env), reply)]
  {
    RequestIsCovered(history, start, disk.log, st, env);
    var s, req := Origin(history, start), RequestOf(st, env);
    PageExtends(history, s, s + |disk.log|, disk.log, Count(history, LowerBound(req)), PageStop(history, req, reply),
                reply.events);
  }

  /** The log with the page in it, whatever is saved beside it that it covers. */
  lemma LogStaysGood<T(!new)>(history: seq<Entry<T>>, start: nat, disk: Disk<T>, st: St, env: Env<T>, reply: Reply<T>)
    requires Sorted(history) && Good(history, start, disk)
    requires Covered(history, start, disk.log, st) && Resumable(history, start, disk.log, st, env.oldest)
    requires reply.Page? && Serves(history, RequestOf(st, env), reply)
    ensures Good(history, start, disk.(log := disk.log + Fresh(reply.events, Ids(disk.log))))
  {
    PageIsLogged(history, start, disk, st, env, reply);
    GoodGrows(history, start, disk, Fresh(reply.events, Ids(disk.log)),
              LogEnd(history, start, disk.log, RequestOf(st, env), reply));
  }

  lemma CursorIsCovered<T(!new)>(history: seq<Entry<T>>, start: nat, log: seq<Entry<T>>, st: St, env: Env<T>,
                                 reply: Reply<T>, batch: seq<Entry<T>>)
    requires Covered(history, start, log, st) && Resumable(history, start, log, st, env.oldest)
    requires reply.Page? && Serves(history, RequestOf(st, env), reply)
    requires |log + batch| == LogEnd(history, start, log, RequestOf(st, env), reply) - Origin(history, start)
    ensures Covered(history, start, log + batch, AfterPage(st, batch, reply.cursor))
  {
    RequestIsCovered(history, start, log, st, env);
  }

  lemma PageKeeps<T(!new)>(history: seq<Entry<T>>, start: nat, p: Progress<T>, env: Env<T>, reply: Reply<T>)
    requires Sorted(history) && Ready(history, start, p, env.oldest) && p.outcome == Next
    requires reply.Page? && Serves(history, RequestOf(p.st, env), reply)
    ensures Ready(history, start, TakePage(p.disk, p.st, env, reply, p.lives), env.oldest)
  {
    var batch := Fresh(reply.events, Ids(p.disk.log));
    PageIsLogged(history, start, p.disk, p.st, env, reply);
    LogStaysGood(history, start, p.disk, p.st, env, reply);
    CursorIsCovered(history, start, p.disk.log, p.st, env, reply, batch);
    WritesKeep(history, start, p, env, reply, batch, AfterPage(p.st, batch, reply.cursor));
  }

  /** What a pass is served: a faithful page, a failure, or a rejection it can re-enter after. */
  ghost predicate Answers<T(!new)>(history: seq<Entry<T>>, start: nat, p: Progress<T>, env: Env<T>, reply: Reply<T>) {
    match reply
    case Failed => true
    case Rejected => Resumable(history, start, p.disk.log, AfterRejection(p.st, env), env.oldest)
    case Page(_, _, _) => Serves(history, RequestOf(p.st, env), reply)
  }

  lemma ReplyKeeps<T(!new)>(history: seq<Entry<T>>, start: nat, p: Progress<T>, env: Env<T>, reply: Reply<T>)
    requires Sorted(history) && Ready(history, start, p, env.oldest) && p.outcome == Next
    requires Answers(history, start, p, env, reply)
    ensures Ready(history, start, TakeReply(p.disk, p.st, env, reply, p.lives), env.oldest)
  {
    if reply.Page? {
      PageKeeps(history, start, p, env, reply);
    }
  }

  // ---- one pass ----

  lemma FinishKeeps<T>(history: seq<Entry<T>>, start: nat, p: Progress<T>, oldest: nat)
    requires Ready(history, start, p, oldest) && p.outcome != Died
    ensures Good(history, start, Finish(p.disk, p.st, p.lives))
  {
  }

  /** Every reply along the page loop is one of those. */
  ghost predicate AnswersAll<T(!new)>(history: seq<Entry<T>>, start: nat, p: Progress<T>, env: Env<T>, page: nat)
    decreases env.maxPages - page
  {
    p.outcome == Next && page < env.maxPages ==>
      var reply := env.rpc(page, RequestOf(p.st, env));
      && Answers(history, start, p, env, reply)
      && AnswersAll(history, start, TakeReply(p.disk, p.st, env, reply, p.lives), env, page + 1)
  }

  lemma {:induction false} PagesExtend<T>(p: Progress<T>, env: Env<T>, page: nat)
    ensures p.disk.log <= Pages(p, env, page).log
    decreases env.maxPages - page
  {
    if p.outcome == Next && page < env.maxPages {
      var p' := TakeReply(p.disk, p.st, env, env.rpc(page, RequestOf(p.st, env)), p.lives);
      assert p.disk.log <= p'.disk.log;
      PagesExtend(p', env, page + 1);
    }
  }

  lemma {:induction false} PagesKeep<T(!new)>(
    history: seq<Entry<T>>, start: nat, p: Progress<T>, env: Env<T>, page: nat)
    requires Sorted(history) && AnswersAll(history, start, p, env, page) && Ready(history, start, p, env.oldest)
    ensures Good(history, start, Pages(p, env, page))
    decreases env.maxPages - page
  {
    if p.outcome == Died {
    } else if p.outcome == Next && page < env.maxPages {
      var reply := env.rpc(page, RequestOf(p.st, env));
      ReplyKeeps(history, start, p, env, reply);
      var p' := TakeReply(p.disk, p.st, env, reply, p.lives);
      PagesKeep(history, start, p', env, page + 1);
      assert Pages(p, env, page) == Pages(p', env, page + 1);
    } else {
      FinishKeeps(history, start, p, env.oldest);
    }
  }

  function Started<T>(disk: Disk<T>, env: Env<T>): Progress<T> {
    Progress(disk, Begin(disk.state, env), env.lives, Next)
  }

  /** The world a pass meets: it starts no earlier, misses nothing on entry, and is served faithfully. */
  ghost predicate Accepts<T(!new)>(history: seq<Entry<T>>, start: nat, disk: Disk<T>, env: Env<T>) {
    && (disk.state.None? ==> StartOf(env) >= start)
    && Resumable(history, start, disk.log, Begin(disk.state, env), env.oldest)
    && AnswersAll(history, start, Started(disk, env), env, 0)
  }

  lemma PassKeeps<T(!new)>(history: seq<Entry<T>>, start: nat, disk: Disk<T>, env: Env<T>)
    requires Sorted(history) && Good(history, start, disk) && Accepts(history, start, disk, env)
    ensures Good(history, start, PassOn(disk, env))
    ensures disk.log <= PassOn(disk, env).log
  {
    PagesKeep(history, start, Started(disk, env), env, 0);
    PagesExtend(Started(disk, env), env, 0);
  }

  // ---- any interleaving ----

  /** One start of the program: possibly clearing the saved state first, then one pass. */
  datatype Session<!T> = Session(reset: bool, env: Env<T>)

  /** `--reset` clears the state file and leaves the log alone. */
  function ClearedIf<T>(disk: Disk<T>, s: Session<T>): Disk<T> {
    if s.reset then disk.(state := None) else disk
  }

  function Passes<T>(disk: Disk<T>, sessions: seq<Session<T>>): Disk<T>
    decreases |sessions|
  {
    if sessions == [] then disk
    else Passes(PassOn(ClearedIf(disk, sessions[0]), sessions[0].env), sessions[1..])
  }

  ghost predicate AllAccepted<T(!new)>(history: seq<Entry<T>>, start: nat, disk: Disk<T>, sessions: seq<Session<T>>)
    decreases |sessions|
  {
    sessions != [] ==>
      var resumed := ClearedIf(disk, sessions[0]);
      && Accepts(history, start, resumed, sessions[0].env)
      && AllAccepted(history, start, PassOn(resumed, sessions[0].env), sessions[1..])
  }

  lemma {:induction false} PassesKeep<T(!new)>(
    history: seq<Entry<T>>, start: nat, disk: Disk<T>, sessions: seq<Session<T>>)
    requires Sorted(history) && Good(history, start, disk) && AllAccepted(history, start, disk, sessions)
    ensures Good(history, start, Passes(disk, sessions))
    ensures disk.log <= Passes(disk, sessions).log
    decreases |sessions|
  {
    if sessions != [] {
      var resumed := ClearedIf(disk, sessions[0]);
      PassKeeps(history, start, resumed, sessions[0].env);
      PassesKeep(history, start, PassOn(resumed, sessions[0].env), sessions[1..]);
    }
  }

  /**
   The log holds the chain's events from the start point, each once, in order, with none missing
   up to its last entry nor up to the saved cursor; the saved event count never exceeds it.
   */
  ghost predicate IsAPrefixFrom<T(!new)>(history: seq<Entry<T>>, start: nat, disk: Disk<T>) {
    && (forall i, j :: 0 <= i < j < |disk.log| ==> disk.log[i].id < disk.log[j].id)
    && (forall e :: e in disk.log ==> e in history && e.id >= start * POSITIONS_PER_LEDGER)
    && (forall e :: e in history && start * POSITIONS_PER_LEDGER <= e.id <= Reach(disk) ==> e in disk.log)
    && (disk.state.Some? ==> disk.state.value.events <= |disk.log|)
  }

  /** From an empty disk, whatever passes run, wherever each dies, and whenever the state is cleared. */
  lemma {:induction false} LogIsAPrefixOfTheChain<T(!new)>(history: seq<Entry<T>>, start: nat,
                                                    sessions: seq<Session<T>>)
    requires Sorted(history) && AllAccepted(history, start, Disk([], None), sessions)
    ensures IsAPrefixFrom(history, start, Passes(Disk([], None), sessions))
  {
    PassesKeep(history, start, Disk([], None), sessions);
    GoodIsAPrefix(history, start, Passes(Disk([], None), sessions));
  }

  lemma LoggedIsChain<T(!new)>(history: seq<Entry<T>>, start: nat, disk: Disk<T>, i: nat)
    requires Sorted(history) && Good(history, start, disk) && i < |disk.log|
    ensures disk.log[i] in history && disk.log[i].id >= start * POSITIONS_PER_LEDGER
  {
    var s := Origin(history, start);
    assert disk.log[i] == history[s + i];
    AboveCount(history, start * POSITIONS_PER_LEDGER - 1, s + i);
  }

  lemma ChainIsLogged<T(!new)>(history: seq<Entry<T>>, start: nat, disk: Disk<T>, k: nat)
    requires Sorted(history) && Good(history, start, disk) && k < |history|
    requires start * POSITIONS_PER_LEDGER <= history[k].id <= Reach(disk)
    ensures history[k] in disk.log
  {
    var s := Origin(history, start);
    if k >= s + |disk.log| {
      BeyondReach(history, start, disk, k);
    } else {
      assert disk.log[k - s] == history[k];
    }
  }

  lemma GoodIsAPrefix<T(!new)>(history: seq<Entry<T>>, start: nat, disk: Disk<T>)
    requires Sorted(history) && Good(history, start, disk)
    ensures IsAPrefixFrom(history, start, disk)
  {
    forall i | 0 <= i < |disk.log|
      ensures disk.log[i] in history && disk.log[i].id >= start * POSITIONS_PER_LEDGER
    {
      LoggedIsChain(history, start, disk, i);
    }
    forall k | 0 <= k < |history| && start * POSITIONS_PER_LEDGER <= history[k].id <= Reach(disk)
      ensures history[k] in disk.log
    {
      ChainIsLogged(history, start, disk, k);
    }
  }

  /** The furthest position the log or the saved cursor claims to have covered. */
  function Reach<T>(disk: Disk<T>): int {
    var logged := if disk.log == [] then -1 else disk.log[|disk.log| - 1].id;
    if disk.state.Some? && disk.state.value.cursor.Some? then Max(logged, disk.state.value.cursor.value) else logged
  }

  lemma {:induction false} AboveCount<T>(history: seq<Entry<T>>, hi: int, k: nat)
    requires Sorted(history) && Count(history, hi) <= k < |history|
    ensures history[k].id > hi
  {
  }

  /** What the log does not hold lies beyond everything the disk claims to have covered. */
  lemma BeyondReach<T>(history: seq<Entry<T>>, start: nat, disk: Disk<T>, k: nat)
    requires Sorted(history) && Good(history, start, disk)
    requires Origin(history, start) + |disk.log| <= k < |history|
    ensures history[k].id > Reach(disk)
  {
    if disk.log != [] {
      assert disk.log[|disk.log| - 1] == history[Origin(history, start) + |disk.log| - 1];
    }
    if disk.state.Some? && disk.state.value.cursor.Some? {
      AboveCount(history, disk.state.value.cursor.value, k);
    }
  }
}
