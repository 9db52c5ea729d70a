/**
 Entering by ledger: a cold start, or a pass whose cursor the RPC rejects, asks for everything
 from some ledger on. Exactly when that leaves the disk right.
 */
module ReEntry {
  import opened Ledger
  import opened Indexer
  import opened CrashSafety

  /** What the disk holds once a page is appended and the state saved. */
  function Saved<T>(disk: Disk<T>, st: St, reply: Reply<T>): Disk<T>
    requires reply.Page?
  {
    var batch := Fresh(reply.events, Ids(disk.log));
    Disk(disk.log + batch, Some(AfterPage(st, batch, reply.cursor)))
  }

  /** A page that neither brings events nor moves the cursor, and so changes nothing. */
  predicate SaysNothing<T>(reply: Reply<T>)
    requires reply.Page?
  {
    reply.events == [] && reply.cursor.None?
  }

  /** Past the log's end everything is new. */
  lemma NewBeyond<T>(history: seq<Entry<T>>, s: nat, m: nat, i: nat, j: nat)
    requires Sorted(history) && s <= m <= i <= j <= |history|
    ensures Fresh(history[i..j], Ids(history[s..m])) == history[i..j]
  {
    AllFresh(history[i..j], Ids(history[s..m]));
  }

  /** Events read past an unread one are not where a run of history has them. */
  lemma SkippingLeavesAHole<T>(history: seq<Entry<T>>, s: nat, m: nat, page: seq<Entry<T>>, i: nat, k: nat)
    requires Sorted(history) && s <= m < i < |history| && page != [] && page[0] == history[i] && s <= k <= |history|
    ensures history[s..m] + page != history[s..k]
  {
    assert (history[s..m] + page)[m - s] == history[i];
    assert k > m ==> history[s..k][m - s] == history[m];
    assert history[m].id < history[i].id;
  }

  lemma NoRunHasIt<T>(history: seq<Entry<T>>, start: nat, disk: Disk<T>, page: seq<Entry<T>>, i: nat,
                      state: Option<St>)
    requires Sorted(history) && Good(history, start, disk)
    requires Origin(history, start) + |disk.log| < i < |history| && page != [] && page[0] == history[i]
    ensures !Good(history, start, Disk(disk.log + page, state))
  {
    var s := Origin(history, start);
    var k := s + |disk.log + page|;
    if k <= |history| {
      SkippingLeavesAHole(history, s, s + |disk.log|, page, i, k);
    }
  }

  lemma SkippingIsUnsafe<T(!new)>(
    history: seq<Entry<T>>, start: nat, disk: Disk<T>, st: St, env: Env<T>, reply: Reply<T>)
    requires Sorted(history) && Good(history, start, disk) && st.cursor.None?
    requires !Resumable(history, start, disk.log, st, env.oldest)
    requires reply.Page? && Serves(history, RequestOf(st, env), reply) && !SaysNothing(reply)
    ensures !Good(history, start, Saved(disk, st, reply))
  {
    if reply.events == [] {
      EmptyPageMovesOn(history, start, disk, st, env, reply);
    } else {
      LaterPageSkips(history, start, disk, RequestOf(st, env), reply,
                     Some(AfterPage(st, Fresh(reply.events, Ids(disk.log)), reply.cursor)));
    }
  }

  /** A page that starts past an unread event leaves a hole, whatever is saved beside the log. */
  lemma {:induction false} LaterPageSkips<T(!new)>(history: seq<Entry<T>>, start: nat, disk: Disk<T>, req: Request,
                                            reply: Reply<T>,
                                state: Option<St>)
    requires Sorted(history) && Good(history, start, disk)
    requires Origin(history, start) + |disk.log| < Count(history, LowerBound(req))
    requires reply.Page? && Serves(history, req, reply) && reply.events != []
    ensures Fresh(reply.events, Ids(disk.log)) == reply.events
    ensures !Good(history, start, Disk(disk.log + Fresh(reply.events, Ids(disk.log)), state))
  {
    var s, lo := Origin(history, start), Count(history, LowerBound(req));
    NewPage(history, s, s + |disk.log|, disk.log, lo, PageStop(history, req, reply), reply.events);
    NoRunHasIt(history, start, disk, reply.events, lo, state);
  }

  lemma {:induction false} NewPage<T>(history: seq<Entry<T>>, s: nat, m: nat, log: seq<Entry<T>>, i: nat, j: nat,
                                      page: seq<Entry<T>>)
    requires Sorted(history) && s <= m <= i <= j <= |history|
    requires log == history[s..m] && page == history[i..j]
    ensures Fresh(page, Ids(log)) == page
  {
    NewBeyond(history, s, m, i, j);
  }

  /** An empty page whose cursor lies past an unread event. */
  lemma EmptyPageMovesOn<T(!new)>(
    history: seq<Entry<T>>, start: nat, disk: Disk<T>, st: St, env: Env<T>, reply: Reply<T>)
    requires st.cursor.None? && !Resumable(history, start, disk.log, st, env.oldest)
    requires reply.Page? && Serves(history, RequestOf(st, env), reply) && reply.events == [] && reply.cursor.Some?
    ensures !Good(history, start, Saved(disk, st, reply))
  {
    assert disk.log + Fresh(reply.events, Ids(disk.log)) == disk.log;
  }

  /**
   Entering by ledger keeps the disk right exactly when nothing unread lies below that ledger,
   unless the page says nothing at all. A cursor rejected in the middle of a ledger is the
   failing case: the pass re-enters at the next ledger, and the rest of that one is skipped.
   */
  lemma ReEntryIsSafeExactlyWhen<T(!new)>(
    history: seq<Entry<T>>, start: nat, disk: Disk<T>, st: St, env: Env<T>, reply: Reply<T>)
    requires Sorted(history) && Good(history, start, disk) && Covered(history, start, disk.log, st) && st.cursor.None?
    requires reply.Page? && Serves(history, RequestOf(st, env), reply)
    ensures Good(history, start, Saved(disk, st, reply))
       <==> Resumable(history, start, disk.log, st, env.oldest) || SaysNothing(reply)
  {
    var batch := Fresh(reply.events, Ids(disk.log));
    if Resumable(history, start, disk.log, st, env.oldest) {
      PageIsLogged(history, start, disk, st, env, reply);
      LogStaysGood(history, start, disk, st, env, reply);
      CursorIsCovered(history, start, disk.log, st, env, reply, batch);
    } else if SaysNothing(reply) {
      assert disk.log + batch == disk.log;
    } else {
      SkippingIsUnsafe(history, start, disk, st, env, reply);
    }
  }
}
