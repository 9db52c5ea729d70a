/**
 The whole refinement: rebuilding the snapshot from the events of any run, at any boundary
 between calls, gives back the state of the contracts.
 */
module SnapshotRefines {
  import opened Ledger
  import opened ExitAuction
  import opened Totals
  import opened Chain
  import opened Invariant
  import opened Effects
  import opened Changes
  import opened Reachable
  import opened EventLog
  import opened Conservation
  import opened SnapshotRows
  import opened Mirror
  import opened MirrorAssets
  import opened MirrorNodes

  ghost predicate Mirrored(w: World) {
    && ExitsMirrored(w.auction, w.ledger.log)
    && AssetsMirrored(w)
    && NodesMirrored(w)
  }

  // ---- each call's exits ----

  lemma InItsLine(w: World, x: Exit)
    requires Lines(w.auction, w.queue) && x.id in w.auction.exits && x == w.auction.exits[x.id]
    ensures x.status == Status.Queued <==> x.id in w.queue.Line(x.asset)
  {
    assert x.id in w.queue.Line(x.asset) <==> QueuedOn(w.auction, x.asset, x.id);
  }

  /** The row of the exit a change is about, once its events are read. */
  lemma OwnRow(w: World, w': World, c: Change)
    requires Registry(w.auction) && Lines(w.auction, w.queue) && ExitsMirrored(w.auction, w.ledger.log)
    requires Made(w, w', c) && !c.Opens?
    ensures Publishing(c)
    ensures ShowsExit(ExitRowOf(w.ledger.log + ChangeEvents(w, c), c.exit.asset, c.exit.id), After(c))
  {
    InItsLine(w, c.exit);
    match c {
      case Bids(x, node, usdc) => BidExitRow(w.ledger.log, x, node, usdc);
      case Sells(x) => FillExitRow(w, x, w.ledger.log);
      case Joins(x) => QueueExitRow(w, x, w.ledger.log);
      case Drops(x) => CancelExitRow(w, x, w.ledger.log);
    }
  }

  lemma ChangeExits(w: World, w': World, c: Change)
    requires Registry(w.auction) && Lines(w.auction, w.queue) && ExitsMirrored(w.auction, w.ledger.log)
    requires Made(w, w', c)
    ensures ExitsMirrored(w'.auction, w'.ledger.log)
  {
    ChangeWrites(w, w', c);
    ChangeAppended(w, w', c);
    if c.Opens? {
      ExitsMirroredNew(w.auction, w.ledger.log, c.exit);
    } else {
      OwnRow(w, w', c);
      ChangeAbout(w, c);
      ExitsStillMirrored(w.auction, w.ledger.log, ChangeEvents(w, c), After(c));
    }
  }

  lemma CapitalExits(w: World, call: Call)
    requires ExitsMirrored(w.auction, w.ledger.log) && Apply(w, call).Ok? && !AuctionCall(call)
    ensures ExitsMirrored(Step(w, call).auction, Step(w, call).ledger.log)
  {
    OtherCallsKeepExits(w, call);
    CapitalAppended(w, call);
    QuietExits(w.auction, w.ledger.log, CapitalEvents(w, call));
  }

  lemma QuietExits(a: AuctionState, log: seq<Event>, es: seq<Event>)
    requires ExitsMirrored(a, log) && forall e :: e in es ==> !OfExit(e)
    ensures ExitsMirrored(a, log + es)
  {
    forall asset, id: nat
      ensures ExitRowOf(log + es, asset, id) == ExitRowOf(log, asset, id)
    {
      ExitIdle(log, es, asset, id);
    }
    NoExitsSeen(log, es);
  }

  lemma {:induction false} NoExitsSeen(log: seq<Event>, es: seq<Event>)
    requires forall e :: e in es ==> !OfExit(e)
    ensures ExitsSeen(log + es) == ExitsSeen(log)
  {
    if es == [] {
      assert log + es == log;
    } else {
      assert SnapshotRows.Init(log + es) == log + SnapshotRows.Init(es);
      NoExitsSeen(log, SnapshotRows.Init(es));
    }
  }

  // ---- each call ----

  lemma ChangeMirrored(w: World, w': World, c: Change)
    requires Inv(w) && Mirrored(w) && Made(w, w', c)
    ensures Mirrored(w')
  {
    ChangeExits(w, w', c);
    ChangeAssets(w, w', c);
    ChangeNodes(w, w', c);
  }

  lemma {:induction false} MirrorOverRuns(w: World, calls: seq<Call>)
    requires Inv(w) && Mirrored(w)
    ensures Mirrored(Run(w, calls))
    decreases |calls|
  {
    if calls != [] {
      StepKeeps(w, calls[0]);
      if Apply(w, calls[0]).Ok? {
        if AuctionCall(calls[0]) {
          CallMakes(w, calls[0]);
          ChangeMirrored(w, Step(w, calls[0]), ChangeOf(w, calls[0]));
        } else {
          CapitalExits(w, calls[0]);
          CapitalAssets(w, calls[0]);
          CapitalNodes(w, calls[0]);
        }
      }
      MirrorOverRuns(Step(w, calls[0]), calls[1..]);
    }
  }

  lemma GenesisMirrored(w: World)
    requires Genesis(w)
    ensures Mirrored(w) && Accounted(w)
  {
    forall m
      ensures Ledgered(m, w.auction) == 0
    {
      TotalEmpty(m, w.auction.nextId);
    }
  }
}
