/** No bid on a young backing, over whole runs and however often its terms change. */
module BackingAge {
  import opened Ledger
  import opened LpVault
  import opened ExitAuction
  import opened Chain
  import opened Invariant
  import opened Effects
  import opened Changes
  import opened Reachable

  predicate Active(v: VaultState, n: Address, asset: Address) {
    (n, asset) in v.appetites && v.appetites[(n, asset)].active
  }

  /** An active backing keeps its age if it was active before, and is brand new otherwise. */
  predicate Ages(v: VaultState, now: nat, v': VaultState, n: Address, asset: Address) {
    Active(v', n, asset) ==>
      v'.appetites[(n, asset)].backedAt == if Active(v, n, asset) then v.appetites[(n, asset)].backedAt else now
  }

  lemma LetGoAges(v: VaultState, x: Exit, now: nat, n: Address, asset: Address)
    ensures Ages(v, now, LetGo(v, x), n, asset)
  {
  }

  lemma BidAges(w: World, w': World, x: Exit, node: Address, usdc: int, n: Address, asset: Address)
    requires BidTo(w, w', x, node, usdc)
    ensures Ages(w.vault, w.ledger.now, w'.vault, n, asset)
  {
    LetGoAges(w.vault.Shift(node, x.asset, usdc), x, w.ledger.now, n, asset);
  }

  lemma ChangeAges(w: World, w': World, c: Change, n: Address, asset: Address)
    requires Made(w, w', c)
    ensures Ages(w.vault, w.ledger.now, w'.vault, n, asset)
  {
    match c {
      case Bids(x, node, usdc) => BidAges(w, w', x, node, usdc, n, asset);
      case Drops(x) => LetGoAges(w.vault, x, w.ledger.now, n, asset);
      case _ =>
    }
  }

  lemma CapitalAges(w: World, call: Call, n: Address, asset: Address)
    requires !AuctionCall(call) || Apply(w, call).Err?
    ensures Ages(w.vault, w.ledger.now, Step(w, call).vault, n, asset)
    ensures Step(w, call).ledger.now >= w.ledger.now
  {
  }

  predicate BackedSince(v: VaultState, n: Address, asset: Address, since: nat) {
    Active(v, n, asset) ==> v.appetites[(n, asset)].backedAt >= since
  }

  lemma AgeStep(w: World, call: Call, n: Address, asset: Address)
    requires Inv(w)
    ensures Ages(w.vault, w.ledger.now, Step(w, call).vault, n, asset)
    ensures Step(w, call).ledger.now >= w.ledger.now
  {
    if Apply(w, call).Ok? && AuctionCall(call) {
      CallMakes(w, call);
      ChangeAges(w, Step(w, call), ChangeOf(w, call), n, asset);
      ChangeWrites(w, Step(w, call), ChangeOf(w, call));
    } else {
      CapitalAges(w, call, n, asset);
    }
  }

  lemma {:induction false} AgeOverRuns(w: World, calls: seq<Call>, n: Address, asset: Address, since: nat)
    requires Inv(w) && w.ledger.now >= since && BackedSince(w.vault, n, asset, since)
    ensures BackedSince(Run(w, calls).vault, n, asset, since)
    decreases |calls|
  {
    if calls != [] {
      StepKeeps(w, calls[0]);
      AgeStep(w, calls[0], n, asset);
      AgeOverRuns(Step(w, calls[0]), calls[1..], n, asset, since);
    }
  }

  /**
   Every bid a node gets accepted on an asset comes at least MIN_BACKING_AGE after the last
   moment its backing of that asset was missing or switched off: the backing was active
   without interruption for that long, no matter how often its terms changed meanwhile.
   */
  lemma {:induction false} BackingWasActiveLongEnough(w: World, calls: seq<Call>, n: User, asset: Address, id: nat,
                                                      usdc: int)
    requires Inv(w) && !Active(w.vault, n, asset)
    requires Run(w, calls).PlaceBid(n, id, usdc).Ok? && Run(w, calls).auction.exits[id].asset == asset
    ensures Run(w, calls).ledger.now - w.ledger.now >= MIN_BACKING_AGE
  {
    RunKeeps(w, calls);
    AgeOverRuns(w, calls, n, asset, w.ledger.now);
    BidEffect(Run(w, calls), n, id, usdc);
  }

  /** The backing is active in every state of the run. */
  predicate ActiveThroughout(w: World, calls: seq<Call>, n: Address, asset: Address)
    decreases |calls|
  {
    Active(w.vault, n, asset) && (calls != [] ==> ActiveThroughout(Step(w, calls[0]), calls[1..], n, asset))
  }

  /** While it stays active a backing keeps its age, however often its ceiling and floor are edited. */
  lemma {:induction false} BackingKeepsItsAge(w: World, calls: seq<Call>, n: Address, asset: Address)
    requires Inv(w) && ActiveThroughout(w, calls, n, asset)
    ensures Active(Run(w, calls).vault, n, asset)
    ensures Run(w, calls).vault.appetites[(n, asset)].backedAt == w.vault.appetites[(n, asset)].backedAt
    decreases |calls|
  {
    if calls != [] {
      StepKeeps(w, calls[0]);
      AgeStep(w, calls[0], n, asset);
      BackingKeepsItsAge(Step(w, calls[0]), calls[1..], n, asset);
    }
  }
}
