/**
 The invariant over whole runs. A state is reachable when some sequence of calls leads to it
 from a fresh deployment; everything proved under `Inv` holds in every reachable state.
 */
module Reachable {
  import opened Ledger
  import opened ExitAuction
  import opened Totals
  import opened Chain
  import opened Invariant
  import opened Changes
  import opened Preservation

  /** Tokens somebody outside the layer sent straight to one of its contracts. */
  function Gift(w: World, call: Call, token: Address, to: Address): int {
    if call.SendTokens? && call.token == token && call.to == to && Apply(w, call).Ok? then call.amount else 0
  }

  lemma SendSurplus(w: World, call: Call)
    requires call.SendTokens? && Apply(w, call).Ok?
    ensures VaultSurplus(Step(w, call)) == VaultSurplus(w) + Gift(w, call, w.vault.config.usdc, VaultContract)
    ensures forall t :: RouterSurplus(Step(w, call), t) == RouterSurplus(w, t) + Gift(w, call, t, RouterContract)
  {
    TransferMoves(w.ledger, call.token, call.from, call.to, call.amount);
  }

  lemma SendKeeps(w: World, call: Call)
    requires Inv(w) && call.SendTokens? && Apply(w, call).Ok?
    ensures Inv(Step(w, call))
  {
    SendSurplus(w, call);
    forall t
      ensures RouterSurplus(Step(w, call), t) >= 0
    {
      assert RouterSurplus(w, t) >= 0;
    }
  }

  /** A refused call, a new fee, or the passing of time. */
  lemma NothingMoves(w: World, call: Call)
    requires Inv(w) && (Apply(w, call).Err? || call.SetProtocolFeeBps? || call.Tick?)
    ensures Keeps(w, Step(w, call))
  {
    var w' := Step(w, call);
    assert forall t, h :: w'.ledger.Balance(t, h) == w.ledger.Balance(t, h);
    assert SameSurplus(w, w');
    StillCovered(w, w');
  }

  /**
   One call keeps every ledger in agreement. It also leaves the surplus of the vault and of
   the router where it was, except for what was sent to them from outside.
   */
  lemma StepKeeps(w: World, call: Call)
    requires Inv(w)
    ensures Inv(Step(w, call))
    ensures VaultSurplus(Step(w, call)) == VaultSurplus(w) + Gift(w, call, w.vault.config.usdc, VaultContract)
    ensures forall t :: RouterSurplus(Step(w, call), t) == RouterSurplus(w, t) + Gift(w, call, t, RouterContract)
  {
    if call.SendTokens? && Apply(w, call).Ok? {
      SendSurplus(w, call);
      SendKeeps(w, call);
    } else {
      LayerStepKeeps(w, call);
    }
  }

  lemma ChangeKeeps(w: World, w': World, c: Change)
    requires Inv(w) && Made(w, w', c)
    ensures Keeps(w, w')
  {
    match c {
      case Opens(x) => OpenedKeeps(w, w', x);
      case Bids(x, node, usdc) => BidKeeps(w, w', x, node, usdc);
      case Sells(x) => FilledKeeps(w, w', x);
      case Joins(x) => QueuedKeeps(w, w', x);
      case Drops(x) => CancelledKeeps(w, w', x);
    }
  }

  lemma CapitalKeeps(w: World, call: Call)
    requires Inv(w) && !AuctionCall(call) && !call.SendTokens? && Apply(w, call).Ok?
    ensures Keeps(w, Step(w, call))
  {
    match call {
      case Deposit(node, amount) => DepositKeeps(w, node, amount);
      case ExecuteWithdrawal(node) => ExecuteWithdrawalKeeps(w, node);
      case SetProtocolFeeBps(_) => NothingMoves(w, call);
      case Tick(_) => NothingMoves(w, call);
      case _ => TermsKeep(w, call);
    }
  }

  lemma LayerStepKeeps(w: World, call: Call)
    requires Inv(w) && (call.SendTokens? ==> Apply(w, call).Err?)
    ensures Keeps(w, Step(w, call))
  {
    if Apply(w, call).Err? {
      NothingMoves(w, call);
    } else if AuctionCall(call) {
      CallMakes(w, call);
      ChangeKeeps(w, Step(w, call), ChangeOf(w, call));
    } else {
      CapitalKeeps(w, call);
    }
  }

  lemma GenesisHolds(w: World)
    requires Genesis(w)
    ensures Inv(w)
  {
    assert Deposits(w.vault.nodes) == map[];
    forall m
      ensures Ledgered(m, w.auction) == 0
    {
      TotalEmpty(m, w.auction.nextId);
    }
  }

  /** Every state any run from a fresh deployment reaches satisfies the invariant. */
  lemma {:induction false} RunKeeps(w: World, calls: seq<Call>)
    requires Inv(w)
    ensures Inv(Run(w, calls))
    decreases |calls|
  {
    if calls != [] {
      StepKeeps(w, calls[0]);
      RunKeeps(Step(w, calls[0]), calls[1..]);
    }
  }

  lemma {:induction false} ReachableHolds(w: World, calls: seq<Call>)
    requires Genesis(w)
    ensures Inv(Run(w, calls))
  {
    GenesisHolds(w);
    RunKeeps(w, calls);
  }

  function Gifts(w: World, calls: seq<Call>, token: Address, to: Address): int
    decreases |calls|
  {
    if calls == [] then 0
    else Gift(w, calls[0], token, to) + Gifts(Step(w, calls[0]), calls[1..], token, to)
  }

  lemma SettingsFixed(w: World, call: Call)
    requires Inv(w)
    ensures Step(w, call).vault.config == w.vault.config && Step(w, call).router.treasury == w.router.treasury
  {
    if AuctionCall(call) && Apply(w, call).Ok? {
      CallMakes(w, call);
      ChangeWrites(w, Step(w, call), ChangeOf(w, call));
    } else {
      OtherCallsKeepExits(w, call);
    }
  }

  /**
   Over any run, what the vault holds beyond its nodes' deposits, and the router beyond its
   escrows, grows by exactly what outsiders sent there: with no such gift they stay equal.
   */
  lemma {:induction false} SurplusIsGifts(w: World, calls: seq<Call>, token: Address)
    requires Inv(w)
    ensures VaultSurplus(Run(w, calls)) == VaultSurplus(w) + Gifts(w, calls, w.vault.config.usdc, VaultContract)
    ensures RouterSurplus(Run(w, calls), token) == RouterSurplus(w, token) + Gifts(w, calls, token, RouterContract)
    decreases |calls|
  {
    if calls != [] {
      StepKeeps(w, calls[0]);
      SettingsFixed(w, calls[0]);
      SurplusIsGifts(Step(w, calls[0]), calls[1..], token);
    }
  }
}
