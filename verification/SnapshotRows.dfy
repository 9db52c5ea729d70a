/**
 The monitor's snapshot: an index of nodes, assets and exits rebuilt from the event log.

 What a record should say is defined one record at a time, as that record's own history of
 the log. `Builder` computes all records at once, mutating its maps event by event, and is
 proved to end with exactly those histories.
 */
module SnapshotRows {
  import opened Ledger
  import opened EventLog

  /** A log record: an event, or something undecodable, unknown or from the wrong contract. */
  datatype Record = Decoded(event: Event) | Flagged

  datatype Backing = Backing(maxExposure: int, minDiscountBps: nat, active: bool)

  datatype NodeRow = NodeRow(
    deposits: nat, withdrawals: nat, depositedAtLastReport: int,
    bidsPlaced: nat, bidsOutbid: nat, fillsWon: nat, usdcPaidOut: int,
    appetites: map<Address, Backing>)

  datatype AssetRow = AssetRow(
    exitsOpened: nat, settled: nat, cancelled: nat, queued: nat, refunded: nat, bids: nat,
    usdcSettled: int, tokensSettled: int, feesPaid: int,
    queue: seq<nat>, nodes: set<Address>)

  datatype Phase = Unknown | Open | Queued | LeftQueue | Settled | Cancelled | Refunded

  datatype OpenedAs = OpenedAs(seller: Address, amount: int, referenceUsdc: int, minAcceptUsdc: int, closesAt: nat)

  datatype Sale = Sale(node: Address, seller: Address, tokenAmount: int, gross: int, fee: int, net: int, remaining: int)

  datatype ExitRow = ExitRow(
    phase: Phase, terms: Option<OpenedAs>, escrowed: Option<int>, refunded: Option<int>,
    bestBid: Option<int>, bestNode: Option<Address>, bestDiscountBps: Option<nat>, bidCount: nat,
    queuePosition: Option<nat>, settlement: Option<Sale>)

  const BLANK_NODE := NodeRow(0, 0, 0, 0, 0, 0, 0, map[])
  const BLANK_ASSET := AssetRow(0, 0, 0, 0, 0, 0, 0, 0, 0, [], {})
  const BLANK_EXIT := ExitRow(Phase.Unknown, None, None, None, None, None, None, 0, None, None)

  // ---- which records an event concerns ----

  function NodesIn(e: Event): set<Address> {
    match e
    case Bid(_, _, node, _, _, outbid) => {node} + if outbid.Some? then {outbid.value} else {}
    case Settled(_, _, _, node, _, _, _, _, _) => {node}
    case Deposit(node, _, _) => {node}
    case Withdraw(node, _, _) => {node}
    case WithdrawRequested(node, _, _) => {node}
    case WithdrawCancelled(node, _) => {node}
    case AppetiteSet(node, _, _, _, _) => {node}
    case Committed(node, _, _) => {node}
    case Released(node, _, _) => {node}
    case PaidOut(node, _, _, _) => {node}
    case _ => {}
  }

  predicate OfExit(e: Event) {
    !OfCapital(e) && !e.AppetiteSet? && !e.Committed? && !e.Released? && !e.PaidOut?
  }

  /** The node an event names as acting on its asset, if any. */
  function ActorIn(e: Event): set<Address> {
    match e
    case AppetiteSet(node, _, _, _, _) => {node}
    case Committed(node, _, _) => {node}
    case Released(node, _, _) => {node}
    case PaidOut(node, _, _, _) => {node}
    case Bid(_, _, node, _, _, _) => {node}
    case Settled(_, _, _, node, _, _, _, _, _) => {node}
    case _ => {}
  }

  predicate Concerns(e: Event, a: Address, id: nat) {
    OfExit(e) && e.asset == a && e.exitId == id
  }

  // ---- what an event does to one record ----

  function One(b: bool): nat {
    if b then 1 else 0
  }

  function NodeRead(row: NodeRow, n: Address, e: Event): NodeRow {
    match e
    case Deposit(node, _, total) =>
      if node == n then row.(deposits := row.deposits + 1, depositedAtLastReport := total) else row
    case Withdraw(node, _, total) =>
      if node == n then row.(withdrawals := row.withdrawals + 1, depositedAtLastReport := total) else row
    case AppetiteSet(node, asset, ceiling, floor, active) =>
      if node == n then row.(appetites := row.appetites[asset := Backing(ceiling, floor, active)]) else row
    case PaidOut(node, _, _, amount) =>
      if node == n then row.(usdcPaidOut := row.usdcPaidOut + amount) else row
    case Bid(_, _, node, _, _, outbid) =>
      row.(bidsPlaced := row.bidsPlaced + One(node == n), bidsOutbid := row.bidsOutbid + One(outbid == Some(n)))
    case Settled(_, _, _, node, _, _, _, _, _) => row.(fillsWon := row.fillsWon + One(node == n))
    case _ => row
  }

  function Removed(line: seq<nat>, id: nat): (rest: seq<nat>)
    ensures id !in rest
    ensures forall k :: k in rest <==> k in line && k != id
  {
    if line == [] then []
    else (if line[0] == id then [] else [line[0]]) + Removed(line[1..], id)
  }

  function AssetRead(row: AssetRow, a: Address, e: Event): AssetRow {
    if OfCapital(e) || e.asset != a then row
    else
      var seen := row.(nodes := row.nodes + ActorIn(e));
      match e
      case Opened(_, _, _, _, _, _, _) => seen.(exitsOpened := seen.exitsOpened + 1)
      case Bid(_, _, _, _, _, _) => seen.(bids := seen.bids + 1)
      case Settled(_, _, _, _, tokens, gross, fee, _, _) =>
        seen.(settled := seen.settled + 1, usdcSettled := seen.usdcSettled + gross,
              tokensSettled := seen.tokensSettled + tokens, feesPaid := seen.feesPaid + fee)
      case Cancelled(_, _, _) => seen.(cancelled := seen.cancelled + 1)
      case Refunded(_, _, _, _) => seen.(refunded := seen.refunded + 1)
      case Queued(_, id, _, _) =>
        seen.(queued := seen.queued + 1, queue := if id in seen.queue then seen.queue else seen.queue + [id])
      case Dequeued(_, id, _) => seen.(queue := Removed(seen.queue, id))
      case _ => seen
  }

  function ExitRead(row: ExitRow, e: Event): ExitRow {
    match e
    case Opened(_, _, seller, amount, reference, reserve, closesAt) =>
      row.(phase := Phase.Open, terms := Some(OpenedAs(seller, amount, reference, reserve, closesAt)))
    case Escrowed(_, _, _, amount) => row.(escrowed := Some(amount))
    case Bid(_, _, node, usdc, discount, _) =>
      row.(bidCount := row.bidCount + 1, bestBid := Some(usdc), bestNode := Some(node),
           bestDiscountBps := Some(discount))
    case Settled(_, _, seller, node, tokens, gross, fee, net, remaining) =>
      row.(phase := Phase.Settled, settlement := Some(Sale(node, seller, tokens, gross, fee, net, remaining)))
    case Cancelled(_, _, _) => row.(phase := Phase.Cancelled)
    case Refunded(_, _, _, amount) =>
      row.(phase := if row.phase == Phase.Settled || row.phase == Phase.Cancelled then row.phase else Phase.Refunded,
           refunded := Some(amount))
    case Queued(_, _, position, _) => row.(phase := Phase.Queued, queuePosition := Some(position))
    case Dequeued(_, _, _) =>
      row.(phase := if row.phase == Phase.Queued then Phase.LeftQueue else row.phase, queuePosition := None)
    case _ => row
  }

  // ---- the histories ----

  function Last(log: seq<Event>): Event
    requires log != []
  {
    log[|log| - 1]
  }

  function Init(log: seq<Event>): seq<Event>
    requires log != []
  {
    log[..|log| - 1]
  }

  function NodeRowOf(log: seq<Event>, n: Address): NodeRow {
    if log == [] then BLANK_NODE else NodeRead(NodeRowOf(Init(log), n), n, Last(log))
  }

  function AssetRowOf(log: seq<Event>, a: Address): AssetRow {
    if log == [] then BLANK_ASSET else AssetRead(AssetRowOf(Init(log), a), a, Last(log))
  }

  function ExitRowOf(log: seq<Event>, a: Address, id: nat): ExitRow {
    if log == [] then BLANK_EXIT
    else if Concerns(Last(log), a, id) then ExitRead(ExitRowOf(Init(log), a, id), Last(log))
    else ExitRowOf(Init(log), a, id)
  }

  function NodesSeen(log: seq<Event>): set<Address> {
    if log == [] then {} else NodesSeen(Init(log)) + NodesIn(Last(log))
  }

  function AssetsSeen(log: seq<Event>): set<Address> {
    if log == [] then {} else AssetsSeen(Init(log)) + if OfCapital(Last(log)) then {} else {Last(log).asset}
  }

  function ExitsSeen(log: seq<Event>): set<(Address, nat)> {
    if log == [] then {}
    else ExitsSeen(Init(log)) + if OfExit(Last(log)) then {(Last(log).asset, Last(log).exitId)} else {}
  }

  /** The events a reader trusts: flagged records are counted and skipped. */
  function Trusted(records: seq<Record>): seq<Event> {
    if records == [] then []
    else
      var r := records[|records| - 1];
      Trusted(records[..|records| - 1]) + if r.Decoded? then [r.event] else []
  }

  /** Trust is record by record: every decoded event is kept, in order, and nothing else. */
  lemma {:induction false} TrustedAppend(a: seq<Record>, b: seq<Record>)
    ensures Trusted(a + b) == Trusted(a) + Trusted(b)
    ensures forall e :: Trusted([Decoded(e)]) == [e]
    ensures Trusted([Flagged]) == []
  {
    assert forall r: Record :: [r][..0] == [];
    if b == [] {
      assert a + b == a;
    } else {
      assert (a + b)[..|a + b| - 1] == a + b[..|b| - 1];
      TrustedAppend(a, b[..|b| - 1]);
    }
  }

  function FlaggedIn(records: seq<Record>): (flagged: nat)
    ensures |Trusted(records)| + flagged == |records|
  {
    if records == [] then 0
    else FlaggedIn(records[..|records| - 1]) + One(records[|records| - 1].Flagged?)
  }

  // ---- one event, all records at once ----

  function NodeAt(m: map<Address, NodeRow>, n: Address): NodeRow {
    if n in m then m[n] else BLANK_NODE
  }

  function AssetAt(m: map<Address, AssetRow>, a: Address): AssetRow {
    if a in m then m[a] else BLANK_ASSET
  }

  function ExitAt(m: map<(Address, nat), ExitRow>, key: (Address, nat)): ExitRow {
    if key in m then m[key] else BLANK_EXIT
  }

  ghost predicate NodesAfter(m: map<Address, NodeRow>, m': map<Address, NodeRow>, e: Event) {
    && m'.Keys == m.Keys + NodesIn(e)
    && forall n :: n in m' ==> m'[n] == NodeRead(NodeAt(m, n), n, e)
  }

  ghost predicate AssetsAfter(m: map<Address, AssetRow>, m': map<Address, AssetRow>, e: Event) {
    && m'.Keys == m.Keys + (if OfCapital(e) then {} else {e.asset})
    && forall a :: a in m' ==> m'[a] == AssetRead(AssetAt(m, a), a, e)
  }

  ghost predicate ExitsAfter(m: map<(Address, nat), ExitRow>, m': map<(Address, nat), ExitRow>, e: Event) {
    && m'.Keys == m.Keys + (if OfExit(e) then {(e.asset, e.exitId)} else {})
    && forall k :: k in m' ==> m'[k] == if Concerns(e, k.0, k.1) then ExitRead(ExitAt(m, k), e) else ExitAt(m, k)
  }

  // ---- the monitor's loop ----

  class Builder {
    var nodes: map<Address, NodeRow>
    var assets: map<Address, AssetRow>
    var exits: map<(Address, nat), ExitRow>
    var usdcTotal: int
    var feesTotal: int
    var flagged: nat

    constructor ()
      ensures nodes == map[] && assets == map[] && exits == map[]
      ensures usdcTotal == 0 && feesTotal == 0 && flagged == 0
    {
      nodes, assets, exits := map[], map[], map[];
      usdcTotal, feesTotal, flagged := 0, 0, 0;
    }

    ghost predicate Shows(log: seq<Event>)
      reads this
    {
      && nodes.Keys == NodesSeen(log) && (forall n :: n in nodes ==> nodes[n] == NodeRowOf(log, n))
      && assets.Keys == AssetsSeen(log) && (forall a :: a in assets ==> assets[a] == AssetRowOf(log, a))
      && exits.Keys == ExitsSeen(log) && (forall k :: k in exits ==> exits[k] == ExitRowOf(log, k.0, k.1))
      && usdcTotal == Flowed(GrossSettled, log) && feesTotal == Flowed(FeesToTreasury, log)
    }

    /** Events about a node's capital, terms and commitments: one node's row, and one asset's roster. */
    method ReadVault(e: Event)
      requires !OfExit(e)
      modifies this`nodes, this`assets
      ensures NodesAfter(old(nodes), nodes, e)
      ensures AssetsAfter(old(assets), assets, e)
    {
      if !OfCapital(e) {
        ReadRoster(e);
      }
      ReadVaultNode(e);
    }

    method ReadRoster(e: Event)
      requires !OfExit(e) && !OfCapital(e)
      modifies this`assets
      ensures AssetsAfter(old(assets), assets, e)
    {
      var row := AssetAt(assets, e.asset);
      assets := assets[e.asset := row.(nodes := row.nodes + {e.node})];
    }

    method ReadVaultNode(e: Event)
      requires !OfExit(e)
      modifies this`nodes
      ensures NodesAfter(old(nodes), nodes, e)
    {
      var n := NodeAt(nodes, e.node);
      match e {
        case Deposit(_, _, total) =>
          n := n.(deposits := n.deposits + 1, depositedAtLastReport := total);
        case Withdraw(_, _, total) =>
          n := n.(withdrawals := n.withdrawals + 1, depositedAtLastReport := total);
        case AppetiteSet(_, asset, ceiling, floor, active) =>
          n := n.(appetites := n.appetites[asset := Backing(ceiling, floor, active)]);
        case PaidOut(_, _, _, amount) =>
          n := n.(usdcPaidOut := n.usdcPaidOut + amount);
        case _ =>
      }
      nodes := nodes[e.node := n];
    }

    /** The bidder's row, and that of the node it beat, which may be the same one. */
    method ReadBidNodes(e: Event)
      requires e.Bid?
      modifies this`nodes
      ensures NodesAfter(old(nodes), nodes, e)
    {
      var n := NodeAt(nodes, e.node);
      nodes := nodes[e.node := n.(bidsPlaced := n.bidsPlaced + 1)];
      if e.outbid.Some? {
        var beaten := NodeAt(nodes, e.outbid.value);
        nodes := nodes[e.outbid.value := beaten.(bidsOutbid := beaten.bidsOutbid + 1)];
      }
    }

    method ReadBidExit(e: Event)
      requires e.Bid?
      modifies this`exits
      ensures ExitsAfter(old(exits), exits, e)
    {
      var x := ExitAt(exits, (e.asset, e.exitId));
      exits := exits[(e.asset, e.exitId) :=
        x.(bidCount := x.bidCount + 1, bestBid := Some(e.usdcAmount), bestNode := Some(e.node),
           bestDiscountBps := Some(e.discountBps))];
    }

    method ReadBidAsset(e: Event)
      requires e.Bid?
      modifies this`assets
      ensures AssetsAfter(old(assets), assets, e)
    {
      var a := AssetAt(assets, e.asset);
      assets := assets[e.asset := a.(nodes := a.nodes + {e.node}, bids := a.bids + 1)];
    }

    method ReadSettled(e: Event)
      requires e.Settled?
      modifies this`nodes, this`assets, this`exits, this`usdcTotal, this`feesTotal
      ensures NodesAfter(old(nodes), nodes, e)
      ensures AssetsAfter(old(assets), assets, e)
      ensures ExitsAfter(old(exits), exits, e)
      ensures usdcTotal == old(usdcTotal) + e.usdcGross && feesTotal == old(feesTotal) + e.protocolFee
    {
      ReadSettledExit(e);
      ReadSettledAsset(e);
      feesTotal := feesTotal + e.protocolFee;
      usdcTotal := usdcTotal + e.usdcGross;
      ReadSettledNode(e);
    }

    method ReadSettledNode(e: Event)
      requires e.Settled?
      modifies this`nodes
      ensures NodesAfter(old(nodes), nodes, e)
    {
      var n := NodeAt(nodes, e.node);
      nodes := nodes[e.node := n.(fillsWon := n.fillsWon + 1)];
    }

    method ReadSettledExit(e: Event)
      requires e.Settled?
      modifies this`exits
      ensures ExitsAfter(old(exits), exits, e)
    {
      var x := ExitAt(exits, (e.asset, e.exitId));
      exits := exits[(e.asset, e.exitId) :=
        x.(phase := Phase.Settled,
           settlement := Some(Sale(e.node, e.seller, e.tokenAmount, e.usdcGross, e.protocolFee, e.usdcNet,
                                   e.remaining)))];
    }

    method ReadSettledAsset(e: Event)
      requires e.Settled?
      modifies this`assets
      ensures AssetsAfter(old(assets), assets, e)
    {
      var a := AssetAt(assets, e.asset);
      assets := assets[e.asset :=
        a.(nodes := a.nodes + {e.node}, settled := a.settled + 1, usdcSettled := a.usdcSettled + e.usdcGross,
           tokensSettled := a.tokensSettled + e.tokenAmount, feesPaid := a.feesPaid + e.protocolFee)];
    }

    method ReadExitRow(e: Event)
      requires OfExit(e) && !e.Bid? && !e.Settled?
      modifies this`exits
      ensures ExitsAfter(old(exits), exits, e)
    {
      var x := ExitAt(exits, (e.asset, e.exitId));
      match e {
        case Opened(_, _, seller, amount, reference, reserve, closesAt) =>
          x := x.(phase := Phase.Open, terms := Some(OpenedAs(seller, amount, reference, reserve, closesAt)));
        case Escrowed(_, _, _, amount) =>
          x := x.(escrowed := Some(amount));
        case Cancelled(_, _, _) =>
          x := x.(phase := Phase.Cancelled);
        case Refunded(_, _, _, amount) =>
          if x.phase != Phase.Settled && x.phase != Phase.Cancelled {
            x := x.(phase := Phase.Refunded);
          }
          x := x.(refunded := Some(amount));
        case Queued(_, _, position, _) =>
          x := x.(phase := Phase.Queued, queuePosition := Some(position));
        case Dequeued(_, _, _) =>
          x := x.(queuePosition := None);
          if x.phase == Phase.Queued {
            x := x.(phase := Phase.LeftQueue);
          }
      }
      exits := exits[(e.asset, e.exitId) := x];
    }

    method ReadExitAsset(e: Event)
      requires OfExit(e) && !e.Bid? && !e.Settled?
      modifies this`assets
      ensures AssetsAfter(old(assets), assets, e)
    {
      var a := AssetAt(assets, e.asset);
      match e {
        case Opened(_, _, _, _, _, _, _) =>
          a := a.(exitsOpened := a.exitsOpened + 1);
        case Cancelled(_, _, _) =>
          a := a.(cancelled := a.cancelled + 1);
        case Refunded(_, _, _, _) =>
          a := a.(refunded := a.refunded + 1);
        case Queued(_, id, _, _) =>
          a := a.(queued := a.queued + 1);
          if id !in a.queue {
            a := a.(queue := a.queue + [id]);
          }
        case Dequeued(_, id, _) =>
          a := a.(queue := Removed(a.queue, id));
        case _ =>
      }
      assert a.nodes + {} == a.nodes;
      assets := assets[e.asset := a];
    }

    method ReadBid(e: Event)
      requires e.Bid?
      modifies this`nodes, this`assets, this`exits
      ensures NodesAfter(old(nodes), nodes, e)
      ensures AssetsAfter(old(assets), assets, e)
      ensures ExitsAfter(old(exits), exits, e)
    {
      ReadBidExit(e);
      ReadBidAsset(e);
      ReadBidNodes(e);
    }

    method ReadExit(e: Event)
      requires OfExit(e) && !e.Bid? && !e.Settled?
      modifies this`assets, this`exits
      ensures NodesAfter(old(nodes), nodes, e)
      ensures AssetsAfter(old(assets), assets, e)
      ensures ExitsAfter(old(exits), exits, e)
    {
      IdleNodes(nodes, e);
      ReadExitRow(e);
      ReadExitAsset(e);
    }

    method ReadEvent(e: Event)
      modifies this
      ensures NodesAfter(old(nodes), nodes, e)
      ensures AssetsAfter(old(assets), assets, e)
      ensures ExitsAfter(old(exits), exits, e)
      ensures usdcTotal == old(usdcTotal) + FlowIn(GrossSettled, e)
      ensures feesTotal == old(feesTotal) + FlowIn(FeesToTreasury, e)
      ensures flagged == old(flagged)
    {
      if OfExit(e) {
        ReadOfExit(e);
      } else {
        ReadVault(e);
      }
    }

    method ReadOfExit(e: Event)
      requires OfExit(e)
      modifies this`nodes, this`assets, this`exits, this`usdcTotal, this`feesTotal
      ensures NodesAfter(old(nodes), nodes, e)
      ensures AssetsAfter(old(assets), assets, e)
      ensures ExitsAfter(old(exits), exits, e)
      ensures usdcTotal == old(usdcTotal) + FlowIn(GrossSettled, e)
      ensures feesTotal == old(feesTotal) + FlowIn(FeesToTreasury, e)
    {
      if e.Bid? {
        ReadBid(e);
      } else if e.Settled? {
        ReadSettled(e);
      } else {
        ReadExit(e);
      }
    }

    /** One turn of the loop: a flagged record is counted and skipped, an event is read into every record. */
    method Read(r: Record, ghost log: seq<Event>)
      requires Shows(log)
      modifies this
      ensures Shows(log + if r.Decoded? then [r.event] else [])
      ensures flagged == old(flagged) + One(r.Flagged?)
    {
      if r.Flagged? {
        flagged := flagged + 1;
        assert log + [] == log;
      } else {
        ReadEvent(r.event);
        NodesGrow(log, r.event, old(nodes), nodes);
        AssetsGrow(log, r.event, old(assets), assets);
        ExitsGrow(log, r.event, old(exits), exits);
        FlowGrows(GrossSettled, log, r.event);
        FlowGrows(FeesToTreasury, log, r.event);
      }
    }
  }

  lemma IdleNodes(m: map<Address, NodeRow>, e: Event)
    requires OfExit(e) && !e.Bid? && !e.Settled?
    ensures NodesAfter(m, m, e)
  {
  }

  lemma {:induction false} FlowGrows(f: Flow, log: seq<Event>, e: Event)
    ensures Flowed(f, log + [e]) == Flowed(f, log) + FlowIn(f, e)
  {
    assert (log + [e])[..|log + [e]| - 1] == log;
  }

  /** A record nothing was ever said about is blank. */
  lemma {:induction false} UnseenAreBlank(log: seq<Event>)
    ensures forall n :: n !in NodesSeen(log) ==> NodeRowOf(log, n) == BLANK_NODE
    ensures forall a :: a !in AssetsSeen(log) ==> AssetRowOf(log, a) == BLANK_ASSET
    ensures forall a, id: nat :: (a, id) !in ExitsSeen(log) ==> ExitRowOf(log, a, id) == BLANK_EXIT
  {
    if log != [] {
      UnseenAreBlank(Init(log));
    }
  }

  lemma {:induction false} NodesGrow(log: seq<Event>, e: Event, m: map<Address, NodeRow>, m': map<Address, NodeRow>)
    requires m.Keys == NodesSeen(log) && (forall n :: n in m ==> m[n] == NodeRowOf(log, n)) && NodesAfter(m, m', e)
    ensures m'.Keys == NodesSeen(log + [e]) && forall n :: n in m' ==> m'[n] == NodeRowOf(log + [e], n)
  {
    UnseenAreBlank(log);
    assert Init(log + [e]) == log && Last(log + [e]) == e;
  }

  lemma {:induction false} AssetsGrow(log: seq<Event>, e: Event, m: map<Address, AssetRow>, m': map<Address, AssetRow>)
    requires m.Keys == AssetsSeen(log) && (forall a :: a in m ==> m[a] == AssetRowOf(log, a)) && AssetsAfter(m, m', e)
    ensures m'.Keys == AssetsSeen(log + [e]) && forall a :: a in m' ==> m'[a] == AssetRowOf(log + [e], a)
  {
    UnseenAreBlank(log);
    assert Init(log + [e]) == log && Last(log + [e]) == e;
  }

  lemma {:induction false} ExitsGrow(log: seq<Event>, e: Event, m: map<(Address, nat), ExitRow>, m': map<(Address,
                                     nat), ExitRow>)
    requires m.Keys == ExitsSeen(log) && (forall k :: k in m ==> m[k] == ExitRowOf(log, k.0, k.1))
    requires ExitsAfter(m, m', e)
    ensures m'.Keys == ExitsSeen(log + [e]) && forall k :: k in m' ==> m'[k] == ExitRowOf(log + [e], k.0, k.1)
  {
    UnseenAreBlank(log);
    assert Init(log + [e]) == log && Last(log + [e]) == e;
    forall k | k in m'
      ensures m'[k] == ExitRowOf(log + [e], k.0, k.1)
    {
      assert k == (k.0, k.1);
    }
  }
}
