/**
 Transactions. A `Call` is one signed invocation; `Step` applies it, and a call that fails
 anywhere, however deep, leaves the whole state as it was. `Run` is any sequence of calls.
 */
module Chain {
  import opened Ledger
  import opened LpVault
  import opened SettlementRouter
  import opened FifoQueue
  import opened ExitAuction

  datatype Call =
    | Deposit(node: User, amount: int)
    | RequestWithdrawal(node: User, amount: int)
    | CancelWithdrawal(node: User)
    | ExecuteWithdrawal(node: User)
    | SetAppetite(node: User, asset: Address, maxExposure: int, minDiscountBps: nat, active: bool)
    | ReduceExposure(node: User, asset: Address, amount: int)
    | OpenExit(seller: User, asset: Address, amount: int, referenceUsdc: int, minAcceptUsdc: int,
               duration: Option<nat>)
    | PlaceBid(node: User, exitId: nat, usdcAmount: int)
    | AcceptBid(signer: User, exitId: nat)
    | Close(exitId: nat)
    | Cancel(signer: User, exitId: nat)
    | SetProtocolFeeBps(bps: nat)
    | SetMaxSingleFillBps(bps: nat)
    // Outside the layer: anybody may move their own tokens anywhere, and time passes.
    | SendTokens(token: Address, from: User, to: Address, amount: int)
    | Tick(seconds: nat)

  predicate AuctionCall(call: Call) {
    call.OpenExit? || call.PlaceBid? || call.AcceptBid? || call.Close? || call.Cancel?
  }

  predicate VaultCall(call: Call) {
    || call.Deposit? || call.RequestWithdrawal? || call.CancelWithdrawal? || call.ExecuteWithdrawal?
    || call.SetAppetite? || call.ReduceExposure? || call.SetMaxSingleFillBps?
  }

  function OnVault(w: World, r: Result<(VaultState, LedgerState)>): Result<World> {
    var (v, l) :- r;
    Ok(w.(vault := v, ledger := l))
  }

  function Apply(w: World, call: Call): Result<World> {
    match call
    case Deposit(node, amount) => OnVault(w, w.vault.Deposit(w.ledger, node, amount))
    case RequestWithdrawal(node, amount) => OnVault(w, w.vault.RequestWithdrawal(w.ledger, node, amount))
    case CancelWithdrawal(node) => OnVault(w, w.vault.CancelWithdrawal(w.ledger, node))
    case ExecuteWithdrawal(node) => OnVault(w, w.vault.ExecuteWithdrawal(w.ledger, node))
    case SetAppetite(node, asset, ceiling, floor, active) =>
      OnVault(w, w.vault.SetAppetite(w.ledger, node, asset, ceiling, floor, active))
    case ReduceExposure(node, asset, amount) =>
      var v :- w.vault.ReduceExposure(node, asset, amount);
      Ok(w.(vault := v))
    case OpenExit(seller, asset, amount, reference, reserve, duration) =>
      w.OpenExit(seller, asset, amount, reference, reserve, duration)
    case PlaceBid(node, id, usdc) => w.PlaceBid(node, id, usdc)
    case AcceptBid(signer, id) => w.AcceptBid(signer, id)
    case Close(id) => w.Close(id)
    case Cancel(signer, id) => w.Cancel(signer, id)
    case SetProtocolFeeBps(bps) =>
      var r :- w.router.SetProtocolFeeBps(bps);
      Ok(w.(router := r))
    case SetMaxSingleFillBps(bps) =>
      var v :- w.vault.SetMaxSingleFillBps(bps);
      Ok(w.(vault := v))
    case SendTokens(token, from, to, amount) =>
      var l :- w.ledger.Transfer(token, from, to, amount);
      Ok(w.(ledger := l))
    case Tick(seconds) => Ok(w.(ledger := w.ledger.(now := w.ledger.now + seconds)))
  }

  function Step(w: World, call: Call): World {
    match Apply(w, call)
    case Ok(w') => w'
    case Err(_) => w
  }

  function Run(w: World, calls: seq<Call>): World
    decreases |calls|
  {
    if calls == [] then w else Run(Step(w, calls[0]), calls[1..])
  }

  lemma {:induction false} RunConcat(w: World, a: seq<Call>, b: seq<Call>)
    ensures Run(w, a + b) == Run(Run(w, a), b)
    decreases |a|
  {
    if a == [] {
      assert a + b == b;
    } else {
      assert (a + b)[1..] == a[1..] + b;
      RunConcat(Step(w, a[0]), a[1..], b);
    }
  }

  /** The layer just after it was initialised and wired: any balances, any time, nothing recorded. */
  ghost predicate Genesis(w: World) {
    && w.ledger.log == []
    && w.vault.nodes == map[] && w.vault.appetites == map[] && w.vault.withdrawals == map[]
    && 0 < w.vault.maxSingleFillBps <= BPS_DENOMINATOR
    && w.router.escrows == map[] && w.router.feeBps <= MAX_PROTOCOL_FEE_BPS
    && w.queue.queues == map[]
    && w.auction == AuctionState(1, map[])
  }

  /** The four deployed contracts on one host. */
  class Layer {
    const auction: ExitAuction
    const host: Host
    const vault: Vault
    const router: SettlementRouter
    const queue: FifoQueue

    constructor (w: World)
      ensures Wired() && State() == w
    {
      var h := new Host(w.ledger);
      var v := new Vault(h, w.vault);
      var r := new SettlementRouter(h, v, w.router);
      var q := new FifoQueue(h, w.queue);
      auction := new ExitAuction(h, v, r, q, w.auction);
      host, vault, router, queue := h, v, r, q;
    }

    ghost predicate Wired() {
      && auction.Wired()
      && host == auction.host && vault == auction.vault && router == auction.router && queue == auction.queue
    }

    function State(): World
      reads auction, auction.host, auction.vault, auction.router, auction.queue
    {
      auction.Layer()
    }

    /** Runs one call as the host does: on any failure everything it touched is put back. */
    method Execute(call: Call) returns (r: Result<()>)
      requires Wired()
      modifies auction, host, vault, router, queue
      ensures State() == Step(old(State()), call)
      ensures match Apply(old(State()), call)
              case Ok(_) => r.Ok?
              case Err(e) => r == Err(e)
    {
      var before := State();
      r := Dispatch(call);
      if r.Err? {
        host.Restore(before.ledger);
        vault.Restore(before.vault);
        router.Restore(before.router);
        queue.Restore(before.queue);
        auction.Restore(before.auction);
      }
    }

    method Dispatch(call: Call) returns (r: Result<()>)
      requires Wired()
      modifies auction, host, vault, router, queue
      ensures match Apply(old(State()), call)
              case Ok(w) => r.Ok? && State() == w
              case Err(e) => r == Err(e)
    {
      if AuctionCall(call) {
        r := DispatchToAuction(call);
      } else if VaultCall(call) {
        r := DispatchToVault(call);
      } else {
        r := DispatchOther(call);
      }
    }

    method DispatchToVault(call: Call) returns (r: Result<()>)
      requires Wired() && VaultCall(call)
      modifies host, vault
      ensures match Apply(old(State()), call)
              case Ok(w) => r.Ok? && State() == w
              case Err(e) => r == Err(e)
    {
      match call {
        case Deposit(node, amount) => r := vault.Deposit(node, amount);
        case RequestWithdrawal(node, amount) => r := vault.RequestWithdrawal(node, amount);
        case CancelWithdrawal(node) => r := vault.CancelWithdrawal(node);
        case ExecuteWithdrawal(node) => r := vault.ExecuteWithdrawal(node);
        case SetAppetite(node, asset, ceiling, floor, active) =>
          r := vault.SetAppetite(node, asset, ceiling, floor, active);
        case ReduceExposure(node, asset, amount) => r := vault.ReduceExposure(node, asset, amount);
        case SetMaxSingleFillBps(bps) => r := vault.SetMaxSingleFillBps(bps);
      }
    }

    method DispatchOther(call: Call) returns (r: Result<()>)
      requires Wired() && !VaultCall(call) && !AuctionCall(call)
      modifies host, router
      ensures match Apply(old(State()), call)
              case Ok(w) => r.Ok? && State() == w
              case Err(e) => r == Err(e)
    {
      match call {
        case SetProtocolFeeBps(bps) => r := router.SetProtocolFeeBps(bps);
        case SendTokens(token, from, to, amount) => r := host.Transfer(token, from, to, amount);
        case Tick(seconds) => host.Tick(seconds); r := Ok(());
      }
    }

    method DispatchToAuction(call: Call) returns (r: Result<()>)
      requires Wired() && AuctionCall(call)
      modifies auction, host, vault, router, queue
      ensures match Apply(old(State()), call)
              case Ok(w) => r.Ok? && State() == w
              case Err(e) => r == Err(e)
    {
      match call {
        case OpenExit(_, _, _, _, _, _) => r := DispatchOpening(call);
        case PlaceBid(node, id, usdc) => r := auction.PlaceBid(node, id, usdc);
        case AcceptBid(signer, id) => r := auction.AcceptBid(signer, id);
        case Close(id) => r := auction.Close(id);
        case Cancel(signer, id) => r := auction.Cancel(signer, id);
      }
    }

    method DispatchOpening(call: Call) returns (r: Result<()>)
      requires Wired() && call.OpenExit?
      modifies auction, host, router
      ensures match Apply(old(State()), call)
              case Ok(w) => r.Ok? && State() == w
              case Err(e) => r == Err(e)
    {
      var _ :- auction.OpenExit(call.seller, call.asset, call.amount, call.referenceUsdc, call.minAcceptUsdc,
                                 call.duration);
      return Ok(());
    }
  }
}
