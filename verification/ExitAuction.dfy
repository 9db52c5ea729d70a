/**
 One exit after another, from its opening to a sale or a cancellation. All money and every
 line belong to the other three contracts; this one tells them what to do. `World` is the
 stored state of all four contracts and the host, and its members are the entry points here.
 */
module ExitAuction {
  import opened Ledger
  import opened LpVault
  import opened SettlementRouter
  import opened FifoQueue

  const DEFAULT_DURATION: nat := 300
  const MIN_DURATION: nat := 60
  const MAX_DURATION: nat := 86_400

  datatype Status = Open | Settled | Queued | Cancelled

  datatype Exit = Exit(
    id: nat,
    seller: Address,
    asset: Address,
    amount: int,
    referenceUsdc: int,
    minAcceptUsdc: int,
    openedAt: nat,
    closesAt: nat,
    status: Status,
    bestNode: Option<Address>,
    bestUsdc: int)
  {
    /** Not ended: its tokens are in escrow and it may yet be sold. */
    predicate Live() {
      status == Status.Open || status == Status.Queued
    }

    function WithBid(node: Address, usdc: int): Exit {
      this.(bestNode := Some(node), bestUsdc := usdc)
    }

    function AsCancelled(): Exit {
      this.(status := Status.Cancelled, bestNode := None, bestUsdc := 0)
    }
  }

  /** How far a bid lies below the reference, as a share of it in basis points. */
  function DiscountBps(referenceUsdc: int, usdcAmount: int): nat
    requires usdcAmount > 0
  {
    if usdcAmount >= referenceUsdc then 0
    else
      var off := (referenceUsdc - usdcAmount) * BPS_DENOMINATOR;
      assert off >= 0;
      DivTrunc(off, referenceUsdc)
  }

  datatype AuctionState = AuctionState(nextId: nat, exits: map<nat, Exit>)

  datatype World = World(
    ledger: LedgerState,
    vault: VaultState,
    router: RouterState,
    queue: QueueState,
    auction: AuctionState)
  {
    function WithExit(x: Exit): World {
      this.(auction := auction.(exits := auction.exits[x.id := x]))
    }

    function OpenExit(seller: Address, asset: Address, amount: int, referenceUsdc: int,
                      minAcceptUsdc: int, duration: Option<nat>): Result<World>
    {
      var window := if duration.Some? then duration.value else DEFAULT_DURATION;
      if amount <= 0 || minAcceptUsdc < 0 then Err(Auction(AuctionError.InvalidAmount))
      else if referenceUsdc <= 0 then Err(Auction(InvalidReference))
      else if !(MIN_DURATION <= window <= MAX_DURATION) then Err(Auction(InvalidDuration))
      else
        var id := auction.nextId;
        var (r, l) :- router.Escrow(ledger, id, seller, asset, amount);
        var closesAt := ledger.now + window;
        var x := Exit(id, seller, asset, amount, referenceUsdc, minAcceptUsdc,
                      ledger.now, closesAt, Status.Open, None, 0);
        Ok(this.(
           ledger := l.Publish(Opened(asset, id, seller, amount, referenceUsdc, minAcceptUsdc, closesAt)),
           router := r,
           auction := AuctionState(id + 1, auction.exits[id := x])))
    }

    predicate AtHead(x: Exit) {
      var head := queue.Head(x.asset);
      head.None? || head.value == x.id
    }

    /** A sale: the router settles, and a queued exit gives up its place. */
    function Fill(x: Exit): Result<World> {
      if x.bestUsdc < x.minAcceptUsdc then Err(Auction(ReserveNotMet))
      else if !AtHead(x) then Err(Auction(NotAtHead))
      else if x.bestNode.None? then Err(Auction(NoBids))
      else
        var (r, v, l) :- router.Settle(vault, ledger, x.id, x.bestNode.value, x.amount, x.bestUsdc);
        var (q, l') :- LeaveLine(l, x);
        Ok(this.(ledger := l', vault := v, router := r, queue := q).WithExit(x.(status := Status.Settled)))
    }

    function LeaveLine(l: LedgerState, x: Exit): Result<(QueueState, LedgerState)> {
      if x.status == Status.Queued then queue.Dequeue(l, x.asset, x.id) else Ok((queue, l))
    }

    function ReleaseBest(v: VaultState, l: LedgerState, x: Exit): Result<(VaultState, LedgerState)> {
      if x.bestNode.Some? then v.Release(l, x.bestNode.value, x.asset, x.bestUsdc) else Ok((v, l))
    }

    function AcceptBid(signer: Address, id: nat): Result<World> {
      if id !in auction.exits then Err(Auction(UnknownExit))
      else
        var x := auction.exits[id];
        if signer != x.seller then Err(Unauthorized)
        else if !x.Live() then Err(Auction(ExitClosed))
        else if x.bestNode.None? then Err(Auction(NoBids))
        else Fill(x)
    }

    function Cancel(signer: Address, id: nat): Result<World> {
      if id !in auction.exits then Err(Auction(UnknownExit))
      else
        var x := auction.exits[id];
        if signer != x.seller then Err(Unauthorized)
        else if !x.Live() then Err(Auction(ExitClosed))
        else
          var (v, l1) :- ReleaseBest(vault, ledger, x);
          var (q, l2) :- LeaveLine(l1, x);
          var (r, l3) :- router.Refund(l2, id);
          Ok(this.(ledger := l3.Publish(Event.Cancelled(x.asset, id, x.seller)), vault := v, router := r, queue := q)
             .WithExit(x.AsCancelled()))
    }

    /** Commits the new bid before releasing the one it displaces. */
    function Displace(x: Exit, node: Address, usdcAmount: int, discountBps: nat): Result<(VaultState, LedgerState)> {
      var (v, l) :- vault.Commit(ledger, node, x.asset, usdcAmount, discountBps);
      ReleaseBest(v, l, x)
    }

    function PlaceBid(node: Address, id: nat, usdcAmount: int): Result<World> {
      if id !in auction.exits then Err(Auction(UnknownExit))
      else
        var x := auction.exits[id];
        if !x.Live() then Err(Auction(ExitClosed))
        else if x.status == Status.Open && ledger.now > x.closesAt then Err(Auction(BiddingOver))
        else if usdcAmount <= 0 then Err(Auction(AuctionError.InvalidAmount))
        else if usdcAmount <= x.bestUsdc then Err(Auction(BidTooLow))
        else
          var discount := DiscountBps(x.referenceUsdc, usdcAmount);
          var (v, l) :- Displace(x, node, usdcAmount, discount);
          Ok(this.(ledger := l.Publish(Bid(x.asset, id, node, usdcAmount, discount, x.bestNode)), vault := v)
             .WithExit(x.WithBid(node, usdcAmount)))
    }

    function Close(id: nat): Result<World> {
      if id !in auction.exits then Err(Auction(UnknownExit))
      else
        var x := auction.exits[id];
        if x.status != Status.Open then Err(Auction(ExitClosed))
        else if ledger.now <= x.closesAt then Err(Auction(StillBidding))
        else if x.bestNode.Some? && x.bestUsdc >= x.minAcceptUsdc && AtHead(x) then Fill(x)
        else
          var (q, l) :- queue.Enqueue(ledger, x.asset, x.id);
          Ok(this.(ledger := l, queue := q).WithExit(x.(status := Status.Queued)))
    }
  }

  class ExitAuction {
    const host: Host
    const vault: Vault
    const router: SettlementRouter
    const queue: FifoQueue
    var nextId: nat
    var exits: map<nat, Exit>

    constructor (host: Host, vault: Vault, router: SettlementRouter, queue: FifoQueue, s: AuctionState)
      ensures this.host == host && this.vault == vault && this.router == router && this.queue == queue
      ensures State() == s
    {
      this.host, this.vault, this.router, this.queue := host, vault, router, queue;
      nextId, exits := s.nextId, s.exits;
    }

    function State(): AuctionState
      reads this
    {
      AuctionState(nextId, exits)
    }

    method Restore(s: AuctionState)
      modifies this
      ensures State() == s
    {
      nextId, exits := s.nextId, s.exits;
    }

    /** All four contracts run on one host and point at each other. */
    ghost predicate Wired() {
      vault.host == host && router.host == host && router.vault == vault && queue.host == host
    }

    function Layer(): World
      reads this, host, vault, router, queue
    {
      World(host.State(), vault.State(), router.State(), queue.State(), State())
    }

    method OpenExit(seller: Address, asset: Address, amount: int, referenceUsdc: int,
                    minAcceptUsdc: int, duration: Option<nat>) returns (r: Result<nat>)
      requires Wired()
      modifies this, host, router
      ensures match old(Layer()).OpenExit(seller, asset, amount, referenceUsdc, minAcceptUsdc, duration)
              case Ok(w) => r == Ok(old(nextId)) && Layer() == w
              case Err(e) => r == Err(e)
    {
      if amount <= 0 || minAcceptUsdc < 0 {
        return Err(Auction(AuctionError.InvalidAmount));
      }
      if referenceUsdc <= 0 {
        return Err(Auction(InvalidReference));
      }
      var window := if duration.Some? then duration.value else DEFAULT_DURATION;
      if !(MIN_DURATION <= window <= MAX_DURATION) {
        return Err(Auction(InvalidDuration));
      }
      var id := nextId;
      nextId := id + 1;
      var _ :- router.Escrow(id, seller, asset, amount);
      var x := Exit(id, seller, asset, amount, referenceUsdc, minAcceptUsdc,
                    host.now, host.now + window, Status.Open, None, 0);
      exits := exits[id := x];
      host.Publish(Opened(asset, id, seller, amount, referenceUsdc, minAcceptUsdc, x.closesAt));
      return Ok(id);
    }

    method ReleaseBest(x: Exit) returns (r: Result<()>)
      requires Wired()
      modifies vault, host
      ensures match old(Layer()).ReleaseBest(old(vault.State()), old(host.State()), x)
              case Ok((v, l)) => r.Ok? && vault.State() == v && host.State() == l
              case Err(e) => r == Err(e)
    {
      if x.bestNode.Some? {
        var _ :- vault.Release(x.bestNode.value, x.asset, x.bestUsdc);
      }
      return Ok(());
    }

    method LeaveLine(x: Exit) returns (r: Result<()>)
      requires Wired()
      modifies queue, host
      ensures match old(Layer()).LeaveLine(old(host.State()), x)
              case Ok((q, l)) => r.Ok? && queue.State() == q && host.State() == l
              case Err(e) => r == Err(e)
    {
      if x.status == Status.Queued {
        var _ :- queue.Dequeue(x.asset, x.id);
      }
      return Ok(());
    }

    method Fill(x: Exit) returns (r: Result<()>)
      requires Wired()
      modifies this, host, vault, router, queue
      ensures match old(Layer()).Fill(x)
              case Ok(w) => r.Ok? && Layer() == w
              case Err(e) => r == Err(e)
    {
      if x.bestUsdc < x.minAcceptUsdc {
        return Err(Auction(ReserveNotMet));
      }
      if !Layer().AtHead(x) {
        return Err(Auction(NotAtHead));
      }
      if x.bestNode.None? {
        return Err(Auction(NoBids));
      }
      var _ :- router.Settle(x.id, x.bestNode.value, x.amount, x.bestUsdc);
      var _ :- LeaveLine(x);
      exits := exits[x.id := x.(status := Status.Settled)];
      return Ok(());
    }

    method AcceptBid(signer: Address, id: nat) returns (r: Result<()>)
      requires Wired()
      modifies this, host, vault, router, queue
      ensures match old(Layer()).AcceptBid(signer, id)
              case Ok(w) => r.Ok? && Layer() == w
              case Err(e) => r == Err(e)
    {
      if id !in exits {
        return Err(Auction(UnknownExit));
      }
      var x := exits[id];
      if signer != x.seller {
        return Err(Unauthorized);
      }
      if !x.Live() {
        return Err(Auction(ExitClosed));
      }
      if x.bestNode.None? {
        return Err(Auction(NoBids));
      }
      r := Fill(x);
    }

    method Cancel(signer: Address, id: nat) returns (r: Result<()>)
      requires Wired()
      modifies this, host, vault, router, queue
      ensures match old(Layer()).Cancel(signer, id)
              case Ok(w) => r.Ok? && Layer() == w
              case Err(e) => r == Err(e)
    {
      if id !in exits {
        return Err(Auction(UnknownExit));
      }
      var x := exits[id];
      if signer != x.seller {
        return Err(Unauthorized);
      }
      if !x.Live() {
        return Err(Auction(ExitClosed));
      }
      var _ :- ReleaseBest(x);
      var _ :- LeaveLine(x);
      var _ :- router.Refund(id);
      x := x.(status := Status.Cancelled, bestNode := None, bestUsdc := 0);
      exits := exits[x.id := x];
      host.Publish(Event.Cancelled(x.asset, id, x.seller));
      return Ok(());
    }

    method Displace(x: Exit, node: Address, usdcAmount: int, discountBps: nat) returns (r: Result<()>)
      requires Wired()
      modifies vault, host
      ensures match old(Layer()).Displace(x, node, usdcAmount, discountBps)
              case Ok((v, l)) => r.Ok? && vault.State() == v && host.State() == l
              case Err(e) => r == Err(e)
    {
      var _ :- vault.Commit(node, x.asset, usdcAmount, discountBps);
      r := ReleaseBest(x);
    }

    method PlaceBid(node: Address, id: nat, usdcAmount: int) returns (r: Result<()>)
      requires Wired()
      modifies this, host, vault
      ensures match old(Layer()).PlaceBid(node, id, usdcAmount)
              case Ok(w) => r.Ok? && Layer() == w
              case Err(e) => r == Err(e)
    {
      if id !in exits {
        return Err(Auction(UnknownExit));
      }
      var x := exits[id];
      if !x.Live() {
        return Err(Auction(ExitClosed));
      }
      if x.status == Status.Open && host.now > x.closesAt {
        return Err(Auction(BiddingOver));
      }
      if usdcAmount <= 0 {
        return Err(Auction(AuctionError.InvalidAmount));
      }
      if usdcAmount <= x.bestUsdc {
        return Err(Auction(BidTooLow));
      }
      var discount := DiscountBps(x.referenceUsdc, usdcAmount);
      var outbid := x.bestNode;
      var _ :- Displace(x, node, usdcAmount, discount);
      x := x.(bestNode := Some(node), bestUsdc := usdcAmount);
      exits := exits[x.id := x];
      host.Publish(Bid(x.asset, id, node, usdcAmount, discount, outbid));
      return Ok(());
    }

    method Close(id: nat) returns (r: Result<()>)
      requires Wired()
      modifies this, host, vault, router, queue
      ensures match old(Layer()).Close(id)
              case Ok(w) => r.Ok? && Layer() == w
              case Err(e) => r == Err(e)
    {
      if id !in exits {
        return Err(Auction(UnknownExit));
      }
      var x := exits[id];
      if x.status != Status.Open {
        return Err(Auction(ExitClosed));
      }
      if host.now <= x.closesAt {
        return Err(Auction(StillBidding));
      }
      var acceptable := x.bestNode.Some? && x.bestUsdc >= x.minAcceptUsdc;
      if acceptable && Layer().AtHead(x) {
        r := Fill(x);
        return;
      }
      var _ :- queue.Enqueue(x.asset, x.id);
      x := x.(status := Status.Queued);
      exits := exits[x.id := x];
      return Ok(());
    }
  }
}
