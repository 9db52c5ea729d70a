/**
 The host the contracts run on: addresses, error codes, the event stream, token
 balances and the ledger clock. Token contracts are modelled by one balance table;
 a transfer moves exactly its amount or is refused.
 */
module Ledger {

  datatype Option<+T> = None | Some(value: T)

  datatype Result<+T> = Ok(value: T) | Err(error: Error) {
    predicate IsFailure() {
      Err?
    }

    function PropagateFailure<U>(): Result<U>
      requires Err?
    {
      Err(error)
    }

    function Extract(): T
      requires Ok?
    {
      value
    }
  }

  /** The four contracts, and everybody else. A `User` is any address that can sign. */
  datatype Address = VaultContract | RouterContract | QueueContract | AuctionContract | Party(id: nat)

  type User = a: Address | a.Party? witness Party(0)

  /** Every contract has its own codes, kept apart here by the constructor. */
  datatype Error =
    | Vault(vault: VaultError)
    | Router(router: RouterError)
    | Queue(queue: QueueError)
    | Auction(auction: AuctionError)
    | Token(token: TokenError)
    | Unauthorized

  datatype VaultError =
    | InvalidAmount | BelowMinDeposit | UnknownNode | InsufficientFreeBalance
    | WithdrawalPending | NoWithdrawalPending | TimelockNotElapsed
    | NoAppetite | AppetiteInactive | ExposureExceeded | DiscountBelowFloor | BackingTooYoung
    | SingleFillCapExceeded | CommitUnderflow | InvalidBps

  datatype RouterError = InvalidAmount | InvalidBps | AlreadyEscrowed | NothingEscrowed | ExceedsEscrow

  datatype QueueError = AlreadyQueued | NotQueued | QueueFull

  datatype AuctionError =
    | UnknownExit | InvalidAmount | InvalidDuration | InvalidReference | ExitClosed | BiddingOver
    | StillBidding | BidTooLow | NoBids | ReserveNotMet | NotAtHead

  datatype TokenError = NegativeAmount | InsufficientBalance

  datatype Event =
    | Deposit(node: Address, amount: int, totalDeposited: int)
    | Withdraw(node: Address, amount: int, totalDeposited: int)
    | WithdrawRequested(node: Address, amount: int, unlockAt: nat)
    | WithdrawCancelled(node: Address, amount: int)
    | AppetiteSet(node: Address, asset: Address, maxExposure: int, minDiscountBps: nat, active: bool)
    | Committed(node: Address, asset: Address, amount: int)
    | Released(node: Address, asset: Address, amount: int)
    | PaidOut(node: Address, asset: Address, to: Address, amount: int)
    | Escrowed(asset: Address, exitId: nat, seller: Address, amount: int)
    | Settled(asset: Address, exitId: nat, seller: Address, node: Address, tokenAmount: int,
              usdcGross: int, protocolFee: int, usdcNet: int, remaining: int)
    | Refunded(asset: Address, exitId: nat, seller: Address, amount: int)
    | Queued(asset: Address, exitId: nat, position: nat, depth: nat)
    | Dequeued(asset: Address, exitId: nat, depth: nat)
    | Opened(asset: Address, exitId: nat, seller: Address, amount: int, referenceUsdc: int,
             minAcceptUsdc: int, closesAt: nat)
    | Bid(asset: Address, exitId: nat, node: Address, usdcAmount: int, discountBps: nat,
          outbid: Option<Address>)
    | Cancelled(asset: Address, exitId: nat, seller: Address)

  const BPS_DENOMINATOR: int := 10_000

  /** Integer division rounding toward zero, as the contracts' `/` does on i128. */
  function DivTrunc(a: int, b: int): int
    requires b > 0
  {
    if a >= 0 then a / b else -((-a) / b)
  }

  type Balances = map<Address, nat>

  function Held(row: Balances, holder: Address): nat {
    if holder in row then row[holder] else 0
  }

  function Shifted(row: Balances, from: Address, to: Address, amount: nat): Balances
    requires amount <= Held(row, from)
  {
    var taken := row[from := Held(row, from) - amount];
    taken[to := Held(taken, to) + amount]
  }

  datatype LedgerState = LedgerState(now: nat, balances: map<Address, Balances>, log: seq<Event>) {

    function Holders(token: Address): Balances {
      if token in balances then balances[token] else map[]
    }

    function Balance(token: Address, holder: Address): nat {
      Held(Holders(token), holder)
    }

    function Publish(e: Event): LedgerState {
      this.(log := log + [e])
    }

    /** Moves `amount` of `token`; the parties may be the same address (see TransferMoves). */
    function Transfer(token: Address, from: Address, to: Address, amount: int): Result<LedgerState> {
      if amount < 0 then Err(Token(NegativeAmount))
      else if Balance(token, from) < amount then Err(Token(InsufficientBalance))
      else
        Ok(this.(balances := balances[token := Shifted(Holders(token), from, to, amount)]))
    }
  }

  /** What one transfer changes in the balance of holder `h` in token `t`. */
  function Moved(token: Address, from: Address, to: Address, amount: int, t: Address, h: Address): int {
    if t != token || from == to then 0
    else if h == from then -amount
    else if h == to then amount
    else 0
  }

  /** A transfer is made when its payer has it, and moves exactly its amount between exactly its parties. */
  lemma TransferMoves(l: LedgerState, token: Address, from: Address, to: Address, amount: int)
    ensures l.Transfer(token, from, to, amount).Ok? <==> 0 <= amount <= l.Balance(token, from)
    ensures l.Transfer(token, from, to, amount).Ok? ==> forall t, h ::
              l.Transfer(token, from, to, amount).value.Balance(t, h)
                == l.Balance(t, h) + Moved(token, from, to, amount, t, h)
  {
  }

  /** The host environment every contract holds a reference to. */
  class Host {
    var now: nat
    var balances: map<Address, Balances>
    var log: seq<Event>

    constructor (s: LedgerState)
      ensures State() == s
    {
      now, balances, log := s.now, s.balances, s.log;
    }

    function State(): LedgerState
      reads this
    {
      LedgerState(now, balances, log)
    }

    method Restore(s: LedgerState)
      modifies this
      ensures State() == s
    {
      now, balances, log := s.now, s.balances, s.log;
    }

    method Publish(e: Event)
      modifies this
      ensures State() == old(State()).Publish(e)
    {
      log := log + [e];
    }

    method Transfer(token: Address, from: Address, to: Address, amount: int) returns (r: Result<()>)
      modifies this
      ensures match old(State()).Transfer(token, from, to, amount)
              case Ok(s) => r.Ok? && State() == s
              case Err(e) => r == Err(e) && State() == old(State())
    {
      var moved := State().Transfer(token, from, to, amount);
      if moved.Err? {
        return Err(moved.error);
      }
      balances := moved.value.balances;
      return Ok(());
    }

    method Tick(seconds: nat)
      modifies this
      ensures State() == old(State()).(now := old(now) + seconds)
    {
      now := now + seconds;
    }
  }
}
