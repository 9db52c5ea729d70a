/**
 The events each call publishes, in the order the contracts publish them, and what the log
 alone says about prices and money.
 */
module EventLog {
  import opened Ledger
  import opened LpVault
  import opened ExitAuction
  import opened Chain
  import opened Effects
  import opened Changes

  function DepositOf(v: VaultState, n: Address): int {
    if n in v.nodes then v.nodes[n].deposited else 0
  }

  /** What a successful call of the vault publishes. */
  function CapitalEvents(w: World, call: Call): seq<Event> {
    match call
    case Deposit(n, amount) => [Event.Deposit(n, amount, DepositOf(w.vault, n) + amount)]
    case RequestWithdrawal(n, amount) => [WithdrawRequested(n, amount, w.ledger.now + w.vault.config.withdrawTimelock)]
    case CancelWithdrawal(n) => [WithdrawCancelled(n, w.vault.Reserved(n))]
    case ExecuteWithdrawal(n) => [Withdraw(n, w.vault.Reserved(n), DepositOf(w.vault, n) - w.vault.Reserved(n))]
    case SetAppetite(n, a, ceiling, floor, active) => [AppetiteSet(n, a, ceiling, floor, active)]
    case _ => []
  }

  function OpenEvents(x: Exit): seq<Event> {
    [Escrowed(x.asset, x.id, x.seller, x.amount),
     Opened(x.asset, x.id, x.seller, x.amount, x.referenceUsdc, x.minAcceptUsdc, x.closesAt)]
  }

  function QueueEvents(w: World, x: Exit): seq<Event> {
    [Event.Queued(x.asset, x.id, |w.queue.Line(x.asset)|, |w.queue.Line(x.asset)| + 1)]
  }

  lemma CapitalAppended(w: World, call: Call)
    requires Apply(w, call).Ok?
    requires !(call.OpenExit? || call.PlaceBid? || call.AcceptBid? || call.Close? || call.Cancel?)
    ensures Step(w, call).ledger.log == w.ledger.log + CapitalEvents(w, call)
  {
  }

  /** Events about a node's own capital, which no sale or bid publishes. */
  predicate OfCapital(e: Event) {
    e.Deposit? || e.Withdraw? || e.WithdrawRequested? || e.WithdrawCancelled?
  }

  predicate Publishing(c: Change) {
    (c.Bids? ==> c.usdc > 0) && (c.Sells? ==> c.exit.bestNode.Some?)
  }

  /** What a change of one exit publishes. */
  function ChangeEvents(w: World, c: Change): seq<Event>
    requires Publishing(c)
  {
    match c
    case Opens(x) => OpenEvents(x)
    case Bids(x, node, usdc) => BidEvents(x, node, usdc)
    case Sells(x) => FillEvents(w, x)
    case Joins(x) => QueueEvents(w, x)
    case Drops(x) => CancelEvents(w, x)
  }

  lemma ChangeAppended(w: World, w': World, c: Change)
    requires Made(w, w', c)
    ensures Publishing(c) && w'.ledger.log == w.ledger.log + ChangeEvents(w, c)
    ensures forall e :: e in ChangeEvents(w, c) ==> !OfCapital(e)
  {
  }

  /** Only a bid publishes a bid, and only a sale publishes a payout or a sale. */
  lemma ChangeSpeaks(w: World, c: Change)
    requires Publishing(c)
    ensures forall e :: e in ChangeEvents(w, c) ==>
              && !e.AppetiteSet? && (e.Bid? ==> c.Bids?) && (e.PaidOut? || e.Settled? ==> c.Sells?)
  {
  }

  // ---- bids ----

  datatype Quote = Quote(node: Address, usdc: int)

  function QuoteIn(e: Event, id: nat): seq<Quote> {
    if e.Bid? && e.exitId == id then [Quote(e.node, e.usdcAmount)] else []
  }

  /** Every bid ever accepted on exit `id`, oldest first. */
  function QuotesOn(log: seq<Event>, id: nat): seq<Quote> {
    if log == [] then [] else QuotesOn(log[..|log| - 1], id) + QuoteIn(log[|log| - 1], id)
  }

  lemma {:induction false} QuotesAppend(log: seq<Event>, es: seq<Event>, id: nat)
    ensures QuotesOn(log + es, id) == QuotesOn(log, id) + QuotesOn(es, id)
  {
    if es == [] {
      assert log + es == log;
    } else {
      var n := |es| - 1;
      assert (log + es)[..|log + es| - 1] == log + es[..n];
      QuotesAppend(log, es[..n], id);
    }
  }

  // ---- money ----

  datatype Flow = DepositsBy(node: Address) | WithdrawalsBy(node: Address) | PayoutsBy(node: Address)
                | GrossSettled | NetToSellers | FeesToTreasury
                // The same by receiver or by asset; `None` stands for every asset.
                | PaidTo(on: Option<Address>, to: Address)
                | NetTo(on: Option<Address>, seller: Address)
                | FeesOn(on: Option<Address>)
                // What the events move into one holder's balance of one token.
                | Into(usdc: Address, token: Address, holder: Address)
                // How often something happened.
                | Times(what: Tally)

  datatype Tally = Deposited(node: Address) | Withdrawn(node: Address) | Won(node: Address)
                 | Bade(node: Address) | Outbid(node: Address)
                 | BidsOn(asset: Address) | JoinedOn(asset: Address)

  predicate Shows(e: Event, t: Tally) {
    match t
    case Deposited(n) => e.Deposit? && e.node == n
    case Withdrawn(n) => e.Withdraw? && e.node == n
    case Won(n) => e.Settled? && e.node == n
    case Bade(n) => e.Bid? && e.node == n
    case Outbid(n) => e.Bid? && e.outbid == Some(n)
    case BidsOn(a) => e.Bid? && e.asset == a
    case JoinedOn(a) => e.Queued? && e.asset == a
  }

  predicate Covers(on: Option<Address>, asset: Address) {
    on.None? || on.value == asset
  }

  /** The transfer an event stands for, seen from the balance of `h` in token `t`. */
  function MovedBy(usdc: Address, e: Event, t: Address, h: Address): int {
    match e
    case Deposit(node, amount, _) => Moved(usdc, node, VaultContract, amount, t, h)
    case Withdraw(node, amount, _) => Moved(usdc, VaultContract, node, amount, t, h)
    case PaidOut(_, _, to, amount) => Moved(usdc, VaultContract, to, amount, t, h)
    case Escrowed(asset, _, seller, amount) => Moved(asset, seller, RouterContract, amount, t, h)
    case Settled(asset, _, _, node, tokens, _, _, _, _) => Moved(asset, RouterContract, node, tokens, t, h)
    case Refunded(asset, _, seller, amount) => Moved(asset, RouterContract, seller, amount, t, h)
    case _ => 0
  }

  function FlowIn(f: Flow, e: Event): int {
    match f
    case DepositsBy(n) => if e.Deposit? && e.node == n then e.amount else 0
    case WithdrawalsBy(n) => if e.Withdraw? && e.node == n then e.amount else 0
    case PayoutsBy(n) => if e.PaidOut? && e.node == n then e.amount else 0
    case GrossSettled => if e.Settled? then e.usdcGross else 0
    case NetToSellers => if e.Settled? then e.usdcNet else 0
    case FeesToTreasury => if e.Settled? then e.protocolFee else 0
    case PaidTo(on, to) => if e.PaidOut? && Covers(on, e.asset) && e.to == to then e.amount else 0
    case NetTo(on, seller) => if e.Settled? && Covers(on, e.asset) && e.seller == seller then e.usdcNet else 0
    case FeesOn(on) => if e.Settled? && Covers(on, e.asset) then e.protocolFee else 0
    case Into(usdc, token, holder) => MovedBy(usdc, e, token, holder)
    case Times(t) => if Shows(e, t) then 1 else 0
  }

  function Flowed(f: Flow, log: seq<Event>): int {
    if log == [] then 0 else Flowed(f, log[..|log| - 1]) + FlowIn(f, log[|log| - 1])
  }

  lemma {:induction false} FlowedAppend(f: Flow, log: seq<Event>, es: seq<Event>)
    ensures Flowed(f, log + es) == Flowed(f, log) + Flowed(f, es)
  {
    if es == [] {
      assert log + es == log;
    } else {
      var n := |es| - 1;
      assert (log + es)[..|log + es| - 1] == log + es[..n];
      FlowedAppend(f, log, es[..n]);
    }
  }
}
