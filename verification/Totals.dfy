/**
 Sums. `Sum` adds the values of a map. `Total` adds one measure over all exits, which is
 what ties the contracts' separate ledgers together.
 */
module Totals {
  import opened Ledger
  import opened ExitAuction

  ghost function Pick(m: map<Address, int>): (k: Address)
    requires m != map[]
    ensures k in m
  {
    var k :| k in m;
    k
  }

  /** The sum of all values of `m`; the order in which keys are picked does not matter (SumAt). */
  ghost function Sum(m: map<Address, int>): int
    decreases |m|
  {
    if m == map[] then 0 else m[Pick(m)] + Sum(m - {Pick(m)})
  }

  function At(m: map<Address, int>, k: Address): int {
    if k in m then m[k] else 0
  }

  lemma {:induction false} SumAt(m: map<Address, int>, k: Address)
    requires k in m
    ensures Sum(m) == m[k] + Sum(m - {k})
    decreases |m|
  {
    var c := Pick(m);
    if c != k {
      assert m - {c} - {k} == m - {k} - {c};
      SumAt(m - {c}, k);
      SumAt(m - {k}, c);
    }
  }

  lemma SumSet(m: map<Address, int>, k: Address, x: int)
    ensures Sum(m[k := x]) == Sum(m) - At(m, k) + x
  {
    SumAt(m[k := x], k);
    assert m[k := x] - {k} == m - {k};
    if k in m {
      SumAt(m, k);
    } else {
      assert m - {k} == m;
    }
  }

  lemma {:induction false} SumAtLeast(m: map<Address, int>, k: Address)
    requires forall j :: j in m ==> m[j] >= 0
    ensures 0 <= At(m, k) <= Sum(m)
    decreases |m|
  {
    if m != map[] {
      SumAtLeast(m - {Pick(m)}, k);
    }
  }

  datatype Measure =
    | LiveBids(node: Address)
    | SettledBids(node: Address)
    | LiveBidsOn(node: Address, asset: Address)
    | SettledBidsOn(node: Address, asset: Address)
    | HeldTokens(asset: Address)
    | ExitsOn(asset: Address)
    | WithStatus(asset: Address, status: Status)
    | SoldOn(asset: Address)
    | PaidOn(asset: Address)
    | AllPaid
    | AllWith(status: Status)
    | WonBy(node: Address)

  function If(b: bool, x: int): int {
    if b then x else 0
  }

  /** What one exit adds to a measure. */
  function Weight(m: Measure, x: Exit): int {
    match m
    case LiveBids(n) => If(x.Live() && x.bestNode == Some(n), x.bestUsdc)
    case SettledBids(n) => If(x.status == Status.Settled && x.bestNode == Some(n), x.bestUsdc)
    case LiveBidsOn(n, a) => If(x.asset == a && x.Live() && x.bestNode == Some(n), x.bestUsdc)
    case SettledBidsOn(n, a) => If(x.asset == a && x.status == Status.Settled && x.bestNode == Some(n), x.bestUsdc)
    case HeldTokens(a) => If(x.asset == a && x.Live(), x.amount)
    case ExitsOn(a) => If(x.asset == a, 1)
    case WithStatus(a, s) => If(x.asset == a && x.status == s, 1)
    case SoldOn(a) => If(x.asset == a && x.status == Status.Settled, x.amount)
    case PaidOn(a) => If(x.asset == a && x.status == Status.Settled, x.bestUsdc)
    case AllPaid => If(x.status == Status.Settled, x.bestUsdc)
    case AllWith(s) => If(x.status == s, 1)
    case WonBy(n) => If(x.status == Status.Settled && x.bestNode == Some(n), 1)
  }

  function WeightAt(m: Measure, exits: map<nat, Exit>, id: nat): int {
    if id in exits then Weight(m, exits[id]) else 0
  }

  /** The measure summed over the exits with ids below `bound`. */
  function Total(m: Measure, exits: map<nat, Exit>, bound: nat): int {
    if bound == 0 then 0 else Total(m, exits, bound - 1) + WeightAt(m, exits, bound - 1)
  }

  /** Over every exit there is: ids are dense below `nextId`. */
  function Ledgered(m: Measure, a: AuctionState): int {
    Total(m, a.exits, a.nextId)
  }

  lemma {:induction false} TotalSet(m: Measure, exits: map<nat, Exit>, bound: nat, x: Exit)
    ensures Total(m, exits[x.id := x], bound)
         == Total(m, exits, bound) + If(x.id < bound, Weight(m, x) - WeightAt(m, exits, x.id))
  {
    if bound > 0 {
      TotalSet(m, exits, bound - 1, x);
    }
  }

  lemma {:induction false} TotalEmpty(m: Measure, bound: nat)
    ensures Total(m, map[], bound) == 0
  {
    if bound > 0 {
      TotalEmpty(m, bound - 1);
    }
  }

  /** When every bid and amount is non-negative, no single exit exceeds its total. */
  lemma {:induction false} TotalAtLeast(m: Measure, exits: map<nat, Exit>, bound: nat, id: nat)
    requires forall i :: i in exits ==> exits[i].bestUsdc >= 0 && exits[i].amount >= 0
    ensures Total(m, exits, bound) >= 0
    ensures id < bound ==> Total(m, exits, bound) >= WeightAt(m, exits, id) >= 0
  {
    if bound > 0 {
      TotalAtLeast(m, exits, bound - 1, id);
    }
  }

  /** One exit changes; nothing else does. */
  lemma LedgeredSet(m: Measure, a: AuctionState, x: Exit)
    requires x.id in a.exits && x.id < a.nextId
    ensures Ledgered(m, a.(exits := a.exits[x.id := x]))
         == Ledgered(m, a) + Weight(m, x) - Weight(m, a.exits[x.id])
  {
    TotalSet(m, a.exits, a.nextId, x);
  }

  /** One exit is added at the next id. */
  lemma LedgeredNew(m: Measure, a: AuctionState, x: Exit)
    requires x.id == a.nextId && x.id !in a.exits
    ensures Ledgered(m, AuctionState(a.nextId + 1, a.exits[x.id := x])) == Ledgered(m, a) + Weight(m, x)
  {
    TotalSet(m, a.exits, a.nextId, x);
  }
}
