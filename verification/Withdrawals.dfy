/**
 Taking capital out, over whole runs: a request waits out the whole timelock, executes from the
 very second it ends, pays what was asked last, and is then gone.
 */
module Withdrawals {
  import opened Ledger
  import opened LpVault
  import opened ExitAuction
  import opened Chain
  import opened Invariant
  import opened Effects
  import opened Changes
  import opened Reachable
  import opened Guarantees
  import opened EventLog

  function Pending(v: VaultState, n: Address): Option<WithdrawRequest> {
    if n in v.withdrawals then Some(v.withdrawals[n]) else None
  }

  // ---- one call ----

  /** A call that opens, drops or pays out the request of `n`. */
  predicate Touches(call: Call, n: Address) {
    (call.RequestWithdrawal? || call.CancelWithdrawal? || call.ExecuteWithdrawal?) && call.node == n
  }

  /** What a call leaves pending for `n`: only its own three calls change it. */
  function PendingAfter(w: World, call: Call, n: Address): Option<WithdrawRequest> {
    if !Touches(call, n) then Pending(w.vault, n)
    else if call.RequestWithdrawal?
    then Some(WithdrawRequest(call.amount, w.ledger.now + w.vault.config.withdrawTimelock))
    else None
  }

  lemma CapitalPending(w: World, call: Call, n: Address)
    requires !AuctionCall(call) && Apply(w, call).Ok?
    ensures Pending(Step(w, call).vault, n) == PendingAfter(w, call, n)
    ensures Step(w, call).ledger.now >= w.ledger.now
  {
  }

  lemma PendingStep(w: World, call: Call, n: Address)
    requires Inv(w)
    ensures Pending(Step(w, call).vault, n)
         == if Apply(w, call).Ok? then PendingAfter(w, call, n) else Pending(w.vault, n)
    ensures Step(w, call).ledger.now >= w.ledger.now
  {
    if Apply(w, call).Ok? {
      if AuctionCall(call) {
        CallMakes(w, call);
        ChangeWrites(w, Step(w, call), ChangeOf(w, call));
      } else {
        CapitalPending(w, call, n);
      }
    }
  }

  // ---- the timelock ----

  predicate WaitsUntil(w: World, n: Address, since: nat) {
    Pending(w.vault, n).Some? ==> Pending(w.vault, n).value.unlockAt >= since + w.vault.config.withdrawTimelock
  }

  lemma {:induction false} TimelockOverRuns(w: World, calls: seq<Call>, n: Address, since: nat)
    requires Inv(w) && w.ledger.now >= since && WaitsUntil(w, n, since)
    ensures WaitsUntil(Run(w, calls), n, since) && Run(w, calls).vault.config == w.vault.config
    decreases |calls|
  {
    if calls != [] {
      StepKeeps(w, calls[0]);
      SettingsFixed(w, calls[0]);
      PendingStep(w, calls[0], n);
      TimelockOverRuns(Step(w, calls[0]), calls[1..], n, since);
    }
  }

  /** From a state with nothing pending, no withdrawal executes before the whole timelock has passed. */
  lemma {:induction false} NoWithdrawalBeforeTimelock(w: World, calls: seq<Call>, n: User)
    requires Inv(w) && n !in w.vault.withdrawals
    requires Apply(Run(w, calls), ExecuteWithdrawal(n)).Ok?
    ensures Run(w, calls).ledger.now - w.ledger.now >= w.vault.config.withdrawTimelock
  {
    RunKeeps(w, calls);
    TimelockOverRuns(w, calls, n, w.ledger.now);
    WithdrawalAlwaysExecutes(Run(w, calls), n);
  }

  /** What a run leaves pending for a node that does not touch its request. */
  lemma {:induction false} UntouchedOverRuns(w: World, calls: seq<Call>, n: Address)
    requires Inv(w) && forall i :: 0 <= i < |calls| ==> !Touches(calls[i], n)
    ensures Pending(Run(w, calls).vault, n) == Pending(w.vault, n)
    decreases |calls|
  {
    if calls != [] {
      StepKeeps(w, calls[0]);
      PendingStep(w, calls[0], n);
      assert forall i :: 0 <= i < |calls[1..]| ==> calls[1..][i] == calls[i + 1];
      UntouchedOverRuns(Step(w, calls[0]), calls[1..], n);
    }
  }

  /**
   A request that its node leaves alone executes from the second the timelock ends, and not a
   second before, whatever else happens in between; it pays the amount asked for.
   */
  lemma {:induction false} TimelockIsExact(w: World, n: User, amount: int, calls: seq<Call>)
    requires Inv(w) && Apply(w, RequestWithdrawal(n, amount)).Ok?
    requires forall i :: 0 <= i < |calls| ==> !Touches(calls[i], n)
    ensures var w' := Run(Step(w, RequestWithdrawal(n, amount)), calls);
            && (Apply(w', ExecuteWithdrawal(n)).Ok? <==>
                  w'.ledger.now >= w.ledger.now + w.vault.config.withdrawTimelock)
            && (Apply(w', ExecuteWithdrawal(n)).Ok? ==> PaysOut(w', Step(w', ExecuteWithdrawal(n)), n, amount))
  {
    var asked := Step(w, RequestWithdrawal(n, amount));
    StepKeeps(w, RequestWithdrawal(n, amount));
    PendingStep(w, RequestWithdrawal(n, amount), n);
    RunKeeps(asked, calls);
    UntouchedOverRuns(asked, calls, n);
    ExecutesPending(Run(asked, calls), n);
  }

  /** The request is gone, the deposit is down and the node's own USDC is up by `amount`. */
  predicate PaysOut(w: World, w': World, n: User, amount: int) {
    && Pending(w'.vault, n) == None
    && DepositOf(w'.vault, n) == DepositOf(w.vault, n) - amount
    && w'.ledger.Balance(w.vault.config.usdc, n) == w.ledger.Balance(w.vault.config.usdc, n) + amount
  }

  lemma ExecutesPending(w: World, n: User)
    requires Inv(w)
    ensures Apply(w, ExecuteWithdrawal(n)).Ok?
       <==> Pending(w.vault, n).Some? && w.ledger.now >= Pending(w.vault, n).value.unlockAt
    ensures Apply(w, ExecuteWithdrawal(n)).Ok? ==>
              PaysOut(w, Step(w, ExecuteWithdrawal(n)), n, Pending(w.vault, n).value.amount)
  {
    WithdrawalAlwaysExecutes(w, n);
    if Apply(w, ExecuteWithdrawal(n)).Ok? {
      PaidToNode(w, n);
    }
  }

  lemma PaidToNode(w: World, n: User)
    requires Apply(w, ExecuteWithdrawal(n)).Ok?
    ensures PaysOut(w, Step(w, ExecuteWithdrawal(n)), n, w.vault.withdrawals[n].amount)
  {
    var usdc, amount := w.vault.config.usdc, w.vault.withdrawals[n].amount;
    TransferMoves(w.ledger, usdc, VaultContract, n, amount);
    var paid := w.ledger.Transfer(usdc, VaultContract, n, amount).value;
    assert Step(w, ExecuteWithdrawal(n)).ledger.Balance(usdc, n) == paid.Balance(usdc, n);
  }

  // ---- the same, read off the log ----

  /** The request of `n` the log leaves open. */
  function LastAsked(log: seq<Event>, n: Address): Option<WithdrawRequest> {
    if log == [] then None
    else
      var e := log[|log| - 1];
      if e.WithdrawRequested? && e.node == n then Some(WithdrawRequest(e.amount, e.unlockAt))
      else if (e.WithdrawCancelled? || e.Withdraw?) && e.node == n then None
      else LastAsked(log[..|log| - 1], n)
  }

  lemma {:induction false} AskedGrows(log: seq<Event>, e: Event, n: Address)
    ensures LastAsked(log + [e], n)
         == if e.WithdrawRequested? && e.node == n then Some(WithdrawRequest(e.amount, e.unlockAt))
            else if (e.WithdrawCancelled? || e.Withdraw?) && e.node == n then None
            else LastAsked(log, n)
  {
    assert (log + [e])[..|log + [e]| - 1] == log;
  }

  lemma {:induction false} NothingAsked(log: seq<Event>, es: seq<Event>, n: Address)
    requires forall e :: e in es ==> !OfCapital(e)
    ensures LastAsked(log + es, n) == LastAsked(log, n)
  {
    if es == [] {
      assert log + es == log;
    } else {
      var k := |es| - 1;
      assert log + es == (log + es[..k]) + [es[k]] && es[k] in es;
      NothingAsked(log, es[..k], n);
      AskedGrows(log + es[..k], es[k], n);
    }
  }

  lemma {:induction false} CapitalAsked(w: World, call: Call, log: seq<Event>, n: Address)
    requires Pending(w.vault, n) == LastAsked(log, n) && !AuctionCall(call)
    ensures PendingAfter(w, call, n) == LastAsked(log + CapitalEvents(w, call), n)
  {
    var es := CapitalEvents(w, call);
    if es == [] {
      assert log + es == log;
    } else {
      AskedGrows(log, es[0], n);
    }
  }

  lemma {:induction false} AskedOverRuns(w: World, calls: seq<Call>, n: Address)
    requires Inv(w) && Pending(w.vault, n) == LastAsked(w.ledger.log, n)
    ensures Pending(Run(w, calls).vault, n) == LastAsked(Run(w, calls).ledger.log, n)
    decreases |calls|
  {
    if calls != [] {
      var w' := Step(w, calls[0]);
      StepKeeps(w, calls[0]);
      if Apply(w, calls[0]).Ok? {
        if AuctionCall(calls[0]) {
          CallMakes(w, calls[0]);
          ChangeWrites(w, w', ChangeOf(w, calls[0]));
          ChangeAppended(w, w', ChangeOf(w, calls[0]));
          NothingAsked(w.ledger.log, ChangeEvents(w, ChangeOf(w, calls[0])), n);
        } else {
          CapitalAppended(w, calls[0]);
          CapitalPending(w, calls[0], n);
          CapitalAsked(w, calls[0], w.ledger.log, n);
        }
      }
      AskedOverRuns(w', calls[1..], n);
    }
  }

  /**
   After any run the log says what can be withdrawn: the last request of the node that it neither
   cancelled nor withdrew, from the second its event announced, for the amount it announced.
   */
  lemma {:induction false} WithdrawsTheLastRequest(w0: World, calls: seq<Call>, n: User)
    requires Genesis(w0)
    ensures var w := Run(w0, calls);
            var asked := LastAsked(w.ledger.log, n);
            && (Apply(w, ExecuteWithdrawal(n)).Ok? <==> asked.Some? && w.ledger.now >= asked.value.unlockAt)
            && (Apply(w, ExecuteWithdrawal(n)).Ok? ==>
                  PaysOut(w, Step(w, ExecuteWithdrawal(n)), n, asked.value.amount))
  {
    GenesisHolds(w0);
    ReachableHolds(w0, calls);
    AskedOverRuns(w0, calls, n);
    ExecutesPending(Run(w0, calls), n);
  }
}
