/**
 One line of waiting exits per asset. Exits join at the end and may leave from anywhere; no
 operation changes the order of those who stay.
 */
module FifoQueue {
  import opened Ledger

  const MAX_QUEUE_DEPTH: nat := 200

  ghost predicate Distinct(line: seq<nat>) {
    forall i, j :: 0 <= i < j < |line| ==> line[i] != line[j]
  }

  /** The first place of `id` in the line, or its length when it is not there. */
  function IndexOf(line: seq<nat>, id: nat): (i: nat)
    ensures i <= |line|
    ensures forall k :: 0 <= k < i ==> line[k] != id
    ensures i < |line| ==> line[i] == id
  {
    if line == [] || line[0] == id then 0
    else
      var rest := IndexOf(line[1..], id);
      assert forall k :: 0 <= k < rest ==> line[1..][k] == line[k + 1];
      rest + 1
  }

  /** The line without the place at `index`, the rest in the same order. */
  function Without(line: seq<nat>, index: nat): (rest: seq<nat>)
    requires index < |line|
    ensures |rest| == |line| - 1
    ensures forall k :: 0 <= k < |rest| ==> rest[k] == line[if k < index then k else k + 1]
  {
    line[..index] + line[index + 1..]
  }

  datatype QueueState = QueueState(queues: map<Address, seq<nat>>) {

    function Line(asset: Address): seq<nat> {
      if asset in queues then queues[asset] else []
    }

    function Head(asset: Address): Option<nat> {
      if Line(asset) == [] then None else Some(Line(asset)[0])
    }

    function Enqueue(l: LedgerState, asset: Address, exitId: nat): Result<(QueueState, LedgerState)> {
      var line := Line(asset);
      if |line| >= MAX_QUEUE_DEPTH then Err(Queue(QueueFull))
      else if exitId in line then Err(Queue(AlreadyQueued))
      else Ok((QueueState(queues[asset := line + [exitId]]),
               l.Publish(Queued(asset, exitId, |line|, |line| + 1))))
    }

    function Dequeue(l: LedgerState, asset: Address, exitId: nat): Result<(QueueState, LedgerState)> {
      var line := Line(asset);
      var index := IndexOf(line, exitId);
      if index == |line| then Err(Queue(NotQueued))
      else Ok((QueueState(queues[asset := Without(line, index)]),
               l.Publish(Dequeued(asset, exitId, |line| - 1))))
    }
  }

  class FifoQueue {
    const host: Host
    var queues: map<Address, seq<nat>>

    constructor (host: Host, s: QueueState)
      ensures this.host == host && State() == s
    {
      this.host := host;
      queues := s.queues;
    }

    function State(): QueueState
      reads this
    {
      QueueState(queues)
    }

    method Restore(s: QueueState)
      modifies this
      ensures State() == s
    {
      queues := s.queues;
    }

    method Enqueue(asset: Address, exitId: nat) returns (r: Result<nat>)
      modifies this, host
      ensures match old(State()).Enqueue(old(host.State()), asset, exitId)
              case Ok((q, l)) => State() == q && host.State() == l && r == Ok(|old(State()).Line(asset)|)
              case Err(e) => r == Err(e)
    {
      var queue := if asset in queues then queues[asset] else [];
      if |queue| >= MAX_QUEUE_DEPTH {
        return Err(Queue(QueueFull));
      }
      if exitId in queue {
        return Err(Queue(AlreadyQueued));
      }
      queue := queue + [exitId];
      var position, depth := |queue| - 1, |queue|;
      queues := queues[asset := queue];
      host.Publish(Queued(asset, exitId, position, depth));
      return Ok(position);
    }

    method Dequeue(asset: Address, exitId: nat) returns (r: Result<()>)
      modifies this, host
      ensures match old(State()).Dequeue(old(host.State()), asset, exitId)
              case Ok((q, l)) => r.Ok? && State() == q && host.State() == l
              case Err(e) => r == Err(e)
    {
      var queue := if asset in queues then queues[asset] else [];
      var index := IndexOf(queue, exitId);
      if index == |queue| {
        return Err(Queue(NotQueued));
      }
      var next := Rebuild(queue, index);
      queues := queues[asset := next];
      host.Publish(Dequeued(asset, exitId, |next|));
      return Ok(());
    }

    /** `position_of`: where the exit stands, 0 being next. */
    method PositionOf(asset: Address, exitId: nat) returns (position: Option<nat>)
      ensures position.None? <==> exitId !in State().Line(asset)
      ensures position.Some? ==> position.value < |State().Line(asset)|
      ensures position.Some? ==> State().Line(asset)[position.value] == exitId
      ensures position.Some? ==> exitId !in State().Line(asset)[..position.value]
    {
      var queue := if asset in queues then queues[asset] else [];
      var i := 0;
      while i < |queue|
        invariant 0 <= i <= |queue|
        invariant exitId !in queue[..i]
      {
        if queue[i] == exitId {
          return Some(i);
        }
        i := i + 1;
      }
      return None;
    }
  }

  /** The loop of `dequeue`: copies every place but one, in order. */
  method Rebuild(queue: seq<nat>, index: nat) returns (next: seq<nat>)
    requires index < |queue|
    ensures next == Without(queue, index)
  {
    next := [];
    for i := 0 to |queue|
      invariant |next| == if i <= index then i else i - 1
      invariant forall k :: 0 <= k < |next| ==> next[k] == queue[if k < index then k else k + 1]
    {
      if i != index {
        next := next + [queue[i]];
      }
    }
  }
}
