// The bounded queue between producers and workers.  Each method is one region
// under the queue's mutex; a wait is split into the region before it and the
// region after it.
module BoundedQueue {
  import opened Evidence

  datatype PushOutcome = Accepted | RejectedFull | RejectedClosed

  datatype Stats = Stats(pushed: nat, popped: nat, rejectedFull: nat, rejectedClosed: nat, highWater: nat)

  const NO_STATS := Stats(0, 0, 0, 0, 0)

  // The queue as a value, and its operations as functions.
  datatype Contents<T> = Contents(items: seq<T>, capacity: nat, closed: bool, stats: Stats)

  function Append<T>(q: Contents<T>, item: T): Contents<T> {
    var depth := |q.items| + 1;
    q.(items := q.items + [item],
       stats := q.stats.(pushed := q.stats.pushed + 1,
                         highWater := if depth > q.stats.highWater then depth else q.stats.highWater))
  }

  function RefuseClosed<T>(q: Contents<T>): Contents<T> {
    q.(stats := q.stats.(rejectedClosed := q.stats.rejectedClosed + 1))
  }

  predicate HasRoom<T>(q: Contents<T>) {
    |q.items| < q.capacity
  }

  // A blocking push ends when there is room, or the queue was closed, or the
  // producer was asked to stop.
  function Pushed<T>(q: Contents<T>, item: T): (Contents<T>, PushOutcome) {
    if !q.closed && HasRoom(q) then (Append(q, item), Accepted) else (RefuseClosed(q), RejectedClosed)
  }

  function TryPushed<T>(q: Contents<T>, item: T): (Contents<T>, PushOutcome) {
    if q.closed then (RefuseClosed(q), RejectedClosed)
    else if HasRoom(q) then (Append(q, item), Accepted)
    else (q.(stats := q.stats.(rejectedFull := q.stats.rejectedFull + 1)), RejectedFull)
  }

  function Popped<T>(q: Contents<T>): (Contents<T>, Option<T>) {
    if q.items == [] then (q, None)
    else (q.(items := q.items[1..], stats := q.stats.(popped := q.stats.popped + 1)), Some(q.items[0]))
  }

  function Closed<T>(q: Contents<T>): Contents<T> {
    q.(closed := true, items := [])
  }

  function Drained<T>(q: Contents<T>): Contents<T> {
    q.(closed := true)
  }

  // What every operation keeps.
  ghost predicate Bounded<T>(q: Contents<T>) {
    && |q.items| <= q.stats.highWater <= q.capacity
    && q.stats.popped + |q.items| <= q.stats.pushed
  }

  lemma OperationsKeepBounded<T>(q: Contents<T>, item: T)
    requires Bounded(q)
    ensures Bounded(Pushed(q, item).0) && Bounded(TryPushed(q, item).0) && Bounded(Popped(q).0)
    ensures Bounded(Closed(q)) && Bounded(Drained(q))
  {
  }

  class Queue<T> {
    const capacity: nat
    var items: seq<T>
    var closed: bool
    var draining: bool
    var stats: Stats

    ghost function Value(): Contents<T>
      reads this
    {
      Contents(items, capacity, closed, stats)
    }

    ghost predicate Valid()
      reads this
    {
      Bounded(Value())
    }

    constructor (capacity: nat)
      ensures Valid() && Value() == Contents([], capacity, false, NO_STATS)
    {
      this.capacity := capacity;
      items, closed, draining, stats := [], false, false, NO_STATS;
    }

    method TryPush(item: T) returns (outcome: PushOutcome)
      requires Valid()
      modifies this
      ensures Valid() && (Value(), outcome) == TryPushed(old(Value()), item)
    {
      if closed {
        stats := stats.(rejectedClosed := stats.rejectedClosed + 1);
        return RejectedClosed;
      }
      if |items| >= capacity {
        stats := stats.(rejectedFull := stats.rejectedFull + 1);
        return RejectedFull;
      }
      Enqueue(item);
      return Accepted;
    }

    method Enqueue(item: T)
      modifies this
      ensures Value() == Append(old(Value()), item)
    {
      items := items + [item];
      var depth := |items|;
      if depth > stats.highWater {
        stats := stats.(highWater := depth);
      }
      stats := stats.(pushed := stats.pushed + 1);
    }

    // A push up to its wait: no outcome means that the producer waits.
    method PushBeforeWait(item: T) returns (outcome: Option<PushOutcome>)
      requires Valid()
      modifies this
      ensures Valid()
      ensures outcome == if !old(closed) && !HasRoom(old(Value())) then None
                         else Some(Pushed(old(Value()), item).1)
      ensures Value() == if outcome.None? then old(Value()) else Pushed(old(Value()), item).0
    {
      if closed {
        stats := stats.(rejectedClosed := stats.rejectedClosed + 1);
        return Some(RejectedClosed);
      }
      if |items| >= capacity {
        return None;
      }
      Enqueue(item);
      return Some(Accepted);
    }

    // The rest of a push, when its wait has ended.  The queue is never found
    // full there, so a blocking push is never refused for want of room.
    method PushAfterWait(item: T, stopRequested: bool) returns (outcome: PushOutcome)
      requires Valid() && (closed || HasRoom(Value()) || stopRequested)
      modifies this
      ensures Valid() && (Value(), outcome) == Pushed(old(Value()), item)
      ensures outcome != RejectedFull
    {
      var room := closed || |items| < capacity;
      if !room || closed {
        stats := stats.(rejectedClosed := stats.rejectedClosed + 1);
        return RejectedClosed;
      }
      if |items| >= capacity {
        assert false;
      }
      Enqueue(item);
      return Accepted;
    }

    // A pop when its wait has ended; it also serves as the pop that never waits.
    method PopAfterWait(stopRequested: bool) returns (item: Option<T>)
      requires Valid() && (closed || items != [] || stopRequested)
      modifies this
      ensures Valid() && (Value(), item) == Popped(old(Value()))
    {
      var available := closed || items != [];
      if !available {
        return None;
      }
      if items == [] {
        return None;
      }
      item := Some(items[0]);
      items := items[1..];
      stats := stats.(popped := stats.popped + 1);
    }

    method Close()
      requires Valid()
      modifies this
      ensures Valid() && Value() == Closed(old(Value()))
    {
      closed := true;
      items := [];
    }

    method CloseAfterDrain()
      requires Valid()
      modifies this
      ensures Valid() && Value() == Drained(old(Value()))
    {
      draining := true;
      closed := true;
    }
  }
}
