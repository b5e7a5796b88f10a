// The slots of one batch: what each of the regions under the batch's mutex does
// to them.
module BatchState {
  // How a slot got its outcome.  "Processed" carries what the store answered;
  // the others are cancellations by the producer, by its wait, and by stop.
  datatype SlotResult<T> = Unset | Processed(outcome: T) | Refused | Unprocessed | Swept

  datatype Slots<T> = Slots(results: seq<SlotResult<T>>, done: seq<bool>, outstanding: nat)

  function Undone(done: seq<bool>): nat {
    if done == [] then 0 else (if done[0] then 0 else 1) + Undone(done[1..])
  }

  ghost predicate AllDone(done: seq<bool>) {
    forall i :: 0 <= i < |done| ==> done[i]
  }

  // Exactly the slots with an outcome are done, and the rest are counted.
  ghost predicate Counted<T>(s: Slots<T>) {
    && |s.results| == |s.done|
    && s.outstanding == Undone(s.done)
    && forall i :: 0 <= i < |s.done| ==> (s.done[i] <==> !s.results[i].Unset?)
  }

  function Fresh<T>(count: nat): Slots<T> {
    Slots(seq(count, _ => Unset), seq(count, _ => false), count)
  }

  function Down(n: nat): nat {
    if n > 0 then n - 1 else 0
  }

  function RefusalRecorded<T>(s: Slots<T>, slot: nat): Slots<T>
    requires slot < |s.results| == |s.done|
  {
    Slots(s.results[slot := Refused], s.done[slot := true], Down(s.outstanding))
  }

  function OutcomeRecorded<T>(s: Slots<T>, slot: nat, outcome: T): Slots<T>
    requires |s.results| == |s.done|
  {
    if slot < |s.results| && !s.done[slot] then
      Slots(s.results[slot := Processed(outcome)], s.done[slot := true], Down(s.outstanding))
    else s
  }

  // Every slot without an outcome gets the given one.
  function Filled<T>(s: Slots<T>, with: SlotResult<T>): Slots<T>
    requires |s.results| == |s.done|
  {
    Slots(seq(|s.results|, i requires 0 <= i < |s.results| => if s.done[i] then s.results[i] else with),
          seq(|s.done|, _ => true), 0)
  }

  // ---- counting -----------------------------------------------------------------

  lemma {:induction false} UndoneAfter(done: seq<bool>, i: nat)
    requires i < |done|
    ensures Undone(done[i := true]) == Undone(done) - if done[i] then 0 else 1
  {
    if i == 0 {
      assert done[0 := true][1..] == done[1..];
    } else {
      UndoneAfter(done[1..], i - 1);
      assert done[i := true][1..] == done[1..][i - 1 := true];
    }
  }

  lemma {:induction false} UndoneZero(done: seq<bool>)
    ensures Undone(done) == 0 <==> AllDone(done)
  {
    if done != [] {
      UndoneZero(done[1..]);
      assert AllDone(done) <==> done[0] && AllDone(done[1..]) by {
        assert AllDone(done) ==> forall i :: 0 <= i < |done[1..]| ==> done[1..][i] == done[i + 1];
        assert forall i :: 1 <= i < |done| ==> done[i] == done[1..][i - 1];
      }
    }
  }

  lemma {:induction false} UndoneFresh(count: nat)
    ensures Undone(seq(count, _ => false)) == count
  {
    if count > 0 {
      UndoneFresh(count - 1);
      assert seq<bool>(count, _ => false)[1..] == seq<bool>(count - 1, _ => false);
    }
  }

  lemma FreshIsCounted<T>(count: nat)
    ensures Counted(Fresh<T>(count))
  {
    UndoneFresh(count);
  }

  // What recording an outcome keeps: the count stays exact, and no slot that
  // already has a worker's outcome loses it.
  lemma OutcomeKeeps<T>(s: Slots<T>, slot: nat, outcome: T)
    requires Counted(s)
    ensures Counted(OutcomeRecorded(s, slot, outcome))
    ensures KeepsDone(s, OutcomeRecorded(s, slot, outcome))
  {
    if slot < |s.results| && !s.done[slot] {
      UndoneAfter(s.done, slot);
    }
  }

  // A refusal is recorded whatever the slot holds; the count stays exact if
  // the slot was cancelled already or not done yet.
  lemma RefusalKeeps<T>(s: Slots<T>, slot: nat)
    requires Counted(s) && slot < |s.results| && !s.results[slot].Processed?
    requires s.done[slot] ==> s.outstanding == 0
    ensures Counted(RefusalRecorded(s, slot))
    ensures RefusalRecorded(s, slot).results == s.results[slot := Refused]
  {
    UndoneAfter(s.done, slot);
  }

  lemma FillKeeps<T>(s: Slots<T>, with: SlotResult<T>)
    requires Counted(s) && !with.Unset?
    ensures Counted(Filled(s, with)) && AllDone(Filled(s, with).done)
    ensures KeepsDone(s, Filled(s, with))
    ensures AllDone(s.done) ==> Filled(s, with) == s
  {
    UndoneZero(Filled(s, with).done);
    UndoneZero(s.done);
  }

  ghost predicate KeepsDone<T>(before: Slots<T>, after: Slots<T>) {
    && |after.results| == |before.results| && |after.done| == |before.done|
    && forall i :: 0 <= i < |before.results| && i < |before.done| && before.done[i] ==>
                     after.results[i] == before.results[i] && after.done[i]
  }

  class BatchState<T> {
    var results: seq<SlotResult<T>>
    var done: seq<bool>
    var outstanding: nat

    ghost function Value(): Slots<T>
      reads this
    {
      Slots(results, done, outstanding)
    }

    constructor (count: nat)
      ensures Value() == Fresh(count) && Counted(Value())
    {
      results := seq(count, _ => Unset);
      done := seq(count, _ => false);
      outstanding := count;
      new;
      FreshIsCounted<T>(count);
      assert results == Fresh<T>(count).results && done == Fresh<T>(count).done;
    }

    // The producer's push was refused.
    method RecordRefusal(slot: nat)
      requires slot < |results| == |done|
      modifies this
      ensures Value() == RefusalRecorded(old(Value()), slot)
    {
      results := results[slot := Refused];
      done := done[slot := true];
      if outstanding > 0 {
        outstanding := outstanding - 1;
      }
    }

    // A worker has an answer for the slot.
    method RecordOutcome(slot: nat, outcome: T)
      requires |results| == |done|
      modifies this
      ensures Value() == OutcomeRecorded(old(Value()), slot, outcome)
    {
      if slot < |results| && !done[slot] {
        results := results[slot := Processed(outcome)];
        done := done[slot := true];
        if outstanding > 0 {
          outstanding := outstanding - 1;
        }
      }
    }

    // The caller's wait has ended, or stop sweeps a registered batch.  Counts
    // the slots it cancelled.
    method FillUndone(with: SlotResult<T>) returns (cancelled: nat)
      requires |results| == |done|
      modifies this
      ensures Value() == Filled(old(Value()), with)
      ensures cancelled == Undone(old(done))
    {
      cancelled := 0;
      for i := 0 to |done|
        invariant |results| == |done| == |old(done)|
        invariant forall k :: 0 <= k < i ==> done[k]
        invariant forall k :: 0 <= k < i ==> results[k] == if old(done)[k] then old(results)[k] else with
        invariant forall k :: i <= k < |done| ==> done[k] == old(done)[k] && results[k] == old(results)[k]
        invariant cancelled + Undone(old(done)[i..]) == Undone(old(done))
      {
        assert old(done)[i..][1..] == old(done)[i + 1..];
        if !done[i] {
          results := results[i := with];
          done := done[i := true];
          cancelled := cancelled + 1;
        }
      }
      outstanding := 0;
      assert results == Filled(old(Value()), with).results;
      assert done == Filled(old(Value()), with).done;
    }
  }
}
