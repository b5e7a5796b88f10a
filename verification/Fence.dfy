// Sources, their incarnations, and the sequence fence of each of them.
module Fence {
  import opened Bytes
  import opened Evidence
  import opened Sequences

  datatype Incarnation = Incarnation(epoch: U64, retired: bool)

  datatype SequenceState = SequenceState(highWater: U64, seen: seq<U64>)

  const UNTOUCHED := SequenceState(0, [])

  datatype Outcome = Accepted | Reordered | Replayed | StaleEpoch | UnknownSource | NoActiveIncarnation

  predicate Admitted(o: Outcome) {
    o == Accepted || o == Reordered
  }

  // ---- the fence of one epoch ---------------------------------------------------------------

  function LastOf(s: seq<U64>, n: nat): seq<U64> {
    if |s| <= n then s else s[|s| - n..]
  }

  function FencedState(state: SequenceState, sequence: U64, window: nat): (SequenceState, Outcome) {
    if state.seen == [] then (SequenceState(sequence, [sequence]), Accepted)
    else if sequence in state.seen then (state, Replayed)
    else
      var seen := LastOf(state.seen + [sequence], window);
      if sequence > state.highWater then (SequenceState(sequence, seen), Accepted)
      else (state.(seen := seen), Reordered)
  }

  method ApplyFence(state: SequenceState, sequence: U64, window: nat) returns (after: SequenceState, outcome: Outcome)
    ensures (after, outcome) == FencedState(state, sequence, window)
  {
    after := state;
    if after.seen == [] {
      return SequenceState(sequence, [sequence]), Accepted;
    }
    for i := 0 to |after.seen|
      invariant sequence !in after.seen[..i]
    {
      if after.seen[i] == sequence {
        return after, Replayed;
      }
    }
    assert after.seen[..|after.seen|] == after.seen;
    outcome := if sequence > after.highWater then Accepted else Reordered;
    if sequence > after.highWater {
      after := after.(highWater := sequence);
    }
    var seen := after.seen + [sequence];
    ghost var all := seen;
    while |seen| > window
      invariant |seen| <= |all| && seen == all[|all| - |seen|..]
      invariant LastOf(seen, window) == LastOf(all, window)
      decreases |seen|
    {
      seen := seen[1..];
    }
    after := after.(seen := seen);
  }

  // The largest of some sequences.
  function Largest(history: seq<U64>): U64 {
    if history == [] then 0
    else
      var rest, last := Largest(history[..|history| - 1]), history[|history| - 1];
      if last > rest then last else rest
  }

  // What the state remembers of the sequences admitted so far, in order.
  ghost predicate Remembers(state: SequenceState, history: seq<U64>, window: nat) {
    && state.seen == LastOf(history, window)
    && (history != [] ==> state.highWater == Largest(history))
  }

  // Admitted exactly when it is not among the last "window" admitted ones;
  // accepted exactly when it is also larger than all of them.
  lemma {:induction false} FenceStep(state: SequenceState, history: seq<U64>, sequence: U64, window: nat)
    requires Remembers(state, history, window) && window >= 1
    ensures var (after, outcome) := FencedState(state, sequence, window);
            && (Admitted(outcome) <==> sequence !in LastOf(history, window))
            && (outcome == Accepted <==>
                  sequence !in LastOf(history, window) && (history == [] || sequence > Largest(history)))
            && (outcome == Replayed <==> sequence in LastOf(history, window))
            && Remembers(after, if Admitted(outcome) then history + [sequence] else history, window)
  {
    LastSeen(history, sequence, window);
    LargestStep(history, sequence);
  }

  lemma {:induction false} LastSeen(history: seq<U64>, sequence: U64, window: nat)
    requires window >= 1
    ensures LastOf(LastOf(history, window) + [sequence], window) == LastOf(history + [sequence], window)
    ensures LastOf(history, window) == [] <==> history == []
  {
  }

  lemma {:induction false} LargestStep(history: seq<U64>, sequence: U64)
    ensures Largest(history + [sequence]) == if sequence > Largest(history) then sequence else Largest(history)
  {
    assert (history + [sequence])[..|history|] == history;
  }

  // A history that the fence let through: no sequence comes again before a full
  // window of others has been admitted after it.
  ghost predicate Windowed(history: seq<U64>, window: nat) {
    forall i, j :: 0 <= i < j < |history| && history[i] == history[j] ==> j - i > window
  }

  lemma {:induction false} WindowedStep(history: seq<U64>, sequence: U64, window: nat)
    requires Windowed(history, window) && sequence !in LastOf(history, window)
    ensures Windowed(history + [sequence], window)
  {
    var more := history + [sequence];
    var n := |history|;
    forall i | 0 <= i < n && n - i <= window
      ensures history[i] in LastOf(history, window)
    {
      if n > window {
        assert LastOf(history, window)[i - (n - window)] == history[i];
      }
    }
    forall i, j | 0 <= i < j < |more| && more[i] == more[j]
      ensures j - i > window
    {
      if j < n {
        assert history[i] == history[j];
      }
    }
  }

  // ---- the registry ---------------------------------------------------------------------------

  type Key = (U64, U64)

  datatype Registry = Registry(
    sources: set<U64>, incarnations: map<U64, seq<Incarnation>>, sequences: map<Key, SequenceState>)

  function ListOf(r: Registry, source: U64): seq<Incarnation> {
    if source in r.incarnations then r.incarnations[source] else []
  }

  predicate HasEpoch(list: seq<Incarnation>, epoch: U64) {
    exists i <- list :: i.epoch == epoch
  }

  // The one epoch of a source whose evidence is let through to the fence.
  predicate IsLive(r: Registry, source: U64, epoch: U64) {
    var list := ListOf(r, source);
    source in r.sources && list != [] && list[|list| - 1] == Incarnation(epoch, false)
  }

  function Retired(list: seq<Incarnation>): (t: seq<Incarnation>)
    ensures |t| == |list|
  {
    seq(|list|, i requires 0 <= i < |list| => list[i].(retired := true))
  }

  // Where an epoch stands in the list; one past the end if it does not.
  function PlaceOf(list: seq<Incarnation>, epoch: U64): (k: nat)
    ensures k <= |list|
    ensures k < |list| ==> list[k].epoch == epoch
    ensures forall j :: 0 <= j < k ==> list[j].epoch != epoch
  {
    if list == [] || list[0].epoch == epoch then 0 else 1 + PlaceOf(list[1..], epoch)
  }

  // The loop stops at the epoch it re-activates, so later ones stay as they are.
  function Reactivated(list: seq<Incarnation>, epoch: U64): seq<Incarnation> {
    var k := PlaceOf(list, epoch);
    if k == |list| then Retired(list) + [Incarnation(epoch, false)]
    else Retired(list[..k]) + [Incarnation(epoch, false)] + list[k + 1..]
  }

  datatype Operation =
    | Register(source: U64)
    | Activate(source: U64, epoch: U64)
    | ActivateWithEpoch(source: U64, epoch: U64)
    | Restore(source: U64, epoch: U64)
    | Retire(source: U64, epoch: U64)
    | Observe(source: U64, epoch: U64, sequence: U64)

  function ObserveOutcome(r: Registry, source: U64, epoch: U64, sequence: U64, window: nat): (Registry, Outcome) {
    var list := ListOf(r, source);
    if source !in r.sources then (r, UnknownSource)
    else if list == [] then (r, NoActiveIncarnation)
    else if !IsLive(r, source, epoch) then (r, StaleEpoch)
    else
      var state := if (source, epoch) in r.sequences then r.sequences[(source, epoch)] else UNTOUCHED;
      var (after, outcome) := FencedState(state, sequence, window);
      (r.(sequences := r.sequences[(source, epoch) := after]), outcome)
  }

  // Nil identities and unknown sources leave the registry as it is.
  function Applied(r: Registry, op: Operation, window: nat, maxSources: nat): Registry {
    match op
    case Register(source) =>
      if source == 0 || source in r.sources || |r.sources| >= maxSources then r
      else r.(sources := r.sources + {source})
    case Activate(source, epoch) =>
      if source !in r.sources then r
      else r.(incarnations := r.incarnations[source := Retired(ListOf(r, source)) + [Incarnation(epoch, false)]])
    case ActivateWithEpoch(source, epoch) =>
      if epoch == 0 || source !in r.sources then r
      else r.(incarnations := r.incarnations[source := Reactivated(ListOf(r, source), epoch)])
    case Restore(source, epoch) =>
      if epoch == 0 || source !in r.sources then r
      else if HasEpoch(ListOf(r, source), epoch) then
        r.(incarnations := r.incarnations[source := ListOf(r, source)])
      else r.(incarnations := r.incarnations[source := ListOf(r, source) + [Incarnation(epoch, true)]])
    case Retire(source, epoch) =>
      var list := ListOf(r, source);
      var k := PlaceOf(list, epoch);
      if k == |list| then r
      else r.(incarnations := r.incarnations[source := list[k := Incarnation(epoch, true)]])
    case Observe(source, epoch, sequence) => ObserveOutcome(r, source, epoch, sequence, window).0
  }

  // Derived epochs are new to their source.
  ghost predicate FreshEpoch(r: Registry, op: Operation) {
    op.Activate? ==> op.source != 0 && op.epoch != 0 && !HasEpoch(ListOf(r, op.source), op.epoch)
  }

  ghost predicate DistinctEpochs(r: Registry) {
    forall s <- r.incarnations, i, j :: 0 <= i < j < |r.incarnations[s]| ==>
      r.incarnations[s][i].epoch != r.incarnations[s][j].epoch
  }

  // ---- what a run keeps -------------------------------------------------------------------------

  // At most one epoch of a source is live.
  lemma {:induction false} OneLiveEpoch(r: Registry, source: U64, a: U64, b: U64)
    requires IsLive(r, source, a) && IsLive(r, source, b)
    ensures a == b
  {
  }

  predicate Names(op: Operation, source: U64, epoch: U64) {
    (op.Activate? || op.ActivateWithEpoch?) && op.source == source && op.epoch == epoch
  }

  // An epoch that is not live becomes live only by an activation that names it.
  lemma {:induction false} StaysFenced(r: Registry, op: Operation, window: nat, maxSources: nat, source: U64,
                                       epoch: U64)
    requires !IsLive(r, source, epoch) && !Names(op, source, epoch)
    requires forall s <- r.incarnations :: s in r.sources
    ensures !IsLive(Applied(r, op, window, maxSources), source, epoch)
  {
    hide FencedState;
    if op.ActivateWithEpoch? {
      LastAfterReactivation(ListOf(r, op.source), op.epoch);
    }
  }

  lemma {:induction false} LastAfterReactivation(list: seq<Incarnation>, epoch: U64)
    ensures var t := Reactivated(list, epoch);
            && t != []
            && (t[|t| - 1] == Incarnation(epoch, false) || (list != [] && t[|t| - 1] == list[|list| - 1]))
  {
    hide Retired;
  }

  // Retiring and restoring an epoch takes it out.
  lemma {:induction false} RetiredIsNotLive(r: Registry, op: Operation, window: nat, maxSources: nat)
    requires op.Retire? || (op.Restore? && op.epoch != 0 && !HasEpoch(ListOf(r, op.source), op.epoch))
    requires DistinctEpochs(r)
    ensures !IsLive(Applied(r, op, window, maxSources), op.source, op.epoch)
  {
    var list := ListOf(r, op.source);
    if op.Retire? {
      var k := PlaceOf(list, op.epoch);
      if k == |list| && list != [] {
        assert list[|list| - 1].epoch != op.epoch;
      }
    }
  }

  // ---- runs -------------------------------------------------------------------------------------

  const EMPTY := Registry({}, map[], map[])

  function After(ops: seq<Operation>, window: nat, maxSources: nat): Registry {
    if ops == [] then EMPTY
    else Applied(After(ops[..|ops| - 1], window, maxSources), ops[|ops| - 1], window, maxSources)
  }

  // Every derived epoch is new when it is activated.
  ghost predicate IsRun(ops: seq<Operation>, window: nat, maxSources: nat) {
    forall i :: 0 <= i < |ops| ==> FreshEpoch(After(ops[..i], window, maxSources), ops[i])
  }

  function OutcomeOf(r: Registry, op: Operation, window: nat): Outcome
    requires op.Observe?
  {
    ObserveOutcome(r, op.source, op.epoch, op.sequence, window).1
  }

  // The sequences of one epoch that a run admitted, in order.
  function AdmittedIn(ops: seq<Operation>, source: U64, epoch: U64, window: nat, maxSources: nat): seq<U64> {
    if ops == [] then []
    else
      var front, last := ops[..|ops| - 1], ops[|ops| - 1];
      var before := AdmittedIn(front, source, epoch, window, maxSources);
      if last.Observe? && last.source == source && last.epoch == epoch
         && Admitted(OutcomeOf(After(front, window, maxSources), last, window)) then
        before + [last.sequence]
      else before
  }

  // Those among them that were marked accepted.
  function AcceptedIn(ops: seq<Operation>, source: U64, epoch: U64, window: nat, maxSources: nat): seq<U64> {
    if ops == [] then []
    else
      var front, last := ops[..|ops| - 1], ops[|ops| - 1];
      var before := AcceptedIn(front, source, epoch, window, maxSources);
      if last.Observe? && last.source == source && last.epoch == epoch
         && OutcomeOf(After(front, window, maxSources), last, window) == Accepted then
        before + [last.sequence]
      else before
  }

  function StateOf(r: Registry, source: U64, epoch: U64): SequenceState {
    if (source, epoch) in r.sequences then r.sequences[(source, epoch)] else UNTOUCHED
  }

  ghost predicate Increasing(s: seq<U64>) {
    forall i, j :: 0 <= i < j < |s| ==> s[i] < s[j]
  }

  // The high-water mark is the largest sequence admitted, accepted sequences
  // strictly increase up to it, and a sequence is admitted again only after a
  // full window of other admissions.
  ghost predicate FenceKept(state: SequenceState, history: seq<U64>, accepted: seq<U64>, window: nat) {
    && Remembers(state, history, window)
    && Windowed(history, window)
    && Increasing(accepted)
    && (accepted == [] <==> history == [])
    && (accepted != [] ==> accepted[|accepted| - 1] == Largest(history))
  }

  lemma {:induction false} FenceKeptStep(state: SequenceState, history: seq<U64>, accepted: seq<U64>, window: nat,
                                         sequence: U64)
    requires window >= 1 && FenceKept(state, history, accepted, window)
    ensures var (after, outcome) := FencedState(state, sequence, window);
            FenceKept(after, if Admitted(outcome) then history + [sequence] else history,
                      if outcome == Accepted then accepted + [sequence] else accepted, window)
  {
    hide FencedState, LastOf, Largest, Windowed, Remembers;
    FenceStep(state, history, sequence, window);
    LargestStep(history, sequence);
    NothingAdmitted(window);
    if sequence !in LastOf(history, window) {
      WindowedStep(history, sequence, window);
    }
    if history == [] {
      assert history + [sequence] == [] + [sequence];
    }
  }

  // Every epoch of every run.
  lemma {:induction false} FenceHolds(ops: seq<Operation>, source: U64, epoch: U64, window: nat, maxSources: nat)
    requires window >= 1
    ensures FenceKept(StateOf(After(ops, window, maxSources), source, epoch),
                      AdmittedIn(ops, source, epoch, window, maxSources),
                      AcceptedIn(ops, source, epoch, window, maxSources), window)
    decreases |ops|
  {
    hide FencedState, IsLive, Reactivated, Retired, FenceKept, Applied, StateOf, OutcomeOf, Admitted;
    if ops == [] {
      StartsKept(source, epoch, window);
    } else {
      var front, last := ops[..|ops| - 1], ops[|ops| - 1];
      FenceHolds(front, source, epoch, window, maxSources);
      var r := After(front, window, maxSources);
      if last.Observe? && last.source == source && last.epoch == epoch && IsLive(r, source, epoch) {
        LiveIsFenced(r, last, window, maxSources);
        FenceKeptStep(StateOf(r, source, epoch), AdmittedIn(front, source, epoch, window, maxSources),
                      AcceptedIn(front, source, epoch, window, maxSources), window, last.sequence);
      } else {
        OtherSequencesStay(r, last, window, maxSources, source, epoch);
      }
    }
  }

  lemma {:induction false} StartsKept(source: U64, epoch: U64, window: nat)
    ensures FenceKept(StateOf(EMPTY, source, epoch), [], [], window)
  {
    NothingAdmitted(window);
  }

  lemma {:induction false} LiveIsFenced(r: Registry, op: Operation, window: nat, maxSources: nat)
    requires op.Observe? && IsLive(r, op.source, op.epoch)
    ensures var (after, outcome) := FencedState(StateOf(r, op.source, op.epoch), op.sequence, window);
            && OutcomeOf(r, op, window) == outcome
            && StateOf(Applied(r, op, window, maxSources), op.source, op.epoch) == after
  {
    hide FencedState;
    LiveIsKnown(r, op.source, op.epoch);
  }

  lemma {:induction false} NothingAdmitted(window: nat)
    ensures Remembers(UNTOUCHED, [], window) && Windowed([], window) && Largest([]) == 0
  {
  }

  lemma {:induction false} LiveIsKnown(r: Registry, source: U64, epoch: U64)
    requires IsLive(r, source, epoch)
    ensures source in r.sources && ListOf(r, source) != []
  {
  }

  lemma {:induction false} OtherSequencesStay(r: Registry, op: Operation, window: nat, maxSources: nat, source: U64,
                                              epoch: U64)
    requires !(op.Observe? && op.source == source && op.epoch == epoch && IsLive(r, source, epoch))
    ensures StateOf(Applied(r, op, window, maxSources), source, epoch) == StateOf(r, source, epoch)
    ensures op.Observe? && op.source == source && op.epoch == epoch ==>
              !Admitted(OutcomeOf(r, op, window)) && OutcomeOf(r, op, window) != Accepted
  {
    hide FencedState, Reactivated, Retired;
  }

  // Lists are kept only for registered sources, and no epoch stands twice in one.
  ghost predicate ListsKept(r: Registry) {
    (forall s <- r.incarnations :: s in r.sources) && DistinctEpochs(r)
  }

  lemma {:induction false} ListsStep(r: Registry, op: Operation, window: nat, maxSources: nat)
    requires ListsKept(r) && FreshEpoch(r, op)
    ensures ListsKept(Applied(r, op, window, maxSources))
  {
    hide FencedState, Reactivated, Retired, DistinctEpochs, FreshEpoch;
    DistinctStep(r, op, window, maxSources);
  }

  lemma {:induction false} RunsKeepLists(ops: seq<Operation>, window: nat, maxSources: nat)
    requires IsRun(ops, window, maxSources)
    ensures ListsKept(After(ops, window, maxSources))
    decreases |ops|
  {
    hide Applied, ListsKept, FreshEpoch;
    if ops == [] {
      NoLists();
    } else {
      ShorterRun(ops, window, maxSources);
      RunsKeepLists(ops[..|ops| - 1], window, maxSources);
      ListsStep(After(ops[..|ops| - 1], window, maxSources), ops[|ops| - 1], window, maxSources);
    }
  }

  lemma {:induction false} ShorterRun(ops: seq<Operation>, window: nat, maxSources: nat)
    requires IsRun(ops, window, maxSources) && ops != []
    ensures IsRun(ops[..|ops| - 1], window, maxSources)
    ensures FreshEpoch(After(ops[..|ops| - 1], window, maxSources), ops[|ops| - 1])
  {
    hide Applied, FreshEpoch;
    var front := ops[..|ops| - 1];
    forall i | 0 <= i < |front|
      ensures FreshEpoch(After(front[..i], window, maxSources), front[i])
    {
      assert front[..i] == ops[..i];
    }
  }

  lemma {:induction false} NoLists()
    ensures ListsKept(EMPTY)
  {
  }

  ghost predicate Distinct(list: seq<Incarnation>) {
    forall i, j :: 0 <= i < j < |list| ==> list[i].epoch != list[j].epoch
  }

  lemma {:induction false} DistinctStep(r: Registry, op: Operation, window: nat, maxSources: nat)
    requires DistinctEpochs(r) && FreshEpoch(r, op)
    ensures DistinctEpochs(Applied(r, op, window, maxSources))
  {
    hide FencedState, Reactivated;
    var list := ListOf(r, op.source);
    assert Distinct(list);
    match op {
      case Activate(source, epoch) => DistinctRetired(list, epoch);
      case ActivateWithEpoch(source, epoch) => DistinctReactivated(list, epoch);
      case Restore(source, epoch) => if !HasEpoch(list, epoch) { DistinctAdded(list, Incarnation(epoch, true)); }
      case _ =>
    }
  }

  lemma {:induction false} DistinctAdded(list: seq<Incarnation>, i: Incarnation)
    requires Distinct(list) && !HasEpoch(list, i.epoch)
    ensures Distinct(list + [i])
  {
    assert forall x <- list :: x.epoch != i.epoch;
  }

  lemma {:induction false} DistinctRetired(list: seq<Incarnation>, epoch: U64)
    requires Distinct(list)
    ensures !HasEpoch(list, epoch) ==> Distinct(Retired(list) + [Incarnation(epoch, false)])
  {
    assert forall i :: 0 <= i < |list| ==> list[i] in list && Retired(list)[i].epoch == list[i].epoch;
  }

  lemma {:induction false} DistinctReactivated(list: seq<Incarnation>, epoch: U64)
    requires Distinct(list)
    ensures Distinct(Reactivated(list, epoch))
  {
    var k := PlaceOf(list, epoch);
    if k == |list| {
      DistinctRetired(list, epoch);
    } else {
      var t := Reactivated(list, epoch);
      assert |t| == |list|;
      assert forall i :: 0 <= i < |list| ==> t[i].epoch == list[i].epoch;
    }
  }

  // Over a whole run: an epoch that was fenced off at some moment, because it was
  // retired, restored or replaced, is not live again until an activation names it.
  lemma {:induction false} FencedUntilNamed(ops: seq<Operation>, from: nat, window: nat, maxSources: nat, source: U64,
                                            epoch: U64)
    requires from <= |ops| && IsRun(ops, window, maxSources)
    requires !IsLive(After(ops[..from], window, maxSources), source, epoch)
    requires forall i :: from <= i < |ops| ==> !Names(ops[i], source, epoch)
    ensures !IsLive(After(ops, window, maxSources), source, epoch)
    decreases |ops|
  {
    hide IsLive, Applied, FreshEpoch, DistinctEpochs, IsRun;
    if from == |ops| {
      assert ops[..from] == ops;
    } else {
      var front := ops[..|ops| - 1];
      assert front[..from] == ops[..from];
      ShorterRun(ops, window, maxSources);
      FencedUntilNamed(front, from, window, maxSources, source, epoch);
      RunsKeepLists(front, window, maxSources);
      StaysFenced(After(front, window, maxSources), ops[|ops| - 1], window, maxSources, source, epoch);
    }
  }

  // ---- the registry as it is updated ---------------------------------------------------------------

  class SourceRegistry {
    const maxSources: nat
    var window: nat
    var sources: set<U64>
    var incarnations: map<U64, seq<Incarnation>>
    var sequences: map<Key, SequenceState>

    ghost function Value(): Registry
      reads this
    {
      Registry(sources, incarnations, sequences)
    }

    constructor (maxSources: nat, window: nat)
      ensures Value() == EMPTY && this.maxSources == maxSources && this.window == window
    {
      this.maxSources, this.window := maxSources, window;
      sources, incarnations, sequences := {}, map[], map[];
    }

    method RegisterSource(source: U64)
      modifies this
      ensures Value() == Applied(old(Value()), Register(source), window, maxSources) && window == old(window)
    {
      if source == 0 || source in sources {
        return;
      }
      if |sources| >= maxSources {
        return;
      }
      sources := sources + {source};
    }

    method ActivateIncarnation(source: U64, epoch: U64)
      modifies this
      ensures Value() == Applied(old(Value()), Activate(source, epoch), window, maxSources) && window == old(window)
    {
      if source !in sources {
        return;
      }
      var list := if source in incarnations then incarnations[source] else [];
      list := RetireFirst(list, |list|);
      incarnations := incarnations[source := list + [Incarnation(epoch, false)]];
    }

    method ActivateIncarnationWithEpoch(source: U64, epoch: U64)
      modifies this
      ensures Value() == Applied(old(Value()), ActivateWithEpoch(source, epoch), window, maxSources)
      ensures window == old(window)
    {
      hide Reactivated;
      if epoch == 0 || source !in sources {
        return;
      }
      var list := if source in incarnations then incarnations[source] else [];
      ghost var before := list;
      var i := 0;
      while i < |list| && list[i].epoch != epoch
        invariant i <= |list| == |before|
        invariant forall k :: 0 <= k < i ==> list[k] == before[k].(retired := true) && before[k].epoch != epoch
        invariant forall k :: i <= k < |list| ==> list[k] == before[k]
      {
        list := list[i := list[i].(retired := true)];
        i := i + 1;
      }
      AsReactivated(before, list, i, epoch);
      if i < |list| {
        list := list[i := Incarnation(epoch, false)];
      } else {
        list := list + [Incarnation(epoch, false)];
      }
      incarnations := incarnations[source := list];
    }

    method RestoreIncarnation(source: U64, epoch: U64)
      modifies this
      ensures Value() == Applied(old(Value()), Restore(source, epoch), window, maxSources) && window == old(window)
    {
      if epoch == 0 || source !in sources {
        return;
      }
      var list := if source in incarnations then incarnations[source] else [];
      if !HasEpoch(list, epoch) {
        list := list + [Incarnation(epoch, true)];
      }
      incarnations := incarnations[source := list];
    }

    method RetireIncarnation(source: U64, epoch: U64) returns (found: bool)
      modifies this
      ensures Value() == Applied(old(Value()), Retire(source, epoch), window, maxSources) && window == old(window)
    {
      var list := if source in incarnations then incarnations[source] else [];
      var k := PlaceOf(list, epoch);
      found := k < |list|;
      if found {
        incarnations := incarnations[source := list[k := Incarnation(epoch, true)]];
      }
    }

    method ObserveSequence(source: U64, epoch: U64, sequence: U64) returns (outcome: Outcome)
      modifies this
      ensures (Value(), outcome) == ObserveOutcome(old(Value()), source, epoch, sequence, window)
      ensures window == old(window)
    {
      if source !in sources {
        return UnknownSource;
      }
      if source !in incarnations || incarnations[source] == [] {
        return NoActiveIncarnation;
      }
      var list := incarnations[source];
      var current := list[|list| - 1];
      var known := HasEpoch(list, epoch);
      if !known || current.epoch != epoch || current.retired {
        assert current in list;
        return StaleEpoch;
      }
      var state := if (source, epoch) in sequences then sequences[(source, epoch)] else UNTOUCHED;
      state, outcome := ApplyFence(state, sequence, window);
      sequences := sequences[(source, epoch) := state];
      assert current in list;
    }
  }

  // The list of a loop that retired what stands before an epoch.
  lemma {:induction false} AsReactivated(before: seq<Incarnation>, list: seq<Incarnation>, i: nat, epoch: U64)
    requires i <= |list| == |before| && (i < |list| ==> list[i].epoch == epoch)
    requires forall k :: 0 <= k < i ==> list[k] == before[k].(retired := true) && before[k].epoch != epoch
    requires forall k :: i <= k < |list| ==> list[k] == before[k]
    ensures i < |list| ==> list[i := Incarnation(epoch, false)] == Reactivated(before, epoch)
    ensures i == |list| ==> list + [Incarnation(epoch, false)] == Reactivated(before, epoch)
  {
    assert PlaceOf(before, epoch) == i;
    if i < |list| {
      assert list[i := Incarnation(epoch, false)] == list[..i] + [Incarnation(epoch, false)] + list[i + 1..];
      assert list[..i] == Retired(before[..i]) && list[i + 1..] == before[i + 1..];
    } else {
      assert list == Retired(before);
    }
  }

  method RetireFirst(list: seq<Incarnation>, n: nat) returns (t: seq<Incarnation>)
    requires n <= |list|
    ensures t == Retired(list[..n]) + list[n..]
    ensures n == |list| ==> t == Retired(list)
  {
    t := list;
    for i := 0 to n
      invariant |t| == |list|
      invariant forall k :: 0 <= k < i ==> t[k] == list[k].(retired := true)
      invariant forall k :: i <= k < |list| ==> t[k] == list[k]
    {
      t := t[i := t[i].(retired := true)];
    }
  }
}
