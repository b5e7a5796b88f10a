// A store that is filled with the same items in any order holds the same.
module Confluence {
  import opened Bytes
  import opened Evidence
  import opened Store
  import opened Canonical
  import opened Snapshot
  import Fence
  import Generation

  // ---- filling a store -------------------------------------------------------------------------

  function OfSubject(items: seq<Item>, k: SubjectRef): seq<Item> {
    if items == [] then []
    else
      var front, last := OfSubject(items[..|items| - 1], k), items[|items| - 1];
      if last.header.subject == k then front + [last] else front
  }

  ghost function SubjectsOf(items: seq<Item>): set<SubjectRef> {
    set item <- items :: item.header.subject
  }

  // Two items of one source epoch carry different sequence numbers.
  ghost predicate DistinctSequences(items: seq<Item>) {
    forall i, j :: 0 <= i < j < |items| && items[i].header.source == items[j].header.source
                   && items[i].header.epoch == items[j].header.epoch ==>
      items[i].header.sequence != items[j].header.sequence
  }

  // Well-formed items of live epochs that no fence has seen yet.
  ghost predicate Welcome(items: seq<Item>, registry: Fence.Registry, limits: Limits) {
    && DistinctIds(items) && DistinctSequences(items)
    && forall item <- items ::
         && Structural(item, limits.maxNote) == NoReason
         && Fence.IsLive(registry, item.header.source, item.header.epoch)
         && Fence.StateOf(registry, item.header.source, item.header.epoch) == Fence.UNTOUCHED
  }

  // No bound of the store is reached.
  ghost predicate Fits(items: seq<Item>, limits: Limits) {
    && |items| <= limits.maxItems && |SubjectsOf(items)| <= limits.maxSubjects
    && forall k: SubjectRef :: |OfSubject(items, k)| <= limits.maxPerSubject
  }

  // Only sequences of items seen so far are remembered at a fence.
  ghost predicate Fenced(start: Fence.Registry, now: Fence.Registry, seen: seq<Item>) {
    && now.sources == start.sources && now.incarnations == start.incarnations
    && forall source: U64, epoch: U64, x: U64 ::
         Fence.StateOf(start, source, epoch) == Fence.UNTOUCHED && x in Fence.StateOf(now, source, epoch).seen ==>
           SeenSequence(seen, source, epoch, x)
  }

  ghost predicate SeenSequence(seen: seq<Item>, source: U64, epoch: U64, x: U64) {
    exists item <- seen :: item.header.source == source && item.header.epoch == epoch && item.header.sequence == x
  }

  lemma {:induction false} FenceAdmits(start: Fence.Registry, now: Fence.Registry, seen: seq<Item>, item: Item,
                                       window: nat)
    requires Fenced(start, now, seen)
    requires Fence.IsLive(start, item.header.source, item.header.epoch)
    requires Fence.StateOf(start, item.header.source, item.header.epoch) == Fence.UNTOUCHED
    requires !SeenSequence(seen, item.header.source, item.header.epoch, item.header.sequence)
    ensures var h := item.header;
            var (after, outcome) := Fence.ObserveOutcome(now, h.source, h.epoch, h.sequence, window);
            FenceReason(outcome) == NoReason && Fenced(start, after, seen + [item])
  {
    var h := item.header;
    var (after, outcome) := Fence.ObserveOutcome(now, h.source, h.epoch, h.sequence, window);
    var state := Fence.StateOf(now, h.source, h.epoch);
    FenceRemembersLess(state, h.sequence, window);
    assert Fence.IsLive(now, h.source, h.epoch);
    assert item in seen + [item];
    hide Fence.FencedState;
    forall source: U64, epoch: U64, x: U64 | Fence.StateOf(start, source, epoch) == Fence.UNTOUCHED
                                             && x in Fence.StateOf(after, source, epoch).seen
      ensures SeenSequence(seen + [item], source, epoch, x)
    {
      if x in Fence.StateOf(now, source, epoch).seen {
        var y :| y in seen && y.header.source == source && y.header.epoch == epoch && y.header.sequence == x;
        assert y in seen + [item];
      }
    }
  }

  lemma {:induction false} FenceRemembersLess(state: Fence.SequenceState, sequence: U64, window: nat)
    requires sequence !in state.seen
    ensures var (after, outcome) := Fence.FencedState(state, sequence, window);
            Fence.Admitted(outcome) && forall x <- after.seen :: x in state.seen || x == sequence
  {
  }

  // What the store holds after some of the items.
  ghost predicate Holds(subjects: Buckets, seen: seq<Item>) {
    && (forall k: SubjectRef :: BucketOf(subjects, k) == OfSubject(seen, k))
    && subjects.Keys == SubjectsOf(seen)
  }

  lemma {:induction false} HoldsStep(subjects: Buckets, seen: seq<Item>, item: Item, maxPerSubject: nat)
    requires Holds(subjects, seen) && |OfSubject(seen + [item], item.header.subject)| <= maxPerSubject
    ensures Holds(WithItem(subjects, item, maxPerSubject), seen + [item])
  {
    hide OfSubject;
    var k := item.header.subject;
    OfSubjectStep(seen, item);
    assert BucketOf(subjects, k) == OfSubject(seen, k);
    assert WithItem(subjects, item, maxPerSubject) == subjects[k := OfSubject(seen, k) + [item]];
    assert SubjectsOf(seen + [item]) == SubjectsOf(seen) + {k};
  }

  lemma {:induction false} OfSubjectStep(seen: seq<Item>, item: Item)
    ensures forall k :: OfSubject(seen + [item], k)
                     == if item.header.subject == k then OfSubject(seen, k) + [item] else OfSubject(seen, k)
  {
    assert (seen + [item])[..|seen|] == seen;
  }

  lemma {:induction false} FewerOfSubject(items: seq<Item>, i: nat, k: SubjectRef)
    requires i <= |items|
    ensures |OfSubject(items[..i], k)| <= |OfSubject(items, k)|
    decreases |items|
  {
    if i < |items| {
      FewerOfSubject(items[..|items| - 1], i, k);
      assert items[..|items| - 1][..i] == items[..i];
    } else {
      assert items[..i] == items;
    }
  }

  lemma {:induction false} FewerSubjects(items: seq<Item>, i: nat)
    requires i < |items|
    ensures items[i].header.subject !in SubjectsOf(items[..i]) ==> |SubjectsOf(items[..i])| < |SubjectsOf(items)|
  {
    var some, all := SubjectsOf(items[..i]), SubjectsOf(items);
    assert some <= all;
    if items[i].header.subject !in some {
      Generation.Fewer(some + {items[i].header.subject}, all);
    }
  }

  lemma {:induction false} NotSeenBefore(items: seq<Item>, i: nat)
    requires DistinctSequences(items) && i < |items|
    ensures !SeenSequence(items[..i], items[i].header.source, items[i].header.epoch, items[i].header.sequence)
  {
  }

  lemma {:induction false} NewId(items: seq<Item>, i: nat, history: seq<U64>, window: nat)
    requires DistinctIds(items) && i < |items| && IdsIn(history, items[..i])
    ensures items[i].header.id !in Fence.LastOf(history, window)
  {
  }

  // The store has taken in the first so many of some welcome items.
  ghost predicate Filled(store: EvidenceStore, start: Fence.Registry, items: seq<Item>, i: nat)
    requires i <= |items|
    reads store, store.sources
  {
    && store.Valid() && Welcome(items, start, store.limits) && Fits(items, store.limits)
    && Holds(store.subjects, items[..i]) && IdsIn(store.history, items[..i])
    && Fenced(start, store.sources.Value(), items[..i])
    && |store.insertionOrder| <= i
  }

  // Nothing stands against the next one, whatever its place in the order of arrival.
  lemma {:induction false} NextIsWelcome(store: EvidenceStore, start: Fence.Registry, items: seq<Item>, i: nat)
    requires i < |items| && Filled(store, start, items, i)
    ensures var item, h := items[i], items[i].header;
            var (registry, fence) :=
              Fence.ObserveOutcome(store.sources.Value(), h.source, h.epoch, h.sequence, store.sources.window);
            && Structural(item, store.limits.maxNote) == NoReason && FenceReason(fence) == NoReason
            && store.Objection(item) == NoReason && Fenced(start, registry, items[..i + 1])
            && Holds(WithItem(store.subjects, item, store.limits.maxPerSubject), items[..i + 1])
            && IdsIn(store.history + [h.id], items[..i + 1])
  {
    hide EvidenceStore.Valid, Structural, Fence.IsLive, Fence.ObserveOutcome, Fence.LastOf, Fence.StateOf, WithItem,
      InsertedInto, OfSubject, DistinctIds, DistinctSequences, Fenced, Holds, IdsIn, SeenSequence;
    var item := items[i];
    assert item in items;
    NotSeenBefore(items, i);
    FenceAdmits(start, store.sources.Value(), items[..i], item, store.sources.window);
    NewId(items, i, store.history, store.limits.maxIds);
    HasRoom(store.subjects, items, i, store.limits);
    assert items[..i] + [item] == items[..i + 1];
    FewerOfSubject(items, i + 1, item.header.subject);
    HoldsStep(store.subjects, items[..i], item, store.limits.maxPerSubject);
    IdsStep(store.history, items[..i], item);
  }

  // And once it is inserted the store has taken in one more.
  lemma {:induction false} NextIsIn(store: EvidenceStore, start: Fence.Registry, items: seq<Item>, i: nat,
                                    subjects: Buckets, order: seq<U64>)
    requires i < |items| && |order| <= i && store.Valid()
    requires Welcome(items, start, store.limits) && Fits(items, store.limits)
    requires Fenced(start, store.sources.Value(), items[..i + 1]) && IdsIn(store.history, items[..i + 1])
    requires InsertedInto(subjects, order, items[i], store.limits, store.subjects, store.insertionOrder)
    requires Holds(WithItem(subjects, items[i], store.limits.maxPerSubject), items[..i + 1])
    ensures Filled(store, start, items, i + 1)
  {
    hide EvidenceStore.Valid, Welcome, WithItem, InsertedInto, Fenced, Holds, IdsIn;
    InsertedWithRoom(subjects, order, items[i], store.limits, store.subjects, store.insertionOrder);
  }

  // So it is admitted.
  method FillNext(store: EvidenceStore, ghost start: Fence.Registry, ghost items: seq<Item>, ghost i: nat, item: Item)
    requires i < |items| && items[i] == item && Filled(store, start, items, i)
    modifies store, store.sources
    ensures Filled(store, start, items, i + 1) && store.accepted == old(store.accepted) + 1
  {
    hide EvidenceStore.Valid, EvidenceStore.Objection, Structural, Fence.ObserveOutcome, WithItem, InsertedInto, Fenced,
      Holds, IdsIn, Welcome, Fits, OnlyAdds;
    NextIsWelcome(store, start, items, i);
    ghost var subjects, order := store.subjects, store.insertionOrder;
    var reason := store.Submit(item);
    NextIsIn(store, start, items, i, subjects, order);
  }

  // Every welcome item is admitted, and each bucket holds its items as they came.
  method Fill(store: EvidenceStore, items: seq<Item>)
    requires IsEmpty(store) && Welcome(items, store.sources.Value(), store.limits) && Fits(items, store.limits)
    modifies store, store.sources
    ensures Filled(store, old(store.sources.Value()), items, |items|)
    ensures Holds(store.subjects, items) && store.accepted == old(store.accepted) + |items|
  {
    hide Filled, IsEmpty;
    ghost var start := store.sources.Value();
    NothingFilled(store, items);
    for i := 0 to |items|
      invariant Filled(store, start, items, i) && store.accepted == old(store.accepted) + i
    {
      FillNext(store, start, items, i, items[i]);
    }
    AllFilled(store, start, items);
  }

  ghost predicate IsEmpty(store: EvidenceStore)
    reads store
  {
    store.Valid() && store.subjects == map[] && store.history == [] && store.insertionOrder == []
  }

  lemma {:induction false} NothingFilled(store: EvidenceStore, items: seq<Item>)
    requires IsEmpty(store) && Welcome(items, store.sources.Value(), store.limits) && Fits(items, store.limits)
    ensures Filled(store, store.sources.Value(), items, 0)
  {
    hide EvidenceStore.Valid, Welcome, Fits, Holds, Fenced;
    assert items[..0] == [];
    NothingHeld(store.sources.Value());
  }

  lemma {:induction false} AllFilled(store: EvidenceStore, start: Fence.Registry, items: seq<Item>)
    requires Filled(store, start, items, |items|)
    ensures store.Valid() && Holds(store.subjects, items)
    ensures store.sources.Value().sources == start.sources && store.sources.Value().incarnations == start.incarnations
  {
    hide EvidenceStore.Valid, Welcome, Fits, Holds;
    assert items[..|items|] == items;
  }

  lemma {:induction false} NothingHeld(start: Fence.Registry)
    ensures Holds(map[], []) && IdsIn([], []) && Fenced(start, start, [])
  {
  }

  lemma {:induction false} HasRoom(subjects: Buckets, items: seq<Item>, i: nat, limits: Limits)
    requires Fits(items, limits) && i < |items| && Holds(subjects, items[..i])
    ensures items[i].header.subject !in subjects ==> |subjects| < limits.maxSubjects
  {
    hide OfSubject;
    FewerSubjects(items, i);
    assert |subjects| == |subjects.Keys|;
  }

  // ---- the snapshot --------------------------------------------------------------------------------

  lemma {:induction false} CountOf(items: seq<Item>, k: SubjectRef, item: Item)
    ensures multiset(OfSubject(items, k))[item] == if item.header.subject == k then multiset(items)[item] else 0
  {
    if items != [] {
      var front, last := items[..|items| - 1], items[|items| - 1];
      CountOf(front, k, item);
      assert items == front + [last];
    }
  }

  // What holds the items has their canonical order for its snapshot.
  lemma {:induction false} HeldSnapshot(subjects: Buckets, items: seq<Item>, snapshot: seq<Item>)
    requires Holds(subjects, items) && DistinctIds(items) && Ordered(snapshot) && Gathered(snapshot, subjects)
    ensures snapshot == CanonicalOrder(items)
  {
    hide OfSubject, CanonicalOrder, Ordered, DistinctIds;
    forall item: Item
      ensures multiset(snapshot)[item] == multiset(items)[item]
    {
      CountOf(items, item.header.subject, item);
      assert BucketOf(subjects, item.header.subject) == OfSubject(items, item.header.subject);
    }
    assert multiset(snapshot) == multiset(items);
    IdsStayDistinct(items, snapshot);
    CanonicalOrderIsOrdered(items);
    OneArrangement(snapshot, CanonicalOrder(items));
  }

  lemma {:induction false} HeldAreOwn(subjects: Buckets, items: seq<Item>)
    requires Holds(subjects, items)
    ensures Own(subjects)
  {
    forall k | k in subjects
      ensures forall item <- subjects[k] :: item.header.subject == k
    {
      forall item | item in subjects[k]
        ensures item.header.subject == k
      {
        CountOf(items, k, item);
        assert BucketOf(subjects, k) == subjects[k];
        assert item in multiset(subjects[k]);
      }
    }
  }

  // Filling an empty store and taking a snapshot gives the canonical order of what
  // was submitted.
  method FillAndSnapshot(store: EvidenceStore, items: seq<Item>) returns (snapshot: seq<Item>)
    requires IsEmpty(store) && Welcome(items, store.sources.Value(), store.limits) && Fits(items, store.limits)
    modifies store, store.sources
    ensures snapshot == CanonicalOrder(items)
  {
    hide EvidenceStore.Valid, CanonicalOrder, OfSubject, Filled, Holds, Own, Gathered, Ordered;
    Fill(store, items);
    HeldAreOwn(store.subjects, items);
    snapshot := TakeSnapshot(store.subjects);
    HeldSnapshot(store.subjects, items, snapshot);
  }

  // ---- another order of arrival ----------------------------------------------------------------------

  lemma {:induction false} SequencesStayDistinct(a: seq<Item>, b: seq<Item>)
    requires multiset(a) == multiset(b) && DistinctIds(b) && DistinctSequences(a)
    ensures DistinctSequences(b)
  {
    forall i, j | 0 <= i < j < |b| && b[i].header.source == b[j].header.source
                  && b[i].header.epoch == b[j].header.epoch
      ensures b[i].header.sequence != b[j].header.sequence
    {
      assert b[i] in multiset(a) && b[j] in multiset(a);
      var p :| 0 <= p < |a| && a[p] == b[i];
      var q :| 0 <= q < |a| && a[q] == b[j];
      assert p != q;
    }
  }

  lemma {:induction false} BucketsRearranged(a: seq<Item>, b: seq<Item>, k: SubjectRef)
    requires multiset(a) == multiset(b)
    ensures |OfSubject(a, k)| == |OfSubject(b, k)|
  {
    hide OfSubject;
    forall item: Item
      ensures multiset(OfSubject(a, k))[item] == multiset(OfSubject(b, k))[item]
    {
      CountOf(a, k, item);
      CountOf(b, k, item);
    }
    assert multiset(OfSubject(a, k)) == multiset(OfSubject(b, k));
    assert |multiset(OfSubject(a, k))| == |OfSubject(a, k)| && |multiset(OfSubject(b, k))| == |OfSubject(b, k)|;
  }

  // Rearranged welcome items are welcome, and fit where the others fit.
  lemma {:induction false} RearrangedIsWelcome(a: seq<Item>, b: seq<Item>, registry: Fence.Registry, limits: Limits)
    requires multiset(a) == multiset(b) && Welcome(a, registry, limits) && Fits(a, limits)
    ensures Welcome(b, registry, limits) && Fits(b, limits)
  {
    hide DistinctIds, DistinctSequences, Structural, Fence.IsLive, Fence.StateOf, OfSubject;
    IdsStayDistinct(a, b);
    SequencesStayDistinct(a, b);
    assert forall item :: item in b ==> item in multiset(a);
    assert forall item :: item in a ==> item in multiset(b);
    assert |multiset(a)| == |a| && |multiset(b)| == |b|;
    assert SubjectsOf(a) == SubjectsOf(b);
    forall k: SubjectRef
      ensures |OfSubject(b, k)| <= limits.maxPerSubject
    {
      BucketsRearranged(a, b, k);
    }
  }
}
