// The snapshot of a store: everything it retains, in canonical order.
module Snapshot {
  import opened Bytes
  import opened Evidence
  import opened Store
  import opened Canonical
  import Sequences

  // Every bucket holds items of its own subject.
  ghost predicate Own(subjects: Buckets) {
    forall k <- subjects :: forall item <- subjects[k] :: item.header.subject == k
  }

  lemma {:induction false} AddingKeepsOwn(before: Buckets, after: Buckets, item: Item)
    requires Own(before) && OnlyAdds(before, after, item)
    ensures Own(after)
  {
    forall k | k in after
      ensures forall x <- after[k] :: x.header.subject == k
    {
      forall x | x in after[k]
        ensures x.header.subject == k
      {
        assert x in BucketOf(before, k) || x == item;
      }
    }
  }

  // The items of all buckets and no others, each as often as its bucket holds it.
  ghost predicate Gathered(all: seq<Item>, subjects: Buckets) {
    forall item: Item :: multiset(all)[item] == multiset(BucketOf(subjects, item.header.subject))[item]
  }

  // The items of the buckets visited so far.
  ghost predicate GatheredBut(all: seq<Item>, subjects: Buckets, left: set<SubjectRef>) {
    forall item: Item ::
      multiset(all)[item] == if item.header.subject in left then 0
                             else multiset(BucketOf(subjects, item.header.subject))[item]
  }

  lemma {:induction false} GatherStep(all: seq<Item>, subjects: Buckets, left: set<SubjectRef>, k: SubjectRef)
    requires Own(subjects) && GatheredBut(all, subjects, left) && k in left && k in subjects
    ensures GatheredBut(all + subjects[k], subjects, left - {k})
  {
    forall item: Item
      ensures multiset(all + subjects[k])[item]
           == if item.header.subject in left - {k} then 0
              else multiset(BucketOf(subjects, item.header.subject))[item]
    {
      if item.header.subject != k && item in subjects[k] {
        assert false;
      }
    }
  }

  method TakeSnapshot(subjects: Buckets) returns (snapshot: seq<Item>)
    requires Own(subjects)
    ensures Ordered(snapshot) && Gathered(snapshot, subjects) && IdsOf(snapshot) == Retained(subjects)
  {
    hide GatheredBut, IdsOf, Retained, Own, CanonicalOrder, Ordered;
    snapshot := [];
    var left := subjects.Keys;
    NothingGathered(subjects);
    while left != {}
      invariant left <= subjects.Keys && GatheredBut(snapshot, subjects, left)
      invariant Retained(subjects) == IdsOf(snapshot) + Retained(subjects - (subjects.Keys - left))
      decreases left
    {
      var k :| k in left;
      GatherStep(snapshot, subjects, left, k);
      ghost var rest := subjects - (subjects.Keys - left);
      RetainedAt(rest, k);
      assert rest - {k} == subjects - (subjects.Keys - (left - {k}));
      IdsAppend(snapshot, subjects[k]);
      UnionSwaps(IdsOf(snapshot), IdsOf(subjects[k]), Retained(rest - {k}));
      snapshot := snapshot + subjects[k];
      left := left - {k};
    }
    assert subjects - (subjects.Keys - left) == map[];
    NothingRetained();
    AllGathered(snapshot, subjects);
    CanonicalOrderIsOrdered(snapshot);
    IdsRearranged(snapshot, CanonicalOrder(snapshot));
    snapshot := CanonicalOrder(snapshot);
  }

  lemma {:induction false} NothingGathered(subjects: Buckets)
    ensures GatheredBut([], subjects, subjects.Keys) && IdsOf([]) == multiset{}
    ensures subjects - (subjects.Keys - subjects.Keys) == subjects
  {
  }

  lemma {:induction false} AllGathered(all: seq<Item>, subjects: Buckets)
    requires GatheredBut(all, subjects, {})
    ensures Gathered(all, subjects)
    ensures Gathered(CanonicalOrder(all), subjects)
  {
    hide CanonicalOrder;
  }

  lemma {:induction false} IdsRearranged(a: seq<Item>, b: seq<Item>)
    requires multiset(a) == multiset(b)
    ensures IdsOf(a) == IdsOf(b)
    decreases |a|
  {
    hide IdsOf;
    if a == [] {
      assert |multiset(b)| == |b|;
    } else {
      var front, last := a[..|a| - 1], a[|a| - 1];
      var k := Sequences.TakenOut(a, b);
      IdsRearranged(front, b[..k] + b[k + 1..]);
      assert a == front + [last];
      IdsSnoc(front, last);
      IdsWithout(b, k);
    }
  }

  // Where no identity is retained twice the items of a snapshot are told apart by it.
  lemma {:induction false} SnapshotIsDistinct(items: seq<Item>)
    requires forall id: U64 :: IdsOf(items)[id] <= 1
    ensures DistinctIds(items)
  {
    hide IdsOf;
    forall i, j | 0 <= i < j < |items|
      ensures items[i].header.id != items[j].header.id
    {
      var id := items[j].header.id;
      var rest := Removed(items, j);
      IdsWithout(items, j);
      IdsHolds(rest, id);
      assert rest[i] == items[i];
      assert IdsOf(items) == IdsOf(rest) + multiset{id};
      assert IdsOf(items)[id] == IdsOf(rest)[id] + 1;
      assert items[i].header.id == id ==> id in IdsOf(rest);
    }
  }

  lemma {:induction false} GatheredMembers(all: seq<Item>, subjects: Buckets)
    requires Gathered(all, subjects)
    ensures forall item: Item :: item in all <==> item in BucketOf(subjects, item.header.subject)
  {
    forall item: Item
      ensures item in all <==> item in BucketOf(subjects, item.header.subject)
    {
      assert item in multiset(all) <==> multiset(all)[item] > 0;
    }
  }

  // Where they are, the snapshot is determined by what is retained.
  lemma {:induction false} OneSnapshot(a: seq<Item>, b: seq<Item>, subjects: Buckets)
    requires Ordered(a) && Ordered(b) && Gathered(a, subjects) && Gathered(b, subjects) && DistinctIds(a)
    ensures a == b
  {
    assert multiset(a) == multiset(b);
    OneArrangement(a, b);
  }
}
