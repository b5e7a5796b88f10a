// The evidence store: admission of items, the window of measurement identities,
// and eviction at its bounds.
module Store {
  import opened Bytes
  import opened Evidence
  import Fence

  datatype Limits = Limits(maxItems: nat, maxPerSubject: nat, maxSubjects: nat, maxIds: nat, maxNote: nat)

  datatype Reason =
    | NoReason
    | NoteTooLong
    | Malformed
    | UnsupportedMethod
    | UnknownSource
    | UnknownEpoch
    | StaleEpoch
    | ReplayedSequence
    | DuplicateMeasurement
    | StoreCapacity

  type Buckets = map<SubjectRef, seq<Item>>

  // ---- validation ---------------------------------------------------------------------------

  const MAX_NOTE := 256

  function FinestOf(m: Method): Granularity {
    match m
    case UnknownMethod => UnknownGranularity
    case CounterDelta => QueueWide
    case ProbeRoundTrip => PathWide
    case ProbeOneWay => LinkWide
    case SequenceGap => FlowWide
    case EndpointComparison => FlowWide
    case SyntheticInjection => QueueWide
  }

  predicate Implemented(m: Method) {
    m != UnknownMethod && m != ProbeOneWay
  }

  function MethodFor(p: Payload): Method {
    match p
    case CounterSample(_, _, _, _, _, _, _, _, _) => CounterDelta
    case ProbeReport(_, _, _, _, _, _, _) => ProbeRoundTrip
    case SequenceReport(_, _, _, _) => SequenceGap
    case EndpointReport(_, _, _, _, _) => EndpointComparison
  }

  predicate PayloadDeclared(p: Payload) {
    match p
    case CounterSample(counter, scope, _, width, _, _, _, _, _) =>
      counter != 0 && scope != UnknownScope && (width == 0 || width == 16 || width == 32 || width == 64)
    case ProbeReport(probe, _, _, _, _, _, _) => probe != 0
    case SequenceReport(_, _, _, _) => true
    case EndpointReport(role, node, _, _, _) => role != UnknownRole && node != 0
  }

  function Validate(item: Item): Reason {
    var h := item.header;
    if h.id == 0 || h.source == 0 || h.epoch == 0 || h.subject.kind.UnknownSubject? then Malformed
    else if h.method_ == UnknownMethod then UnsupportedMethod
    else if h.granularity == UnknownGranularity || IsFinerThan(h.granularity, FinestOf(h.method_)) then Malformed
    else if |h.note| > MAX_NOTE || h.observedAt == 0 || h.receivedAt == 0 then Malformed
    else if h.method_ != MethodFor(item.payload) && h.method_ != SyntheticInjection then Malformed
    else if !PayloadDeclared(item.payload) then Malformed
    else NoReason
  }

  // ---- what is retained -----------------------------------------------------------------------

  function IdsOf(items: seq<Item>): multiset<U64> {
    if items == [] then multiset{} else IdsOf(items[..|items| - 1]) + multiset{items[|items| - 1].header.id}
  }

  ghost function Retained(m: Buckets): multiset<U64> {
    if m == map[] then multiset{}
    else
      var k :| k in m;
      IdsOf(m[k]) + Retained(m - {k})
  }

  lemma {:induction false} UnionSwaps(a: multiset<U64>, b: multiset<U64>, c: multiset<U64>)
    ensures a + (b + c) == b + (a + c)
    ensures a + (b + c) == (a + b) + c
  {
  }

  lemma {:induction false} RetainedAt(m: Buckets, k: SubjectRef)
    requires k in m
    ensures Retained(m) == IdsOf(m[k]) + Retained(m - {k})
    decreases |m|
  {
    hide IdsOf;
    var first :| first in m && Retained(m) == IdsOf(m[first]) + Retained(m - {first});
    if first != k {
      hide Retained;
      RetainedAt(m - {first}, k);
      RetainedAt(m - {k}, first);
      assert (m - {first}) - {k} == (m - {k}) - {first};
      UnionSwaps(IdsOf(m[first]), IdsOf(m[k]), Retained((m - {k}) - {first}));
    }
  }

  lemma {:induction false} RetainedUpdate(m: Buckets, k: SubjectRef, items: seq<Item>)
    ensures Retained(m[k := items]) == IdsOf(items) + Retained(m - {k})
    ensures k in m ==> Retained(m) == IdsOf(m[k]) + Retained(m - {k})
    ensures k !in m ==> Retained(m) == Retained(m - {k})
  {
    hide IdsOf, Retained;
    RetainedAt(m[k := items], k);
    assert m[k := items] - {k} == m - {k};
    if k in m {
      RetainedAt(m, k);
    } else {
      assert m - {k} == m;
    }
  }

  lemma {:induction false} IdsSnoc(items: seq<Item>, item: Item)
    ensures IdsOf(items + [item]) == IdsOf(items) + multiset{item.header.id}
  {
    assert (items + [item])[..|items|] == items;
  }

  lemma {:induction false} IdsNone()
    ensures IdsOf([]) == multiset{}
  {
  }

  lemma {:induction false} IdsAppend(a: seq<Item>, b: seq<Item>)
    ensures IdsOf(a + b) == IdsOf(a) + IdsOf(b)
  {
    hide IdsOf;
    if b == [] {
      assert a + b == a;
      IdsNone();
    } else {
      var front, last := b[..|b| - 1], b[|b| - 1];
      IdsAppend(a, front);
      IdsSnoc(a + front, last);
      IdsSnoc(front, last);
      assert b == front + [last] && a + b == (a + front) + [last];
      UnionSwaps(IdsOf(a), IdsOf(front), multiset{last.header.id});
    }
  }

  lemma {:induction false} IdsOfOne(item: Item)
    ensures IdsOf([item]) == multiset{item.header.id}
  {
    assert IdsOf([item]) == IdsOf([item][..0]) + multiset{item.header.id};
  }

  lemma {:induction false} IdsWithout(items: seq<Item>, i: nat)
    requires i < |items|
    ensures IdsOf(items) == IdsOf(items[..i] + items[i + 1..]) + multiset{items[i].header.id}
  {
    hide IdsOf;
    assert items == items[..i] + ([items[i]] + items[i + 1..]);
    IdsAppend(items[..i], [items[i]] + items[i + 1..]);
    IdsAppend([items[i]], items[i + 1..]);
    IdsAppend(items[..i], items[i + 1..]);
    IdsOfOne(items[i]);
    UnionSwaps(IdsOf(items[..i]), IdsOf([items[i]]), IdsOf(items[i + 1..]));
  }

  lemma {:induction false} IdsSize(items: seq<Item>)
    ensures |IdsOf(items)| == |items|
  {
    if items != [] {
      IdsSize(items[..|items| - 1]);
    }
  }

  lemma {:induction false} IdsHolds(items: seq<Item>, id: U64)
    ensures id in IdsOf(items) <==> exists i :: 0 <= i < |items| && items[i].header.id == id
  {
    if items != [] {
      IdsHolds(items[..|items| - 1], id);
    }
  }

  // An identity is retained in some bucket.
  lemma {:induction false} RetainedSomewhere(m: Buckets, id: U64)
    requires id in Retained(m)
    ensures exists k <- m :: id in IdsOf(m[k])
    decreases m
  {
    if m != map[] {
      var k :| k in m && Retained(m) == IdsOf(m[k]) + Retained(m - {k});
      if id !in IdsOf(m[k]) {
        RetainedSomewhere(m - {k}, id);
        var j :| j in m - {k} && id in IdsOf((m - {k})[j]);
        assert j in m && id in IdsOf(m[j]);
      }
    }
  }

  // What is retained is what was accepted and not evicted; as long as no bucket
  // has overflowed, the insertion order lists exactly that.
  ghost predicate Balanced(m: Buckets, order: seq<U64>, accepted: nat, evicted: nat, perSubject: nat) {
    && |Retained(m)| + evicted == accepted
    && (perSubject == 0 ==> Retained(m) == multiset(order))
  }

  function BucketOf(m: Buckets, k: SubjectRef): seq<Item> {
    if k in m then m[k] else []
  }

  lemma {:induction false} BucketUpdate(m: Buckets, k: SubjectRef, items: seq<Item>)
    ensures Retained(m[k := items]) == IdsOf(items) + Retained(m - {k})
    ensures Retained(m) == IdsOf(BucketOf(m, k)) + Retained(m - {k})
  {
    RetainedUpdate(m, k, items);
    assert IdsOf([]) == multiset{};
  }

  lemma {:induction false} BalancedEmpty(m: Buckets, k: SubjectRef, order: seq<U64>, accepted: nat, evicted: nat,
                                         perSubject: nat)
    requires Balanced(m, order, accepted, evicted, perSubject) && k !in m
    ensures Balanced(m[k := []], order, accepted, evicted, perSubject)
  {
    BucketUpdate(m, k, []);
  }

  // Taking one item out of its bucket takes its identity out of what is retained.
  lemma {:induction false} TakenOut(m: Buckets, k: SubjectRef, i: nat)
    requires k in m && i < |m[k]|
    ensures Retained(m) == multiset{m[k][i].header.id} + Retained(m[k := m[k][..i] + m[k][i + 1..]])
  {
    var rest := m[k][..i] + m[k][i + 1..];
    BucketUpdate(m, k, rest);
    IdsWithout(m[k], i);
    hide IdsOf, Retained;
    UnionSwaps(multiset{m[k][i].header.id}, IdsOf(rest), Retained(m - {k}));
  }

  lemma {:induction false} BalancedOverflow(m: Buckets, k: SubjectRef, order: seq<U64>, accepted: nat, evicted: nat,
                                            perSubject: nat)
    requires Balanced(m, order, accepted, evicted, perSubject) && k in m && m[k] != []
    ensures Balanced(m[k := m[k][1..]], order, accepted, evicted + 1, perSubject + 1)
    ensures Retained(m) != multiset{}
  {
    hide Retained;
    TakenOut(m, k, 0);
    assert m[k][..0] + m[k][1..] == m[k][1..];
  }

  lemma {:induction false} BalancedAdd(m: Buckets, item: Item, order: seq<U64>, accepted: nat, evicted: nat,
                                       perSubject: nat)
    requires Balanced(m, order, accepted, evicted, perSubject)
    ensures var k := item.header.subject;
            Balanced(m[k := BucketOf(m, k) + [item]], order + [item.header.id], accepted + 1, evicted, perSubject)
  {
    var k := item.header.subject;
    BucketUpdate(m, k, BucketOf(m, k) + [item]);
    IdsAppend(BucketOf(m, k), [item]);
    IdsOfOne(item);
    hide IdsOf, Retained;
    UnionSwaps(multiset{item.header.id}, IdsOf(BucketOf(m, k)), Retained(m - {k}));
    OneMoreOf(order, item.header.id);
  }

  lemma {:induction false} OneMoreOf(order: seq<U64>, id: U64)
    ensures multiset(order + [id]) == multiset{id} + multiset(order)
  {
  }

  lemma {:induction false} FirstOf(order: seq<U64>)
    requires order != []
    ensures multiset(order) == multiset{order[0]} + multiset(order[1..])
  {
    assert order == [order[0]] + order[1..];
  }

  lemma {:induction false} BalancedRemove(m: Buckets, k: SubjectRef, i: nat, order: seq<U64>, accepted: nat,
                                          evicted: nat, perSubject: nat)
    requires Balanced(m, order, accepted, evicted, perSubject) && order != []
    requires k in m && i < |m[k]| && m[k][i].header.id == order[0]
    ensures Balanced(m[k := m[k][..i] + m[k][i + 1..]], order[1..], accepted, evicted + 1, perSubject)
  {
    hide Retained;
    TakenOut(m, k, i);
    FirstOf(order);
    SameRest(Retained(m), Retained(m[k := m[k][..i] + m[k][i + 1..]]), multiset(order[1..]), order[0]);
  }

  lemma {:induction false} SameRest(all: multiset<U64>, a: multiset<U64>, b: multiset<U64>, x: U64)
    requires all == multiset{x} + a
    ensures all == multiset{x} + b ==> a == b
  {
    assert (multiset{x} + a) - multiset{x} == a;
    assert (multiset{x} + b) - multiset{x} == b;
  }

  // If no bucket holds the oldest identity, some bucket has overflowed before.
  lemma {:induction false} BalancedMissing(m: Buckets, order: seq<U64>, accepted: nat, evicted: nat, perSubject: nat)
    requires Balanced(m, order, accepted, evicted, perSubject) && order != []
    requires forall k <- m :: order[0] !in IdsOf(m[k])
    ensures Balanced(m, order[1..], accepted, evicted, perSubject)
  {
    hide IdsOf, Retained;
    if order[0] in Retained(m) {
      RetainedSomewhere(m, order[0]);
    }
    FirstOf(order);
  }

  // A bucket that is full loses its oldest item to the new one.
  function WithItem(m: Buckets, item: Item, maxPerSubject: nat): Buckets {
    var bucket := BucketOf(m, item.header.subject);
    m[item.header.subject := (if |bucket| < maxPerSubject || bucket == [] then bucket else bucket[1..]) + [item]]
  }

  // A full bucket also costs the oldest entry of the insertion order, whichever
  // subject that one belongs to.
  function OrderWith(order: seq<U64>, m: Buckets, item: Item, maxPerSubject: nat): seq<U64> {
    (if |BucketOf(m, item.header.subject)| < maxPerSubject || order == [] then order else order[1..]) + [item.header.id]
  }

  function Removed(items: seq<Item>, i: nat): seq<Item>
    requires i < |items|
  {
    items[..i] + items[i + 1..]
  }

  // The first item with an identity goes from the first subject whose bucket holds it,
  // if one does.
  ghost predicate Dropped(before: Buckets, after: Buckets, victim: U64) {
    if exists k <- before :: victim in IdsOf(before[k]) then exists k <- before :: DroppedFrom(before, after, victim, k)
    else after == before
  }

  ghost predicate DroppedFrom(before: Buckets, after: Buckets, victim: U64, k: SubjectRef)
    requires k in before
  {
    && (forall other <- before :: victim in IdsOf(before[other]) ==> other == k || SubjectLess(k, other))
    && exists i :: 0 <= i < |before[k]| && before[k][i].header.id == victim
                && (forall j :: 0 <= j < i ==> before[k][j].header.id != victim)
                && after == before[k := Removed(before[k], i)]
  }

  // The buckets and the insertion order after one more item.
  ghost predicate InsertedInto(m: Buckets, order: seq<U64>, item: Item, limits: Limits, after: Buckets,
                               orderAfter: seq<U64>) {
    var full, longer := WithItem(m, item, limits.maxPerSubject), OrderWith(order, m, item, limits.maxPerSubject);
    if |longer| > limits.maxItems then orderAfter == longer[1..] && Dropped(full, after, longer[0])
    else orderAfter == longer && after == full
  }

  lemma {:induction false} DropsOne(m: Buckets, k: SubjectRef, i: nat)
    requires k in m && i < |m[k]|
    requires forall other <- m :: m[k][i].header.id in IdsOf(m[other]) ==> other == k || SubjectLess(k, other)
    requires forall j :: 0 <= j < i ==> m[k][j].header.id != m[k][i].header.id
    ensures Dropped(m, m[k := Removed(m[k], i)], m[k][i].header.id)
  {
    IdsHolds(m[k], m[k][i].header.id);
    hide IdsOf;
    assert DroppedFrom(m, m[k := Removed(m[k], i)], m[k][i].header.id, k);
  }

  ghost predicate BucketsWithin(m: Buckets, limits: Limits) {
    forall k <- m :: |m[k]| <= limits.maxPerSubject
  }

  // The store is full, the bucket has room, and nothing retained goes for the new
  // item: either the insertion order is short, or its oldest identity is retained no
  // longer.
  ghost predicate Exceeds(m: Buckets, order: seq<U64>, item: Item, limits: Limits) {
    && |Retained(m)| == limits.maxItems
    && |BucketOf(m, item.header.subject)| < limits.maxPerSubject
    && (|order| < limits.maxItems || (order != [] && order[0] !in Retained(m) && order[0] != item.header.id))
  }

  // One insertion into a store within its bound: the bound is exceeded after it exactly
  // then.
  lemma {:induction false} ExceedsExactly(m: Buckets, order: seq<U64>, item: Item, limits: Limits, after: Buckets,
                                          orderAfter: seq<U64>)
    requires InsertedInto(m, order, item, limits, after, orderAfter)
    requires limits.maxItems >= 1 && limits.maxPerSubject >= 1 && BucketsWithin(m, limits)
    requires |Retained(m)| <= limits.maxItems && |order| <= limits.maxItems
    ensures |Retained(after)| > limits.maxItems <==> Exceeds(m, order, item, limits)
  {
    hide InsertedInto, Retained, WithItem, OrderWith, BucketOf;
    var full, longer := WithItem(m, item, limits.maxPerSubject), OrderWith(order, m, item, limits.maxPerSubject);
    AddedCount(m, item, limits);
    LongerOrder(m, order, item, limits);
    GoneCount(m, order, item, limits, after, orderAfter);
    if |BucketOf(m, item.header.subject)| < limits.maxPerSubject {
      UnionSize(multiset{item.header.id}, Retained(m));
      assert forall id: U64 :: id in Retained(full) <==> id == item.header.id || id in Retained(m);
    }
  }

  lemma {:induction false} LongerOrder(m: Buckets, order: seq<U64>, item: Item, limits: Limits)
    requires limits.maxItems >= 1 && |order| <= limits.maxItems
    ensures var longer := OrderWith(order, m, item, limits.maxPerSubject);
            && longer != []
            && (|BucketOf(m, item.header.subject)| < limits.maxPerSubject ==> longer == order + [item.header.id])
            && (|BucketOf(m, item.header.subject)| >= limits.maxPerSubject ==> |longer| <= limits.maxItems)
  {
    hide BucketOf;
  }

  lemma {:induction false} GoneCount(m: Buckets, order: seq<U64>, item: Item, limits: Limits, after: Buckets,
                                     orderAfter: seq<U64>)
    requires InsertedInto(m, order, item, limits, after, orderAfter)
    requires OrderWith(order, m, item, limits.maxPerSubject) != []
    ensures var full := WithItem(m, item, limits.maxPerSubject);
            var longer := OrderWith(order, m, item, limits.maxPerSubject);
            |Retained(after)|
            == |Retained(full)| - if |longer| > limits.maxItems && longer[0] in Retained(full) then 1 else 0
  {
    hide Retained, WithItem, OrderWith, Dropped;
    var full, longer := WithItem(m, item, limits.maxPerSubject), OrderWith(order, m, item, limits.maxPerSubject);
    if |longer| > limits.maxItems {
      DroppedCount(full, after, longer[0]);
    }
  }

  // A full bucket makes room in itself.
  lemma {:induction false} AddedCount(m: Buckets, item: Item, limits: Limits)
    requires limits.maxPerSubject >= 1 && BucketsWithin(m, limits)
    ensures var full := WithItem(m, item, limits.maxPerSubject);
            if |BucketOf(m, item.header.subject)| < limits.maxPerSubject then
              Retained(full) == multiset{item.header.id} + Retained(m)
            else |Retained(full)| == |Retained(m)|
  {
    hide Retained, IdsOf;
    var k, bucket := item.header.subject, BucketOf(m, item.header.subject);
    var kept := if |bucket| < limits.maxPerSubject then bucket else bucket[1..];
    var full := WithItem(m, item, limits.maxPerSubject);
    assert full == m[k := kept + [item]];
    hide WithItem;
    BucketUpdate(m, k, kept + [item]);
    assert Retained(full) == IdsOf(kept + [item]) + Retained(m - {k});
    assert Retained(m) == IdsOf(bucket) + Retained(m - {k});
    IdsAppend(kept, [item]);
    IdsOfOne(item);
    IdsSize(kept + [item]);
    IdsSize(bucket);
    UnionSwaps(IdsOf(bucket), multiset{item.header.id}, Retained(m - {k}));
    UnionSize(IdsOf(kept + [item]), Retained(m - {k}));
    UnionSize(IdsOf(bucket), Retained(m - {k}));
  }

  lemma {:induction false} UnionSize(a: multiset<U64>, b: multiset<U64>)
    ensures |a + b| == |a| + |b|
  {
  }

  // Dropping an identity takes one occurrence of it away, if there is one.
  lemma {:induction false} DroppedIds(before: Buckets, after: Buckets, victim: U64)
    requires Dropped(before, after, victim)
    ensures Retained(before) == Retained(after) + if victim in Retained(before) then multiset{victim} else multiset{}
  {
    hide Retained, IdsOf, DroppedFrom;
    if exists k <- before :: victim in IdsOf(before[k]) {
      var k :| k in before && DroppedFrom(before, after, victim, k);
      DroppedFromOne(before, after, victim, k);
    } else if victim in Retained(before) {
      RetainedSomewhere(before, victim);
    }
  }

  lemma {:induction false} DroppedFromOne(before: Buckets, after: Buckets, victim: U64, k: SubjectRef)
    requires k in before && DroppedFrom(before, after, victim, k)
    ensures Retained(before) == Retained(after) + multiset{victim} && victim in Retained(before)
  {
    hide Retained, IdsOf;
    var i :| 0 <= i < |before[k]| && before[k][i].header.id == victim && after == before[k := Removed(before[k], i)];
    TakenOut(before, k, i);
    assert Removed(before[k], i) == before[k][..i] + before[k][i + 1..];
    assert Retained(before) == multiset{victim} + Retained(after);
    assert victim in multiset{victim} + Retained(after);
  }

  lemma {:induction false} DroppedCount(before: Buckets, after: Buckets, victim: U64)
    requires Dropped(before, after, victim)
    ensures |Retained(after)| == |Retained(before)| - if victim in Retained(before) then 1 else 0
  {
    hide Retained, Dropped;
    DroppedIds(before, after, victim);
    UnionSize(Retained(after), multiset{victim});
  }

  // A moment of a store: what it retains, and the insertion order.
  datatype Moment = Moment(subjects: Buckets, order: seq<U64>)

  // The moments of a store that was empty and took in some items.
  ghost predicate IsPast(moments: seq<Moment>, admitted: seq<Item>, limits: Limits) {
    && |moments| == |admitted| + 1 && moments[0] == Moment(map[], [])
    && forall i :: 0 <= i < |admitted| ==>
         InsertedInto(moments[i].subjects, moments[i].order, admitted[i], limits, moments[i + 1].subjects,
                      moments[i + 1].order)
  }

  lemma {:induction false} PastGrows(moments: seq<Moment>, admitted: seq<Item>, limits: Limits, item: Item, now: Moment)
    requires IsPast(moments, admitted, limits)
    requires InsertedInto(moments[|admitted|].subjects, moments[|admitted|].order, item, limits, now.subjects,
                          now.order)
    ensures IsPast(moments + [now], admitted + [item], limits) && (moments + [now])[|admitted| + 1] == now
  {
    hide InsertedInto;
  }

  // One identity for each item, in the same order.
  ghost predicate IdsIn(history: seq<U64>, items: seq<Item>) {
    |history| == |items| && forall i :: 0 <= i < |history| ==> history[i] == items[i].header.id
  }

  lemma {:induction false} IdsStep(history: seq<U64>, items: seq<Item>, item: Item)
    requires IdsIn(history, items)
    ensures IdsIn(history + [item.header.id], items + [item])
  {
  }

  // The insertion order lists the identities that came last.
  lemma {:induction false} OrderIsRecent(moments: seq<Moment>, admitted: seq<Item>, limits: Limits, history: seq<U64>,
                                         n: nat)
    requires IsPast(moments, admitted, limits) && IdsIn(history, admitted) && n <= |admitted|
    ensures var order := moments[n].order;
            |order| <= n && order == history[n - |order|..n]
    decreases n
  {
    hide InsertedInto;
    if n > 0 {
      OrderIsRecent(moments, admitted, limits, history, n - 1);
      var before, after, item := moments[n - 1], moments[n - 1 + 1], admitted[n - 1];
      OrderStep(before.subjects, before.order, item, limits, after.subjects, after.order);
      StillRecent(before.order, history, n);
    }
  }

  // One identity comes in; up to two go.
  lemma {:induction false} OrderStep(m: Buckets, order: seq<U64>, item: Item, limits: Limits, after: Buckets,
                                     orderAfter: seq<U64>)
    requires InsertedInto(m, order, item, limits, after, orderAfter)
    ensures var longer := order + [item.header.id];
            orderAfter == longer || orderAfter == longer[1..] || (|longer| > 1 && orderAfter == longer[1..][1..])
  {
    hide WithItem, Dropped, BucketOf;
    if order != [] {
      assert (order + [item.header.id])[1..] == order[1..] + [item.header.id];
    }
  }

  // So it stays when one comes in, and when some of the oldest go.
  lemma {:induction false} StillRecent(order: seq<U64>, history: seq<U64>, n: nat)
    requires 1 <= n <= |history| && |order| < n && order == history[n - 1 - |order|..n - 1]
    ensures var longer := order + [history[n - 1]];
            && longer == history[n - |longer|..n] && longer[1..] == history[n - |order|..n]
            && (|longer| > 1 ==> longer[1..][1..] == history[n - |order| + 1..n])
  {
  }

  // A stretch of identities no longer than the window holds none twice.
  lemma {:induction false} RecentAreDistinct(order: seq<U64>, history: seq<U64>, window: nat)
    requires Fence.Windowed(history, window) && |order| <= |history| && |order| <= window + 1
    requires order == history[|history| - |order|..]
    ensures forall id: U64 :: multiset(order)[id] <= 1
  {
    var start := |history| - |order|;
    assert forall i :: 0 <= i < |order| ==> order[i] == history[start + i];
    OnceEach(order);
  }

  lemma {:induction false} OnceEach(order: seq<U64>)
    requires forall i, j :: 0 <= i < j < |order| ==> order[i] != order[j]
    ensures forall id: U64 :: multiset(order)[id] <= 1
  {
    if order != [] {
      var front, last := order[..|order| - 1], order[|order| - 1];
      OnceEach(front);
      assert order == front + [last];
      assert last !in front;
    }
  }

  ghost predicate WithinUntil(moments: seq<Moment>, n: nat, limits: Limits)
    requires n < |moments|
  {
    forall i :: 0 <= i <= n ==> |Retained(moments[i].subjects)| <= limits.maxItems
  }

  ghost predicate HarmlessUntil(moments: seq<Moment>, admitted: seq<Item>, n: nat, limits: Limits)
    requires n <= |admitted| < |moments|
  {
    forall i :: 0 <= i < n ==> !Exceeds(moments[i].subjects, moments[i].order, admitted[i], limits)
  }

  lemma {:induction false} InsertionBounded(m: Buckets, order: seq<U64>, item: Item, limits: Limits, after: Buckets,
                                            orderAfter: seq<U64>)
    requires InsertedInto(m, order, item, limits, after, orderAfter)
    requires limits.maxItems >= 1 && limits.maxPerSubject >= 1 && BucketsWithin(m, limits) && |order| <= limits.maxItems
    ensures BucketsWithin(after, limits) && |orderAfter| <= limits.maxItems
  {
    hide IdsOf;
    var full := WithItem(m, item, limits.maxPerSubject);
    assert BucketsWithin(full, limits);
  }

  lemma {:induction false} PastBounded(moments: seq<Moment>, admitted: seq<Item>, limits: Limits, n: nat)
    requires IsPast(moments, admitted, limits) && limits.maxItems >= 1 && limits.maxPerSubject >= 1 && n < |moments|
    ensures BucketsWithin(moments[n].subjects, limits) && |moments[n].order| <= limits.maxItems
    decreases n
  {
    hide InsertedInto;
    if n > 0 {
      PastBounded(moments, admitted, limits, n - 1);
      InsertionBounded(moments[n - 1].subjects, moments[n - 1].order, admitted[n - 1], limits, moments[n].subjects,
                       moments[n].order);
    }
  }

  // Over every run of a store: up to any moment, the bound on the total has held
  // throughout if and only if no insertion was one that exceeds it.
  lemma {:induction false} BoundHoldsExactly(moments: seq<Moment>, admitted: seq<Item>, limits: Limits, n: nat)
    requires IsPast(moments, admitted, limits) && limits.maxItems >= 1 && limits.maxPerSubject >= 1 && n < |moments|
    ensures WithinUntil(moments, n, limits) <==> HarmlessUntil(moments, admitted, n, limits)
    decreases n
  {
    hide Retained, InsertedInto, Exceeds;
    if n == 0 {
      NothingRetained();
    } else {
      BoundHoldsExactly(moments, admitted, limits, n - 1);
      PastBounded(moments, admitted, limits, n - 1);
      OneMoment(moments, admitted, limits, n);
      var before := moments[n - 1];
      if WithinUntil(moments, n - 1, limits) {
        LastInsertion(moments, admitted, limits, n);
        ExceedsExactly(before.subjects, before.order, admitted[n - 1], limits, moments[n].subjects, moments[n].order);
      }
      hide WithinUntil, HarmlessUntil;
    }
  }

  lemma {:induction false} LastInsertion(moments: seq<Moment>, admitted: seq<Item>, limits: Limits, n: nat)
    requires IsPast(moments, admitted, limits) && 1 <= n < |moments| && WithinUntil(moments, n - 1, limits)
    ensures InsertedInto(moments[n - 1].subjects, moments[n - 1].order, admitted[n - 1], limits, moments[n].subjects,
                         moments[n].order)
    ensures |Retained(moments[n - 1].subjects)| <= limits.maxItems
  {
    hide InsertedInto, Retained;
    assert moments[n - 1 + 1] == moments[n];
  }

  lemma {:induction false} OneMoment(moments: seq<Moment>, admitted: seq<Item>, limits: Limits, n: nat)
    requires 1 <= n <= |admitted| < |moments|
    ensures WithinUntil(moments, n, limits)
       <==> WithinUntil(moments, n - 1, limits) && |Retained(moments[n].subjects)| <= limits.maxItems
    ensures HarmlessUntil(moments, admitted, n, limits)
       <==> HarmlessUntil(moments, admitted, n - 1, limits)
            && !Exceeds(moments[n - 1].subjects, moments[n - 1].order, admitted[n - 1], limits)
  {
    hide Retained, Exceeds;
  }

  // ---- identities of what is retained ---------------------------------------------------------------

  // No identity is retained twice.
  ghost predicate Distinct(m: Buckets) {
    forall id: U64 :: Retained(m)[id] <= 1
  }

  // The identity is still retained, though it may have left the memory, and neither the
  // item that a full bucket loses nor the one that goes for the bound has it.
  ghost predicate Repeats(m: Buckets, order: seq<U64>, item: Item, limits: Limits) {
    var id, bucket := item.header.id, BucketOf(m, item.header.subject);
    var longer := OrderWith(order, m, item, limits.maxPerSubject);
    && id in Retained(m)
    && (bucket == [] || |bucket| < limits.maxPerSubject || bucket[0].header.id != id)
    && (|longer| <= limits.maxItems || longer[0] != id)
  }

  lemma {:induction false} AddedIds(m: Buckets, item: Item, limits: Limits)
    requires limits.maxPerSubject >= 1
    ensures var bucket, full := BucketOf(m, item.header.subject), WithItem(m, item, limits.maxPerSubject);
            if bucket == [] || |bucket| < limits.maxPerSubject then
              Retained(full) == multiset{item.header.id} + Retained(m)
            else Retained(full) + multiset{bucket[0].header.id} == multiset{item.header.id} + Retained(m)
  {
    hide Retained, IdsOf;
    var k, bucket := item.header.subject, BucketOf(m, item.header.subject);
    var kept := if bucket == [] || |bucket| < limits.maxPerSubject then bucket else bucket[1..];
    var full := WithItem(m, item, limits.maxPerSubject);
    assert full == m[k := kept + [item]];
    hide WithItem;
    BucketUpdate(m, k, kept + [item]);
    IdsAppend(kept, [item]);
    IdsOfOne(item);
    UnionSwaps(IdsOf(kept), multiset{item.header.id}, Retained(m - {k}));
    if kept != bucket {
      IdsWithout(bucket, 0);
      assert bucket[..0] + bucket[1..] == bucket[1..];
      assert IdsOf(bucket) == IdsOf(kept) + multiset{bucket[0].header.id};
    }
  }

  // One insertion into a store that retains no identity twice: it does so afterwards
  // exactly then.
  lemma {:induction false} RepeatsExactly(m: Buckets, order: seq<U64>, item: Item, limits: Limits, after: Buckets,
                                          orderAfter: seq<U64>)
    requires InsertedInto(m, order, item, limits, after, orderAfter) && Distinct(m)
    requires limits.maxItems >= 1 && limits.maxPerSubject >= 1
    ensures Distinct(after) <==> !Repeats(m, order, item, limits)
  {
    hide InsertedInto, Retained, WithItem, OrderWith, BucketOf;
    var bucket := BucketOf(m, item.header.subject);
    var full, longer := WithItem(m, item, limits.maxPerSubject), OrderWith(order, m, item, limits.maxPerSubject);
    AddedIds(m, item, limits);
    FirstIsRetained(m, item.header.subject);
    GoneIds(m, order, item, limits, after, orderAfter);
    var lost := if bucket == [] || |bucket| < limits.maxPerSubject then None else Some(bucket[0].header.id);
    var gone := if |longer| > limits.maxItems then Some(longer[0]) else None;
    OneMoreCount(Retained(m), Retained(full), Retained(after), item.header.id, lost, gone);
  }

  lemma {:induction false} GoneIds(m: Buckets, order: seq<U64>, item: Item, limits: Limits, after: Buckets,
                                   orderAfter: seq<U64>)
    requires InsertedInto(m, order, item, limits, after, orderAfter) && limits.maxItems >= 1
    ensures var full := WithItem(m, item, limits.maxPerSubject);
            var longer := OrderWith(order, m, item, limits.maxPerSubject);
            && longer != []
            && (|longer| <= limits.maxItems ==> after == full)
            && (|longer| > limits.maxItems ==>
                  Retained(full) == Retained(after)
                                    + if longer[0] in Retained(full) then multiset{longer[0]} else multiset{})
  {
    hide Retained, WithItem, Dropped;
    var full, longer := WithItem(m, item, limits.maxPerSubject), OrderWith(order, m, item, limits.maxPerSubject);
    if |longer| > limits.maxItems {
      DroppedIds(full, after, longer[0]);
    }
  }

  lemma {:induction false} FirstIsRetained(m: Buckets, k: SubjectRef)
    ensures BucketOf(m, k) != [] ==> BucketOf(m, k)[0].header.id in Retained(m)
  {
    hide Retained, IdsOf;
    if BucketOf(m, k) != [] {
      TakenOut(m, k, 0);
    }
  }

  // Counting: one comes in, up to two go.
  lemma {:induction false} OneMoreCount(m: multiset<U64>, full: multiset<U64>, after: multiset<U64>, id: U64,
                                        lost: Option<U64>, gone: Option<U64>)
    requires forall x: U64 :: m[x] <= 1
    requires lost.Some? ==> lost.value in m && full + multiset{lost.value} == multiset{id} + m
    requires lost.None? ==> full == multiset{id} + m
    requires gone.None? ==> after == full
    requires gone.Some? ==> full == after + if gone.value in full then multiset{gone.value} else multiset{}
    ensures (forall x: U64 :: after[x] <= 1) <==> !(id in m && lost != Some(id) && gone != Some(id))
  {
    forall x: U64
      ensures full[x] == m[x] + (if x == id then 1 else 0) - (if lost == Some(x) then 1 else 0)
    {
      assert (multiset{id} + m)[x] == m[x] + if x == id then 1 else 0;
      if lost.Some? {
        assert (full + multiset{lost.value})[x] == full[x] + if lost == Some(x) then 1 else 0;
      }
    }
    forall x: U64
      ensures after[x] == full[x] - if gone == Some(x) && x in full then 1 else 0
    {
    }
  }

  ghost predicate DistinctUntil(moments: seq<Moment>, n: nat)
    requires n < |moments|
  {
    forall i :: 0 <= i <= n ==> Distinct(moments[i].subjects)
  }

  ghost predicate NoneRepeats(moments: seq<Moment>, admitted: seq<Item>, n: nat, limits: Limits)
    requires n <= |admitted| < |moments|
  {
    forall i :: 0 <= i < n ==> !Repeats(moments[i].subjects, moments[i].order, admitted[i], limits)
  }

  // Over every run of a store: up to any moment no identity has been retained twice if
  // and only if no insertion repeated one.
  lemma {:induction false} DistinctExactly(moments: seq<Moment>, admitted: seq<Item>, limits: Limits, n: nat)
    requires IsPast(moments, admitted, limits) && limits.maxItems >= 1 && limits.maxPerSubject >= 1 && n < |moments|
    ensures DistinctUntil(moments, n) <==> NoneRepeats(moments, admitted, n, limits)
    decreases n
  {
    hide Distinct, InsertedInto, Repeats;
    if n == 0 {
      NothingTwice();
    } else {
      DistinctExactly(moments, admitted, limits, n - 1);
      LastMoment(moments, admitted, limits, n);
      var before, item, after := moments[n - 1], admitted[n - 1], moments[n - 1 + 1];
      hide DistinctUntil, NoneRepeats;
      if Distinct(before.subjects) {
        RepeatsExactly(before.subjects, before.order, item, limits, after.subjects, after.order);
      }
    }
  }

  lemma {:induction false} NothingTwice()
    ensures Distinct(map[])
  {
    NothingRetained();
  }

  lemma {:induction false} LastMoment(moments: seq<Moment>, admitted: seq<Item>, limits: Limits, n: nat)
    requires 1 <= n <= |admitted| < |moments|
    ensures DistinctUntil(moments, n) <==> DistinctUntil(moments, n - 1) && Distinct(moments[n].subjects)
    ensures DistinctUntil(moments, n - 1) ==> Distinct(moments[n - 1].subjects)
    ensures NoneRepeats(moments, admitted, n, limits)
       <==> NoneRepeats(moments, admitted, n - 1, limits)
            && !Repeats(moments[n - 1].subjects, moments[n - 1].order, admitted[n - 1], limits)
  {
    hide Distinct, Repeats;
  }

  // After a bucket has overflowed the bound on the total can be exceeded: one item
  // of a first subject, two of a second one and one of a third are all that is
  // needed for a bound of two.
  lemma {:induction false} BoundIsExceeded(a: Item, b: Item, c: Item, d: Item, limits: Limits, m: seq<Buckets>,
                                           order: seq<seq<U64>>)
    requires limits.maxItems == 2 && limits.maxPerSubject == 1 && |m| == |order| == 5
    requires b.header.subject == c.header.subject
    requires a.header.subject != b.header.subject && d.header.subject !in {a.header.subject, b.header.subject}
    requires b.header.id !in {a.header.id, c.header.id, d.header.id}
    requires m[0] == map[] && order[0] == []
    requires InsertedInto(m[0], order[0], a, limits, m[1], order[1])
    requires InsertedInto(m[1], order[1], b, limits, m[2], order[2])
    requires InsertedInto(m[2], order[2], c, limits, m[3], order[3])
    requires InsertedInto(m[3], order[3], d, limits, m[4], order[4])
    ensures m[4] == map[a.header.subject := [a], b.header.subject := [c], d.header.subject := [d]]
    ensures Retained(m[4]) == multiset{a.header.id, c.header.id, d.header.id}
  {
    hide Retained, IdsOf, InsertedInto;
    FirstTwo(a, b, limits, m[1], order[1], m[2], order[2]);
    ThirdOverflows(a, b, c, limits, m[3], order[3]);
    FourthFits(a, b, c, d, limits, m[4], order[4]);
    ThreeRetained(a, c, d);
  }

  // With one item to a subject, the new one takes the place of what was there.
  lemma {:induction false} TakesPlace(m: Buckets, item: Item)
    requires |BucketOf(m, item.header.subject)| <= 1
    ensures WithItem(m, item, 1) == m[item.header.subject := [item]]
  {
    var bucket := BucketOf(m, item.header.subject);
    assert bucket == [] ==> bucket + [item] == [item];
    assert bucket != [] ==> bucket[1..] + [item] == [item];
  }

  lemma {:induction false} FirstTwo(a: Item, b: Item, limits: Limits, m: Buckets, order: seq<U64>, m': Buckets,
                                    order': seq<U64>)
    requires limits.maxItems == 2 && limits.maxPerSubject == 1 && a.header.subject != b.header.subject
    requires InsertedInto(map[], [], a, limits, m, order) && InsertedInto(m, order, b, limits, m', order')
    ensures m' == map[a.header.subject := [a], b.header.subject := [b]] && order' == [a.header.id, b.header.id]
  {
    hide WithItem;
    TakesPlace(map[], a);
    assert m == map[a.header.subject := [a]] && order == [a.header.id];
    TakesPlace(m, b);
  }

  lemma {:induction false} ThirdOverflows(a: Item, b: Item, c: Item, limits: Limits, m: Buckets, order: seq<U64>)
    requires limits.maxItems == 2 && limits.maxPerSubject == 1
    requires a.header.subject != b.header.subject && b.header.subject == c.header.subject
    requires InsertedInto(map[a.header.subject := [a], b.header.subject := [b]], [a.header.id, b.header.id], c, limits,
                          m, order)
    ensures m == map[a.header.subject := [a], b.header.subject := [c]] && order == [b.header.id, c.header.id]
  {
    hide WithItem;
    TakesPlace(map[a.header.subject := [a], b.header.subject := [b]], c);
  }

  lemma {:induction false} FourthFits(a: Item, b: Item, c: Item, d: Item, limits: Limits, m: Buckets, order: seq<U64>)
    requires limits.maxItems == 2 && limits.maxPerSubject == 1
    requires a.header.subject != c.header.subject && d.header.subject !in {a.header.subject, c.header.subject}
    requires b.header.id !in {a.header.id, c.header.id, d.header.id}
    requires InsertedInto(map[a.header.subject := [a], c.header.subject := [c]], [b.header.id, c.header.id], d, limits,
                          m, order)
    ensures m == map[a.header.subject := [a], c.header.subject := [c], d.header.subject := [d]]
  {
    hide IdsOf, Dropped;
    var before := map[a.header.subject := [a], c.header.subject := [c]];
    var full := map[a.header.subject := [a], c.header.subject := [c], d.header.subject := [d]];
    TakesPlace(before, d);
    hide WithItem;
    assert OrderWith([b.header.id, c.header.id], before, d, 1) == [b.header.id, c.header.id, d.header.id];
    IdsOfOne(a);
    IdsOfOne(c);
    IdsOfOne(d);
    NotThere(full, m, b.header.id);
  }

  lemma {:induction false} NotThere(before: Buckets, after: Buckets, victim: U64)
    requires Dropped(before, after, victim) && forall k <- before :: victim !in IdsOf(before[k])
    ensures after == before
  {
    hide IdsOf;
  }

  lemma {:induction false} ThreeRetained(a: Item, c: Item, d: Item)
    requires a.header.subject != c.header.subject && d.header.subject !in {a.header.subject, c.header.subject}
    ensures Retained(map[a.header.subject := [a], c.header.subject := [c], d.header.subject := [d]])
         == multiset{a.header.id, c.header.id, d.header.id}
  {
    hide Retained, IdsOf;
    var one := map[a.header.subject := [a]];
    var two := one[c.header.subject := [c]];
    IdsOfOne(a);
    IdsOfOne(c);
    IdsOfOne(d);
    NothingRetained();
    var none: Buckets := map[];
    RetainedUpdate(none, a.header.subject, [a]);
    assert none - {a.header.subject} == none;
    assert none[a.header.subject := [a]] == one;
    RetainedUpdate(one, c.header.subject, [c]);
    assert one - {c.header.subject} == one;
    RetainedUpdate(two, d.header.subject, [d]);
    assert two - {d.header.subject} == two;
  }

  // Where the insertion order has room, nothing is dropped for the new item.
  lemma {:induction false} InsertedWithRoom(m: Buckets, order: seq<U64>, item: Item, limits: Limits, after: Buckets,
                                            orderAfter: seq<U64>)
    requires InsertedInto(m, order, item, limits, after, orderAfter) && |order| < limits.maxItems
    ensures after == WithItem(m, item, limits.maxPerSubject) && |orderAfter| <= |order| + 1
  {
    hide WithItem, Dropped;
  }

  lemma {:induction false} NothingRetained()
    ensures Retained(map[]) == multiset{}
  {
  }

  // Nothing is retained but what was before, and the item.
  ghost predicate OnlyAdds(before: Buckets, after: Buckets, item: Item) {
    forall k <- after :: forall x <- after[k] :: x in BucketOf(before, k) || (x == item && k == item.header.subject)
  }

  ghost predicate OnlyDrops(before: Buckets, after: Buckets) {
    forall k <- after :: forall x <- after[k] :: x in BucketOf(before, k)
  }

  lemma {:induction false} DropsJoin(a: Buckets, b: Buckets, c: Buckets, item: Item)
    requires OnlyAdds(a, b, item) && OnlyDrops(b, c)
    ensures OnlyAdds(a, c, item)
  {
    forall k | k in c
      ensures forall x <- c[k] :: x in BucketOf(a, k) || (x == item && k == item.header.subject)
    {
      forall x | x in c[k]
        ensures x in BucketOf(a, k) || (x == item && k == item.header.subject)
      {
        assert x in BucketOf(b, k);
      }
    }
  }

  lemma {:induction false} NoneDropped(m: Buckets, victim: U64)
    requires forall k <- m :: victim !in IdsOf(m[k])
    ensures Dropped(m, m, victim)
  {
    hide IdsOf;
  }

  lemma {:induction false} NothingDropped(m: Buckets)
    ensures OnlyDrops(m, m)
  {
  }

  lemma {:induction false} AddingOnlyAdds(m: Buckets, item: Item, maxPerSubject: nat)
    ensures OnlyAdds(m, WithItem(m, item, maxPerSubject), item)
  {
  }

  lemma {:induction false} RemovingOnlyDrops(m: Buckets, k: SubjectRef, i: nat)
    requires k in m && i < |m[k]|
    ensures OnlyDrops(m, m[k := m[k][..i] + m[k][i + 1..]])
  {
  }

  // The answers of the fence as reasons.
  function FenceReason(o: Fence.Outcome): Reason {
    match o
    case Replayed => ReplayedSequence
    case StaleEpoch => Reason.StaleEpoch
    case UnknownSource => Reason.UnknownSource
    case NoActiveIncarnation => UnknownEpoch
    case Reordered => NoReason
    case Accepted => NoReason
  }

  // What is checked before the fence, in order.
  function Structural(item: Item, maxNote: nat): Reason {
    if |item.header.note| > maxNote then NoteTooLong
    else if Validate(item) != NoReason then Validate(item)
    else if !Implemented(item.header.method_) then UnsupportedMethod
    else NoReason
  }

  // ---- the window of identities -----------------------------------------------------------------

  ghost predicate Tracks(seenIds: set<U64>, seenOrder: seq<U64>, history: seq<U64>, window: nat) {
    && seenOrder == Fence.LastOf(history, window)
    && Fence.Windowed(history, window)
    && forall id: U64 :: id in seenIds <==> id in seenOrder
  }

  lemma {:induction false} TracksStep(seenIds: set<U64>, seenOrder: seq<U64>, history: seq<U64>, window: nat, id: U64)
    requires Tracks(seenIds, seenOrder, history, window) && id !in seenIds
    ensures var order := seenOrder + [id];
            if |order| > window then Tracks(seenIds + {id} - {order[0]}, order[1..], history + [id], window)
            else Tracks(seenIds + {id}, order, history + [id], window)
  {
    hide Fence.LastOf, Fence.Windowed;
    Fence.WindowedStep(history, id, window);
    OneMoreSeen(history, id, window);
    SeenStep(seenIds, seenOrder, window, id);
  }

  lemma {:induction false} SeenStep(seenIds: set<U64>, seenOrder: seq<U64>, window: nat, id: U64)
    requires forall x: U64 :: x in seenIds <==> x in seenOrder
    requires var order := seenOrder + [id];
             |order| > window ==> forall i :: 1 <= i < |order| ==> order[i] != order[0]
    ensures var order := seenOrder + [id];
            if |order| > window then forall x: U64 :: x in seenIds + {id} - {order[0]} <==> x in order[1..]
            else forall x: U64 :: x in seenIds + {id} <==> x in order
  {
    var order := seenOrder + [id];
    assert order == [order[0]] + order[1..];
    assert forall x: U64 :: x in order <==> x in seenOrder || x == id;
  }

  // The window after one more identity: at most the oldest one drops out.
  lemma {:induction false} OneMoreSeen(history: seq<U64>, id: U64, window: nat)
    requires Fence.Windowed(history + [id], window)
    ensures var seen := Fence.LastOf(history, window) + [id];
            && Fence.LastOf(history + [id], window) == (if |seen| > window then seen[1..] else seen)
            && (|seen| > window ==> forall i :: 1 <= i < |seen| ==> seen[i] != seen[0])
  {
    var seen, more := Fence.LastOf(history, window) + [id], history + [id];
    var start := |more| - |seen|;
    assert seen == more[start..];
    assert forall i :: 0 <= i < |seen| ==> seen[i] == more[start + i];
    assert forall i :: 1 <= i < |seen| && seen[i] == seen[0] ==> i > window;
  }

  method FindId(items: seq<Item>, id: U64) returns (i: nat)
    ensures i <= |items|
    ensures i < |items| ==> items[i].header.id == id
    ensures forall j :: 0 <= j < i ==> items[j].header.id != id
    ensures i == |items| ==> id !in IdsOf(items)
  {
    i := 0;
    while i < |items| && items[i].header.id != id
      invariant i <= |items| && forall j :: 0 <= j < i ==> items[j].header.id != id
    {
      i := i + 1;
    }
    IdsHolds(items, id);
  }

  method FirstSubject(subjects: set<SubjectRef>) returns (first: SubjectRef)
    requires subjects != {}
    ensures first in subjects && forall k <- subjects :: k == first || SubjectLess(first, k)
  {
    hide SubjectLess;
    first :| first in subjects;
    var left := subjects - {first};
    while left != {}
      invariant left <= subjects && first in subjects
      invariant forall k <- subjects :: k in left || k == first || SubjectLess(first, k)
      decreases left
    {
      var k :| k in left;
      forall other | other in subjects
        ensures SubjectLess(k, first) && SubjectLess(first, other) ==> SubjectLess(k, other)
        ensures k == first || SubjectLess(k, first) || SubjectLess(first, k)
      {
        SubjectLessIsTotal(k, first, other);
      }
      if SubjectLess(k, first) {
        first := k;
      }
      left := left - {k};
    }
  }

  // ---- the store -----------------------------------------------------------------------------------

  class EvidenceStore {
    const sources: Fence.SourceRegistry
    const limits: Limits
    var subjects: Buckets
    var seenIds: set<U64>
    var seenOrder: seq<U64>
    var insertionOrder: seq<U64>
    var accepted: nat
    var evicted: nat
    var evictedPerSubject: nat
    // The identities admitted so far, in order; the items, and the moments between them.
    ghost var history: seq<U64>
    ghost var admitted: seq<Item>
    ghost var moments: seq<Moment>

    ghost predicate Counted()
      reads this
    {
      Balanced(subjects, insertionOrder, accepted, evicted, evictedPerSubject)
    }

    ghost predicate BucketsBounded()
      reads this
    {
      forall k <- subjects :: |subjects[k]| <= limits.maxPerSubject
    }

    // Retained items are what was accepted and not evicted; identities are
    // remembered over a window; buckets keep their bound.
    ghost predicate Intact()
      reads this
    {
      && limits.maxItems >= 1 && limits.maxPerSubject >= 1
      && Counted() && Tracks(seenIds, seenOrder, history, limits.maxIds) && BucketsBounded()
      && |insertionOrder| <= limits.maxItems
      && (insertionOrder == [] ==> Retained(subjects) == multiset{})
    }

    // The store also came to be what it is by insertions.
    ghost predicate Valid()
      reads this
    {
      && Intact() && IsPast(moments, admitted, limits) && moments[|admitted|] == Moment(subjects, insertionOrder)
      && IdsIn(history, admitted)
    }

    constructor (sources: Fence.SourceRegistry, limits: Limits)
      requires limits.maxItems >= 1 && limits.maxPerSubject >= 1
      ensures Valid() && this.sources == sources && this.limits == limits
      ensures subjects == map[] && history == [] && admitted == [] && accepted == evicted == evictedPerSubject == 0
    {
      this.sources, this.limits := sources, limits;
      subjects, seenIds, seenOrder, insertionOrder, history := map[], {}, [], [], [];
      admitted, moments := [], [Moment(map[], [])];
      accepted, evicted, evictedPerSubject := 0, 0, 0;
    }

    // The bound on the total has held since the store was empty if and only if no item
    // came in that exceeds it; while no bucket has overflowed none does.
    lemma TotalBound()
      requires Valid()
      ensures WithinUntil(moments, |admitted|, limits) <==> HarmlessUntil(moments, admitted, |admitted|, limits)
      ensures WithinUntil(moments, |admitted|, limits) ==> |Retained(subjects)| <= limits.maxItems
      ensures evictedPerSubject == 0 ==> |Retained(subjects)| <= limits.maxItems
    {
      hide InsertedInto, Exceeds, Retained;
      BoundHoldsExactly(moments, admitted, limits, |admitted|);
      assert |multiset(insertionOrder)| == |insertionOrder|;
    }

    // No identity has been retained twice since the store was empty if and only if no
    // insertion repeated one; none does while no bucket has overflowed and identities are
    // remembered for as long as items are listed.
    lemma RetainedAreDistinct()
      requires Valid()
      ensures DistinctUntil(moments, |admitted|) <==> NoneRepeats(moments, admitted, |admitted|, limits)
      ensures DistinctUntil(moments, |admitted|) ==> Distinct(subjects)
      ensures evictedPerSubject == 0 && limits.maxItems <= limits.maxIds + 1 ==> Distinct(subjects)
    {
      hide InsertedInto, Retained, Repeats, Fence.Windowed;
      DistinctExactly(moments, admitted, limits, |admitted|);
      OrderIsRecent(moments, admitted, limits, history, |admitted|);
      if evictedPerSubject == 0 && limits.maxItems <= limits.maxIds + 1 {
        RecentAreDistinct(insertionOrder, history, limits.maxIds);
      }
    }

    method MakeRoom(subject: SubjectRef)
      requires Intact()
      modifies `subjects, `insertionOrder, `evicted, `evictedPerSubject
      ensures Counted() && BucketsBounded()
      ensures subject in subjects && |subjects[subject]| < limits.maxPerSubject
      ensures var bucket := BucketOf(old(subjects), subject);
              subjects == old(subjects)[subject := if |bucket| < limits.maxPerSubject then bucket else bucket[1..]]
      ensures insertionOrder ==
              if |BucketOf(old(subjects), subject)| < limits.maxPerSubject || old(insertionOrder) == [] then
                old(insertionOrder)
              else old(insertionOrder)[1..]
      ensures evictedPerSubject >= old(evictedPerSubject)
    {
      hide Balanced, Tracks, IdsOf, Retained;
      if subject !in subjects {
        BalancedEmpty(subjects, subject, insertionOrder, accepted, evicted, evictedPerSubject);
        var none: seq<Item> := [];
        subjects := subjects[subject := none];
      }
      var bucket := subjects[subject];
      if |bucket| >= limits.maxPerSubject {
        BalancedOverflow(subjects, subject, insertionOrder, accepted, evicted, evictedPerSubject);
        OverflowUnlists(subjects[subject := bucket[1..]], insertionOrder, accepted, evicted + 1, evictedPerSubject + 1);
        subjects := subjects[subject := bucket[1..]];
        insertionOrder := insertionOrder[1..];
        evicted := evicted + 1;
        evictedPerSubject := evictedPerSubject + 1;
      }
    }

    // The oldest identity of the insertion order goes, and one item of that
    // identity with it if there still is one.
    method EvictOldest()
      requires insertionOrder != [] && Counted() && BucketsBounded()
      modifies `subjects, `insertionOrder, `evicted
      ensures insertionOrder == old(insertionOrder)[1..] && Counted() && BucketsBounded()
      ensures Dropped(old(subjects), subjects, old(insertionOrder)[0])
      ensures forall k <- subjects :: k in old(subjects)
      ensures OnlyDrops(old(subjects), subjects)
    {
      hide Balanced, IdsOf, Retained, OnlyDrops, Dropped;
      var victim := insertionOrder[0];
      insertionOrder := insertionOrder[1..];
      var left := subjects.Keys;
      while left != {}
        invariant left <= subjects.Keys && BucketsBounded()
        invariant subjects == old(subjects) && evicted == old(evicted) && insertionOrder == old(insertionOrder)[1..]
        invariant forall k <- subjects :: k in left || victim !in IdsOf(subjects[k])
        decreases left
      {
        var k := FirstSubject(left);
        left := left - {k};
        var bucket := subjects[k];
        var i := FindId(bucket, victim);
        if i < |bucket| {
          BalancedRemove(subjects, k, i, old(insertionOrder), accepted, evicted, evictedPerSubject);
          RemovingOnlyDrops(subjects, k, i);
          DropsOne(subjects, k, i);
          subjects := subjects[k := Removed(bucket, i)];
          evicted := evicted + 1;
          return;
        }
      }
      BalancedMissing(subjects, old(insertionOrder), accepted, evicted, evictedPerSubject);
      NothingDropped(subjects);
      NoneDropped(subjects, victim);
    }

    method Insert(item: Item)
      requires Intact() && item.header.id !in seenIds
      modifies `subjects, `seenIds, `seenOrder, `insertionOrder, `accepted, `evicted, `evictedPerSubject, `history
      ensures Intact() && history == old(history) + [item.header.id] && accepted == old(accepted) + 1
      ensures evictedPerSubject >= old(evictedPerSubject)
      ensures InsertedInto(old(subjects), old(insertionOrder), item, limits, subjects, insertionOrder)
      ensures forall k <- subjects :: k in old(subjects) || k == item.header.subject
      ensures OnlyAdds(old(subjects), subjects, item)
    {
      hide Balanced, Tracks, IdsOf, Retained, OnlyAdds, OnlyDrops, Dropped;
      var subject, id := item.header.subject, item.header.id;
      MakeRoom(subject);
      BalancedAdd(subjects, item, insertionOrder, accepted, evicted, evictedPerSubject);
      subjects := subjects[subject := subjects[subject] + [item]];
      insertionOrder := insertionOrder + [id];
      accepted := accepted + 1;
      Remember(id);
      AddingOnlyAdds(old(subjects), item, limits.maxPerSubject);
      ghost var full, longer := subjects, insertionOrder;
      assert full == WithItem(old(subjects), item, limits.maxPerSubject);
      assert longer == OrderWith(old(insertionOrder), old(subjects), item, limits.maxPerSubject);
      while |insertionOrder| > limits.maxItems
        invariant insertionOrder != [] && limits.maxItems >= 1 && Counted() && BucketsBounded()
        invariant OnlyAdds(old(subjects), subjects, item)
        invariant Tracks(seenIds, seenOrder, history, limits.maxIds)
        invariant history == old(history) + [id] && accepted == old(accepted) + 1
        invariant evictedPerSubject >= old(evictedPerSubject)
        invariant |longer| <= limits.maxItems + 1
        invariant |insertionOrder| > limits.maxItems || |longer| <= limits.maxItems ==>
                    insertionOrder == longer && subjects == full
        invariant |insertionOrder| <= limits.maxItems < |longer| ==>
                    insertionOrder == longer[1..] && Dropped(full, subjects, longer[0])
        invariant forall k <- subjects :: k in old(subjects) || k == subject
        decreases |insertionOrder|
      {
        ghost var middle := subjects;
        EvictOldest();
        DropsJoin(old(subjects), middle, subjects, item);
      }
    }

    // What the store itself has against an item.
    ghost function Objection(item: Item): Reason
      reads this
    {
      if item.header.id in Fence.LastOf(history, limits.maxIds) then DuplicateMeasurement
      else if item.header.subject !in subjects && |subjects| >= limits.maxSubjects then StoreCapacity
      else NoReason
    }

    method Admit(item: Item) returns (reason: Reason)
      requires Valid()
      modifies this
      ensures Valid() && reason == old(Objection(item))
      ensures reason == NoReason ==>
                && history == old(history) + [item.header.id] && accepted == old(accepted) + 1
                && admitted == old(admitted) + [item] && moments == old(moments) + [Moment(subjects, insertionOrder)]
                && OnlyAdds(old(subjects), subjects, item)
                && InsertedInto(old(subjects), old(insertionOrder), item, limits, subjects, insertionOrder)
      ensures reason != NoReason ==>
                && subjects == old(subjects) && history == old(history) && accepted == old(accepted)
                && evicted == old(evicted) && insertionOrder == old(insertionOrder)
                && admitted == old(admitted) && moments == old(moments)
    {
      hide Balanced, Retained, InsertedInto, OnlyAdds, IsPast, IdsIn, Fence.LastOf, Fence.Windowed;
      if item.header.id in seenIds {
        return DuplicateMeasurement;
      }
      if item.header.subject !in subjects && |subjects| >= limits.maxSubjects {
        return StoreCapacity;
      }
      Insert(item);
      PastGrows(moments, admitted, limits, item, Moment(subjects, insertionOrder));
      IdsStep(old(history), admitted, item);
      admitted := admitted + [item];
      moments := moments + [Moment(subjects, insertionOrder)];
      return NoReason;
    }

    // A live submission.  The sequence is used up at the fence even when the
    // store then refuses the item.
    method Submit(item: Item) returns (reason: Reason)
      requires Valid()
      modifies this, sources
      ensures Valid() && sources.window == old(sources.window)
      ensures var structural := Structural(item, limits.maxNote);
              var h := item.header;
              var (registry, fence) :=
                Fence.ObserveOutcome(old(sources.Value()), h.source, h.epoch, h.sequence, old(sources.window));
              && (structural != NoReason ==> reason == structural && sources.Value() == old(sources.Value()))
              && (structural == NoReason ==> sources.Value() == registry)
              && (structural == NoReason && FenceReason(fence) != NoReason ==> reason == FenceReason(fence))
              && (structural == NoReason && FenceReason(fence) == NoReason ==> reason == old(Objection(item)))
      ensures reason == NoReason ==>
                && history == old(history) + [item.header.id] && accepted == old(accepted) + 1
                && admitted == old(admitted) + [item] && moments == old(moments) + [Moment(subjects, insertionOrder)]
                && OnlyAdds(old(subjects), subjects, item)
                && InsertedInto(old(subjects), old(insertionOrder), item, limits, subjects, insertionOrder)
      ensures reason != NoReason ==>
                && subjects == old(subjects) && history == old(history) && accepted == old(accepted)
                && evicted == old(evicted) && insertionOrder == old(insertionOrder)
                && admitted == old(admitted) && moments == old(moments)
    {
      hide Balanced, Tracks, Retained, InsertedInto, OnlyAdds, IsPast, IdsIn, Validate, Fence.ObserveOutcome,
        Fence.LastOf;
      if |item.header.note| > limits.maxNote {
        return NoteTooLong;
      }
      var structural := Validate(item);
      if structural != NoReason {
        return structural;
      }
      if !Implemented(item.header.method_) {
        return UnsupportedMethod;
      }
      var fence := sources.ObserveSequence(item.header.source, item.header.epoch, item.header.sequence);
      match fence {
        case Replayed => return ReplayedSequence;
        case StaleEpoch => return Reason.StaleEpoch;
        case UnknownSource => return Reason.UnknownSource;
        case NoActiveIncarnation => return UnknownEpoch;
        case Reordered =>
        case Accepted =>
      }
      reason := Admit(item);
    }

    // An item from the journal: not fenced, and marked as recovered whatever it said.
    method Restore(item: Item) returns (reason: Reason)
      requires Valid()
      modifies this
      ensures Valid()
      ensures var marked := item.(header := item.header.(recovered := true));
              && reason == (if |item.header.note| > limits.maxNote then NoteTooLong
                            else if Validate(item) != NoReason then Malformed
                            else old(Objection(item)))
      ensures var marked := item.(header := item.header.(recovered := true));
              reason == NoReason ==>
                && history == old(history) + [item.header.id] && accepted == old(accepted) + 1
                && admitted == old(admitted) + [marked] && moments == old(moments) + [Moment(subjects, insertionOrder)]
                && OnlyAdds(old(subjects), subjects, marked)
                && InsertedInto(old(subjects), old(insertionOrder), marked, limits, subjects, insertionOrder)
      ensures reason != NoReason ==>
                && subjects == old(subjects) && history == old(history) && accepted == old(accepted)
                && evicted == old(evicted) && insertionOrder == old(insertionOrder)
                && admitted == old(admitted) && moments == old(moments)
    {
      hide Balanced, Tracks, Retained, InsertedInto, OnlyAdds, IsPast, IdsIn, Fence.LastOf;
      var marked := item.(header := item.header.(recovered := true));
      if |item.header.note| > limits.maxNote {
        return NoteTooLong;
      }
      if Validate(item) != NoReason {
        return Malformed;
      }
      reason := Admit(marked);
    }

    method Remember(id: U64)
      requires Tracks(seenIds, seenOrder, history, limits.maxIds) && id !in seenIds
      modifies `seenIds, `seenOrder, `history
      ensures Tracks(seenIds, seenOrder, history, limits.maxIds) && history == old(history) + [id]
    {
      hide Tracks;
      TracksStep(seenIds, seenOrder, history, limits.maxIds, id);
      history := history + [id];
      seenIds := seenIds + {id};
      seenOrder := seenOrder + [id];
      if |seenOrder| > limits.maxIds {
        seenIds := seenIds - {seenOrder[0]};
        seenOrder := seenOrder[1..];
      }
    }
  }

  // Once a bucket has overflowed the insertion order no longer lists what is retained.
  lemma {:induction false} OverflowUnlists(m: Buckets, order: seq<U64>, accepted: nat, evicted: nat, perSubject: nat)
    requires Balanced(m, order, accepted, evicted, perSubject) && perSubject > 0
    ensures order != [] ==> Balanced(m, order[1..], accepted, evicted, perSubject)
  {
  }
}
