// Evidence items turned into observations: every report on its own, counter readings
// by series, endpoint reports by group.
module Derivation {
  import opened Bytes
  import opened Evidence
  import opened Observation
  import opened Canonical
  import Counter
  import Derive
  import Pairing
  import Store

  // Which subjects count as declared, and the identities of observations, are given.
  datatype Settings = Settings(
    counter: Counter.Policy, window: int, clockSynchronized: bool, declared: SubjectRef -> bool,
    probeId: U64 -> U64, sequenceId: U64 -> U64, deltaId: (U64, U64) -> U64,
    pairId: Pairing.PairIds, unpairedId: Pairing.OwnIds)

  type Choice = Item -> bool

  // ---- choosing and grouping ---------------------------------------------------------------

  function Only(items: seq<Item>, p: Choice): seq<Item> {
    if items == [] then []
    else
      var front, last := Only(items[..|items| - 1], p), items[|items| - 1];
      if p(last) then front + [last] else front
  }

  lemma {:induction false} OnlyHolds(items: seq<Item>, p: Choice)
    ensures forall x :: x in Only(items, p) <==> x in items && p(x)
  {
    if items != [] {
      var front, last := items[..|items| - 1], items[|items| - 1];
      OnlyHolds(front, p);
      assert items == front + [last];
    }
  }

  lemma {:induction false} OnlyStep(items: seq<Item>, item: Item, p: Choice)
    ensures Only(items + [item], p) == if p(item) then Only(items, p) + [item] else Only(items, p)
  {
    assert (items + [item])[..|items|] == items;
  }

  function InGroup<K(==)>(belongs: Choice, key: Item -> K, k: K): Choice {
    (item: Item) => belongs(item) && key(item) == k
  }

  // The keys of the items that belong, each once, in the order in which they appear.
  function Keys<K(==)>(items: seq<Item>, belongs: Choice, key: Item -> K): seq<K> {
    if items == [] then []
    else
      var front, last := Keys(items[..|items| - 1], belongs, key), items[|items| - 1];
      if belongs(last) && key(last) !in front then front + [key(last)] else front
  }

  lemma {:induction false} KeysHold<K(!new)>(items: seq<Item>, belongs: Choice, key: Item -> K)
    ensures forall k :: k in Keys(items, belongs, key) <==> exists x <- items :: belongs(x) && key(x) == k
  {
    if items != [] {
      var front, last := items[..|items| - 1], items[|items| - 1];
      KeysHold(front, belongs, key);
      assert items == front + [last];
    }
  }

  method GroupBy<K(==, !new)>(items: seq<Item>, belongs: Choice, key: Item -> K)
      returns (keys: seq<K>, groups: map<K, seq<Item>>)
    ensures keys == Keys(items, belongs, key) && forall k :: k in groups <==> k in keys
    ensures forall k <- groups :: groups[k] == Only(items, InGroup(belongs, key, k))
  {
    keys, groups := [], map[];
    for i := 0 to |items|
      invariant keys == Keys(items[..i], belongs, key) && forall k :: k in groups <==> k in keys
      invariant forall k <- groups :: groups[k] == Only(items[..i], InGroup(belongs, key, k))
    {
      var item := items[i];
      assert items[..i + 1] == items[..i] + [item] && items[..i + 1][..i] == items[..i];
      forall k
        ensures Only(items[..i + 1], InGroup(belongs, key, k))
             == if belongs(item) && key(item) == k then Only(items[..i], InGroup(belongs, key, k)) + [item]
                else Only(items[..i], InGroup(belongs, key, k))
      {
        OnlyStep(items[..i], item, InGroup(belongs, key, k));
      }
      if belongs(item) {
        if key(item) !in groups {
          NothingIn(items[..i], belongs, key, key(item));
          var none: seq<Item> := [];
          groups := groups[key(item) := none];
          keys := keys + [key(item)];
        }
        groups := groups[key(item) := groups[key(item)] + [item]];
      }
    }
    assert items[..|items|] == items;
  }

  lemma {:induction false} NothingIn<K(!new)>(items: seq<Item>, belongs: Choice, key: Item -> K, k: K)
    requires k !in Keys(items, belongs, key)
    ensures Only(items, InGroup(belongs, key, k)) == []
  {
    if items != [] {
      NothingIn(items[..|items| - 1], belongs, key, k);
    }
  }

  // ---- reports on their own -----------------------------------------------------------------

  predicate RequiresClocks(m: Method) {
    m == ProbeOneWay
  }

  predicate IsSingle(item: Item) {
    item.payload.ProbeReport? || item.payload.SequenceReport?
  }

  function Single(item: Item, s: Settings): Observation
    requires IsSingle(item)
  {
    if item.payload.ProbeReport? then
      Derive.ProbeApplied(Pairing.Base(item, s.probeId(item.header.id)), item.payload,
                          Store.Implemented(item.header.method_),
                          !RequiresClocks(item.header.method_) || s.clockSynchronized)
    else Derive.SequenceApplied(Pairing.Base(item, s.sequenceId(item.header.id)), item.payload)
  }

  function Singles(items: seq<Item>, s: Settings): seq<Observation> {
    if items == [] then []
    else
      var front, last := Singles(items[..|items| - 1], s), items[|items| - 1];
      if IsSingle(last) then front + [Single(last, s)] else front
  }

  // ---- counter series ----------------------------------------------------------------------------

  datatype SeriesKey = SeriesKey(source: U64, epoch: U64, counter: U64, scope: CounterScope, node: U64, port: U64,
                                 queue: U64, hop: U64, link: U64)

  function IsCounter(): Choice {
    (item: Item) => item.payload.CounterSample?
  }

  function SeriesOf(): Item -> SeriesKey {
    (item: Item) =>
      var h, p := item.header, item.payload;
      if p.CounterSample? then
        SeriesKey(h.source, h.epoch, p.counter, p.scope, p.node, p.port, p.queue, p.hop, p.link)
      else SeriesKey(h.source, h.epoch, 0, UnknownScope, 0, 0, 0, 0, 0)
  }

  predicate EarlierReading(a: Item, b: Item) {
    if a.header.sequence != b.header.sequence then a.header.sequence < b.header.sequence else a.header.id < b.header.id
  }

  function Inserted(item: Item, series: seq<Item>): (t: seq<Item>)
    ensures multiset(t) == multiset(series) + multiset{item}
  {
    if series == [] || !EarlierReading(series[0], item) then [item] + series
    else
      assert series == [series[0]] + series[1..];
      [series[0]] + Inserted(item, series[1..])
  }

  function BySequence(items: seq<Item>): (t: seq<Item>)
    ensures multiset(t) == multiset(items)
  {
    if items == [] then []
    else
      assert items == [items[0]] + items[1..];
      Inserted(items[0], BySequence(items[1..]))
  }

  // The last item with an identity.
  function WithId(items: seq<Item>, id: U64): (r: Option<Item>)
    ensures r.Some? ==> r.value in items && r.value.header.id == id
    ensures r.None? ==> forall item <- items :: item.header.id != id
  {
    if items == [] then None
    else if items[|items| - 1].header.id == id then Some(items[|items| - 1])
    else WithId(items[..|items| - 1], id)
  }

  // The reading a delta starts from; the one it ends at is looked for first.
  function StartOf(series: seq<Item>, delta: Counter.Delta): Option<Item> {
    if delta.fromId == delta.toId then None else WithId(series, delta.fromId)
  }

  function ScopeOf(item: Item): CounterScope {
    if item.payload.CounterSample? then item.payload.scope else UnknownScope
  }

  // The observation of a delta is as recovered as the readings found for its ends.
  function DeltaObservation(end: Item, start: Option<Item>, delta: Counter.Delta, s: Settings): Observation {
    var base := Pairing.Base(end, s.deltaId(delta.fromId, delta.toId)).(semantics := DirectLoss);
    Derive.DeltaApplied(if start.Some? && start.value.header.recovered then base.(recovered := true) else base,
                        delta, ScopeOf(end), s.counter)
  }

  function DeltaObservations(series: seq<Item>, deltas: seq<Counter.Delta>, s: Settings): seq<Observation> {
    if deltas == [] then []
    else
      var front, last := DeltaObservations(series, deltas[..|deltas| - 1], s), deltas[|deltas| - 1];
      match WithId(series, last.toId)
      case None => front
      case Some(end) => front + [DeltaObservation(end, StartOf(series, last), last, s)]
  }

  function SeriesObservations(series: seq<Item>, s: Settings): seq<Observation> {
    DeltaObservations(series, Counter.Deltas(series, s.counter), s)
  }

  function Series(items: seq<Item>, k: SeriesKey): seq<Item> {
    BySequence(Only(items, InGroup(IsCounter(), SeriesOf(), k)))
  }

  function AllSeries(items: seq<Item>, keys: seq<SeriesKey>, s: Settings): seq<Observation> {
    if keys == [] then []
    else
      AllSeries(items, keys[..|keys| - 1], s) + SeriesObservations(Series(items, keys[|keys| - 1]), s)
  }

  // ---- endpoint groups -----------------------------------------------------------------------------

  datatype GroupKey = GroupKey(flow: U64, generation: U64, epoch: U64)

  function IsEndpoint(): Choice {
    (item: Item) => item.payload.EndpointReport?
  }

  function GroupOf(): Item -> GroupKey {
    (item: Item) =>
      var h := item.header;
      GroupKey(if h.subject.kind == Flow then h.subject.id else 0, h.generation, h.epoch)
  }

  function Group(items: seq<Item>, k: GroupKey): (g: seq<Item>)
    ensures forall item <- g :: item in items && item.payload.EndpointReport?
  {
    var chosen := Only(items, InGroup(IsEndpoint(), GroupOf(), k));
    OnlyHolds(items, InGroup(IsEndpoint(), GroupOf(), k));
    SameMembers(CanonicalOrder(chosen), chosen);
    CanonicalOrder(chosen)
  }

  lemma {:induction false} SameMembers<T>(a: seq<T>, b: seq<T>)
    requires multiset(a) == multiset(b)
    ensures forall x :: x in a <==> x in b
  {
    forall x
      ensures x in a <==> x in b
    {
      assert x in multiset(a) <==> x in multiset(b);
    }
  }

  function GroupObservations(group: seq<Item>, s: Settings): seq<Observation> {
    Pairing.OutcomesFit(group, s.window);
    Pairing.Reported(group, Pairing.Outcomes(group, s.window), s.pairId, s.unpairedId)
  }

  function AllGroups(items: seq<Item>, keys: seq<GroupKey>, s: Settings): seq<Observation> {
    if keys == [] then []
    else
      AllGroups(items, keys[..|keys| - 1], s) + GroupObservations(Group(items, keys[|keys| - 1]), s)
  }

  // ---- everything ------------------------------------------------------------------------------------

  function IsDeclared(s: Settings): Choice {
    (item: Item) => s.declared(item.header.subject)
  }

  predicate EarlierObservation(a: Observation, b: Observation) {
    if a.observedAt != b.observedAt then a.observedAt < b.observedAt
    else if a.source != b.source then a.source < b.source
    else if a.subject != b.subject then SubjectLess(a.subject, b.subject)
    else a.id < b.id
  }

  function Filed(o: Observation, s: seq<Observation>): (t: seq<Observation>)
    ensures multiset(t) == multiset(s) + multiset{o}
  {
    if s == [] || !EarlierObservation(s[0], o) then [o] + s
    else
      assert s == [s[0]] + s[1..];
      [s[0]] + Filed(o, s[1..])
  }

  function ByInstant(observations: seq<Observation>): (t: seq<Observation>)
    ensures multiset(t) == multiset(observations)
  {
    if observations == [] then []
    else
      assert observations == [observations[0]] + observations[1..];
      Filed(observations[0], ByInstant(observations[1..]))
  }

  // The items of declared subjects.
  function Kept(items: seq<Item>, s: Settings): seq<Item> {
    Only(CanonicalOrder(items), IsDeclared(s))
  }

  function Unsorted(items: seq<Item>, s: Settings): seq<Observation> {
    var kept := Kept(items, s);
    Singles(kept, s) + AllSeries(kept, Keys(kept, IsCounter(), SeriesOf()), s)
    + AllGroups(kept, Keys(kept, IsEndpoint(), GroupOf()), s)
  }

  function Derived(items: seq<Item>, s: Settings): (observations: seq<Observation>)
    ensures forall o :: o in observations <==> o in Unsorted(items, s)
  {
    SameMembers(ByInstant(Unsorted(items, s)), Unsorted(items, s));
    ByInstant(Unsorted(items, s))
  }

  method DeriveObservations(items: seq<Item>, s: Settings) returns (observations: seq<Observation>)
    ensures observations == Derived(items, s)
  {
    hide CanonicalOrder, Only, Keys, Singles, AllSeries, AllGroups, ByInstant;
    var kept, singles := ExamineItems(CanonicalOrder(items), s);
    var keys, series := GroupBy(kept, IsCounter(), SeriesOf());
    var deltas := ExamineSeries(kept, keys, series, s);
    var groupKeys, groups := GroupBy(kept, IsEndpoint(), GroupOf());
    var comparisons := ExamineGroups(kept, groupKeys, groups, s);
    observations := ByInstant(singles + deltas + comparisons);
  }

  method ExamineItems(items: seq<Item>, s: Settings) returns (kept: seq<Item>, observations: seq<Observation>)
    ensures kept == Only(items, IsDeclared(s)) && observations == Singles(kept, s)
  {
    hide Derive.ProbeApplied, Derive.SequenceApplied, Pairing.Base;
    kept, observations := [], [];
    for i := 0 to |items|
      invariant kept == Only(items[..i], IsDeclared(s)) && observations == Singles(kept, s)
    {
      var item := items[i];
      assert items[..i + 1] == items[..i] + [item];
      OnlyStep(items[..i], item, IsDeclared(s));
      if !s.declared(item.header.subject) {
        continue;
      }
      ghost var before := kept;
      kept := kept + [item];
      assert kept[..|before|] == before;
      if item.payload.ProbeReport? {
        var base := Pairing.Base(item, s.probeId(item.header.id));
        BaseIsValid(item, s.probeId(item.header.id));
        var o := Derive.ApplyProbe(base, item.payload, Store.Implemented(item.header.method_),
                                   !RequiresClocks(item.header.method_) || s.clockSynchronized);
        observations := observations + [o];
      } else if item.payload.SequenceReport? {
        var base := Pairing.Base(item, s.sequenceId(item.header.id));
        BaseIsValid(item, s.sequenceId(item.header.id));
        var o := Derive.ApplySequence(base, item.payload);
        observations := observations + [o];
      }
    }
    assert items[..|items|] == items;
  }

  lemma {:induction false} BaseIsValid(item: Item, id: U64)
    ensures Pairing.Base(item, id).validity == Valid
  {
  }

  method ExamineSeries(items: seq<Item>, keys: seq<SeriesKey>, groups: map<SeriesKey, seq<Item>>, s: Settings)
      returns (observations: seq<Observation>)
    requires forall k <- keys :: k in groups && groups[k] == Only(items, InGroup(IsCounter(), SeriesOf(), k))
    ensures observations == AllSeries(items, keys, s)
  {
    hide BySequence, Only, SeriesObservations;
    observations := [];
    for i := 0 to |keys|
      invariant observations == AllSeries(items, keys[..i], s)
    {
      assert keys[i] in keys;
      assert keys[..i + 1][..i] == keys[..i] && keys[..i + 1][i] == keys[i];
      var more := ExamineDeltas(BySequence(groups[keys[i]]), s);
      observations := observations + more;
    }
    assert keys[..|keys|] == keys;
  }

  method ExamineDeltas(series: seq<Item>, s: Settings) returns (observations: seq<Observation>)
    ensures observations == SeriesObservations(series, s)
  {
    hide WithId, Derive.DeltaApplied, Pairing.Base, Counter.Deltas;
    var deltas := Counter.DeriveCounterDeltas(series, s.counter);
    observations := [];
    for i := 0 to |deltas|
      invariant observations == DeltaObservations(series, deltas[..i], s)
    {
      var delta := deltas[i];
      assert deltas[..i + 1][..i] == deltas[..i] && deltas[..i + 1][i] == delta;
      var end, start := FindEnds(series, delta);
      if end.None? {
        continue;
      }
      var base := Pairing.Base(end.value, s.deltaId(delta.fromId, delta.toId)).(semantics := DirectLoss);
      BaseIsValid(end.value, s.deltaId(delta.fromId, delta.toId));
      if start.Some? && start.value.header.recovered {
        base := base.(recovered := true);
      }
      var o := Derive.ApplyCounterDelta(base, delta, ScopeOf(end.value), s.counter);
      observations := observations + [o];
    }
    assert deltas[..|deltas|] == deltas;
  }

  // The search goes through the whole series, so the last match counts.
  method FindEnds(series: seq<Item>, delta: Counter.Delta) returns (end: Option<Item>, start: Option<Item>)
    ensures end == WithId(series, delta.toId) && start == StartOf(series, delta)
  {
    end, start := None, None;
    for i := 0 to |series|
      invariant end == WithId(series[..i], delta.toId) && start == StartOf(series[..i], delta)
    {
      assert series[..i + 1][..i] == series[..i];
      if series[i].header.id == delta.toId {
        end := Some(series[i]);
      } else if series[i].header.id == delta.fromId {
        start := Some(series[i]);
      }
    }
    assert series[..|series|] == series;
  }

  method ExamineGroups(items: seq<Item>, keys: seq<GroupKey>, groups: map<GroupKey, seq<Item>>, s: Settings)
      returns (observations: seq<Observation>)
    requires forall k <- keys :: k in groups && groups[k] == Only(items, InGroup(IsEndpoint(), GroupOf(), k))
    ensures observations == AllGroups(items, keys, s)
  {
    hide CanonicalOrder, Only, Pairing.Outcomes, Pairing.Reported, Pairing.Described, Pairing.Refers;
    observations := [];
    for i := 0 to |keys|
      invariant observations == AllGroups(items, keys[..i], s)
    {
      assert keys[i] in keys;
      assert keys[..i + 1][..i] == keys[..i] && keys[..i + 1][i] == keys[i];
      var group := CanonicalOrder(groups[keys[i]]);
      assert group == Group(items, keys[i]);
      var more := Pairing.PairReports(group, s.window, s.pairId, s.unpairedId);
      Pairing.DescribedAsReported(group, Pairing.Outcomes(group, s.window), more, s.pairId, s.unpairedId);
      observations := observations + more;
    }
    assert keys[..|keys|] == keys;
  }
}
