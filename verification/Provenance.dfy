// Where observations come from: each is derived from items of the snapshot, no item is
// left out, and which marks of recovery get lost on the way.
module Provenance {
  import opened Bytes
  import opened Evidence
  import opened Observation
  import opened Canonical
  import opened Derivation
  import Counter
  import Derive
  import Pairing

  // What an observation can come from: a report of its own, the one reading of a
  // series, a reading of a series and the one before it, the two reports of a
  // comparison, or a report without a counterpart.
  datatype Origin =
    | Report(item: Item)
    | FirstReading(item: Item)
    | Step(key: SeriesKey, n: nat)
    | Comparison(sender: Item, receiver: Item)
    | Alone(item: Item)

  function Behind(origin: Origin, items: seq<Item>): seq<Item> {
    match origin
    case Report(item) => [item]
    case FirstReading(item) => [item]
    case Step(key, n) =>
      var series := Series(items, key);
      if 1 <= n < |series| then [series[n - 1], series[n]] else []
    case Comparison(sender, receiver) => [sender, receiver]
    case Alone(item) => [item]
  }

  ghost predicate AreReadings(series: seq<Item>) {
    forall item <- series :: item.payload.CounterSample?
  }

  // What looking for the identity of a reading finds: the last reading that has it.
  function Found(series: seq<Item>, i: nat): (item: Item)
    requires i < |series|
    ensures item in series && item.header.id == series[i].header.id
  {
    assert series[i] in series;
    WithId(series, series[i].header.id).value
  }

  // The observation of the step to a reading from the one before it.
  function StepObservation(series: seq<Item>, n: nat, s: Settings): Observation
    requires AreReadings(series) && 1 <= n < |series|
  {
    assert series[n - 1] in series && series[n] in series;
    var delta := Counter.DeltaOf(series[n - 1], series[n], s.counter);
    DeltaObservation(Found(series, n), StartOf(series, delta), delta, s)
  }

  ghost predicate IsFrom(o: Observation, origin: Origin, items: seq<Item>, s: Settings) {
    match origin
    case Report(item) => item in items && IsSingle(item) && o == Single(item, s)
    case FirstReading(item) =>
      && item in items && item.payload.CounterSample?
      && o == DeltaObservation(item, None, Counter.Baseline(item), s)
    case Step(key, n) =>
      var series := Series(items, key);
      1 <= n < |series| && AreReadings(series) && o == StepObservation(series, n, s)
    case Comparison(sender, receiver) =>
      && sender in items && receiver in items
      && Pairing.Compatible(sender, receiver, s.window) && GroupOf()(sender) == GroupOf()(receiver)
      && o == Pairing.Compared(sender, receiver, s.pairId(sender.header.id, receiver.header.id))
    case Alone(item) =>
      && item in items && item.payload.EndpointReport?
      && o == Pairing.Base(item, s.unpairedId(item.header.id)).(validity := Insufficient)
  }

  ghost predicate HasOrigin(o: Observation, items: seq<Item>, s: Settings) {
    exists origin :: IsFrom(o, origin, items, s)
  }

  ghost predicate AllHaveOrigin(observations: seq<Observation>, items: seq<Item>, s: Settings) {
    forall o <- observations :: HasOrigin(o, items, s)
  }

  lemma {:induction false} OriginsJoin(a: seq<Observation>, b: seq<Observation>, items: seq<Item>, s: Settings)
    requires AllHaveOrigin(a, items, s) && AllHaveOrigin(b, items, s)
    ensures AllHaveOrigin(a + b, items, s)
  {
    hide HasOrigin;
  }

  // What is behind an observation is in the snapshot.
  lemma {:induction false} BehindIsThere(o: Observation, origin: Origin, items: seq<Item>, s: Settings)
    requires IsFrom(o, origin, items, s)
    ensures Behind(origin, items) != [] && forall item <- Behind(origin, items) :: item in items
  {
    hide Series, StepObservation, Pairing.Compatible, Pairing.Compared, Single, DeltaObservation;
    if origin.Step? {
      SeriesHolds(items, origin.key);
      var series := Series(items, origin.key);
      assert series[origin.n - 1] in series && series[origin.n] in series;
    }
  }

  lemma {:induction false} DeltaDated(end: Item, start: Option<Item>, delta: Counter.Delta, s: Settings)
    ensures DeltaObservation(end, start, delta, s).observedAt == end.header.observedAt
  {
  }

  lemma {:induction false} SingleDated(item: Item, s: Settings)
    requires IsSingle(item)
    ensures Single(item, s).observedAt == item.header.observedAt
  {
  }

  // Its instant is that of an item of the snapshot.
  lemma {:induction false} DatedByItem(o: Observation, origin: Origin, items: seq<Item>, s: Settings)
    requires IsFrom(o, origin, items, s)
    ensures exists item <- items :: o.observedAt == item.header.observedAt
  {
    hide Series, Pairing.Compatible, WithId, DeltaObservation, Single, Counter.DeltaOf;
    match origin
    case Report(item) =>
      SingleDated(item, s);
    case FirstReading(item) =>
      DeltaDated(item, None, Counter.Baseline(item), s);
    case Step(key, n) =>
      var series := Series(items, key);
      SeriesHolds(items, key);
      assert Found(series, n) in items && series[n - 1] in series && series[n] in series;
      var delta := Counter.DeltaOf(series[n - 1], series[n], s.counter);
      DeltaDated(Found(series, n), StartOf(series, delta), delta, s);
    case Comparison(sender, _) =>
      assert sender in items;
    case Alone(item) =>
      assert item in items;
  }

  // ---- reports on their own ----------------------------------------------------------------

  lemma {:induction false} SinglesHaveOrigin(some: seq<Item>, items: seq<Item>, s: Settings)
    requires forall item <- some :: item in items
    ensures AllHaveOrigin(Singles(some, s), items, s)
  {
    hide Single;
    if some != [] {
      var front, last := some[..|some| - 1], some[|some| - 1];
      SinglesHaveOrigin(front, items, s);
      if IsSingle(last) {
        assert IsFrom(Single(last, s), Report(last), items, s);
        hide HasOrigin;
        OriginsJoin(Singles(front, s), [Single(last, s)], items, s);
      }
    }
  }

  // ---- counter series ------------------------------------------------------------------------

  lemma {:induction false} OneMoreDelta(series: seq<Item>, deltas: seq<Counter.Delta>, delta: Counter.Delta,
                                        s: Settings)
    ensures DeltaObservations(series, deltas + [delta], s)
         == DeltaObservations(series, deltas, s)
            + (match WithId(series, delta.toId)
               case None => []
               case Some(end) => [DeltaObservation(end, StartOf(series, delta), delta, s)])
  {
    hide DeltaObservation, WithId;
    assert (deltas + [delta])[..|deltas|] == deltas;
  }

  lemma {:induction false} DeltaIds(a: Item, b: Item, policy: Counter.Policy)
    requires a.payload.CounterSample? && b.payload.CounterSample?
    ensures Counter.DeltaOf(a, b, policy).fromId == a.header.id && Counter.DeltaOf(a, b, policy).toId == b.header.id
  {
  }

  // One observation for each step, in order, whatever identities the readings carry.
  lemma {:induction false} StepsInOrder(series: seq<Item>, n: nat, s: Settings)
    requires AreReadings(series) && 1 <= n <= |series|
    ensures var steps := DeltaObservations(series, Counter.Pairwise(series[..n], s.counter), s);
            && |steps| == n - 1
            && forall i :: 0 <= i < n - 1 ==> steps[i] == StepObservation(series, i + 1, s)
  {
    hide DeltaObservation, WithId, Counter.DeltaOf;
    if n >= 2 {
      StepsInOrder(series, n - 1, s);
      var a, b := series[n - 2], series[n - 1];
      assert a in series && b in series;
      var front, delta := Counter.Pairwise(series[..n - 1], s.counter), Counter.DeltaOf(a, b, s.counter);
      assert series[..n][..n - 1] == series[..n - 1];
      assert Counter.Pairwise(series[..n], s.counter) == front + [delta];
      DeltaIds(a, b, s.counter);
      OneMoreDelta(series, front, delta, s);
    }
  }

  lemma {:induction false} SeriesInOrder(series: seq<Item>, s: Settings)
    requires AreReadings(series)
    ensures var steps := SeriesObservations(series, s);
            if |series| == 1 then steps == [DeltaObservation(series[0], None, Counter.Baseline(series[0]), s)]
            else |steps| == (if series == [] then 0 else |series| - 1)
                 && forall i :: 0 <= i < |steps| ==> steps[i] == StepObservation(series, i + 1, s)
  {
    hide DeltaObservation, Counter.DeltaOf;
    if |series| == 1 {
      OneMoreDelta(series, [], Counter.Baseline(series[0]), s);
      assert [] + [Counter.Baseline(series[0])] == [Counter.Baseline(series[0])];
    } else if series != [] {
      hide WithId;
      StepsInOrder(series, |series|, s);
      assert series[..|series|] == series;
    }
  }

  lemma {:induction false} SeriesHolds(items: seq<Item>, k: SeriesKey)
    ensures AreReadings(Series(items, k))
    ensures forall item :: item in Series(items, k)
                      <==> item in items && item.payload.CounterSample? && SeriesOf()(item) == k
    ensures DistinctIds(items) ==> DistinctIds(Series(items, k))
  {
    hide BySequence, Only, DistinctIds;
    var chosen := Only(items, InGroup(IsCounter(), SeriesOf(), k));
    OnlyHolds(items, InGroup(IsCounter(), SeriesOf(), k));
    SameMembers(BySequence(chosen), chosen);
    if DistinctIds(items) {
      OnlyDistinct(items, InGroup(IsCounter(), SeriesOf(), k));
      IdsStayDistinct(chosen, BySequence(chosen));
    }
  }

  lemma {:induction false} OnlyDistinct(items: seq<Item>, p: Choice)
    requires DistinctIds(items)
    ensures DistinctIds(Only(items, p))
  {
    if items != [] {
      var front, last := items[..|items| - 1], items[|items| - 1];
      OnlyDistinct(front, p);
      OnlyHolds(front, p);
      forall x <- Only(front, p)
        ensures x.header.id != last.header.id
      {
        assert x in front;
      }
    }
  }

  // Each delta of a series comes from two neighbours, or from the only reading.
  lemma {:induction false} SeriesHasOrigin(items: seq<Item>, k: SeriesKey, s: Settings)
    ensures AllHaveOrigin(SeriesObservations(Series(items, k), s), items, s)
  {
    hide DeltaObservation, StepObservation, SeriesObservations, Series;
    var series := Series(items, k);
    var steps := SeriesObservations(series, s);
    SeriesHolds(items, k);
    SeriesInOrder(series, s);
    forall o <- steps
      ensures HasOrigin(o, items, s)
    {
      var i :| 0 <= i < |steps| && steps[i] == o;
      if |series| == 1 {
        assert series[0] in series;
        assert IsFrom(o, FirstReading(series[0]), items, s);
      } else {
        assert IsFrom(o, Step(k, i + 1), items, s);
      }
    }
  }

  lemma {:induction false} AllSeriesHaveOrigin(items: seq<Item>, keys: seq<SeriesKey>, s: Settings)
    ensures AllHaveOrigin(AllSeries(items, keys, s), items, s)
  {
    hide Series, SeriesObservations, HasOrigin;
    if keys != [] {
      var front, last := keys[..|keys| - 1], keys[|keys| - 1];
      AllSeriesHaveOrigin(items, front, s);
      SeriesHasOrigin(items, last, s);
      OriginsJoin(AllSeries(items, front, s), SeriesObservations(Series(items, last), s), items, s);
    }
  }

  // ---- endpoint groups ----------------------------------------------------------------------------

  lemma {:induction false} OutcomeHasOrigin(group: seq<Item>, outcome: Pairing.Outcome, k: GroupKey, items: seq<Item>,
                                            s: Settings)
    requires forall item <- group :: item in items && InGroup(IsEndpoint(), GroupOf(), k)(item)
    requires Pairing.Refers(outcome, group)
    requires outcome.Paired? ==> Pairing.Compatible(group[outcome.sender], group[outcome.receiver], s.window)
    ensures HasOrigin(Pairing.Observed(group, outcome, s.pairId, s.unpairedId), items, s)
  {
    hide Pairing.Compatible, Pairing.Compared, Pairing.Base;
    var o := Pairing.Observed(group, outcome, s.pairId, s.unpairedId);
    match outcome
    case Paired(i, j) =>
      assert group[i] in group && group[j] in group;
      assert IsFrom(o, Comparison(group[i], group[j]), items, s);
    case Unpaired(i) =>
      assert group[i] in group;
      assert IsFrom(o, Alone(group[i]), items, s);
  }

  lemma {:induction false} ReportedHaveOrigin(group: seq<Item>, outcomes: seq<Pairing.Outcome>, k: GroupKey,
                                              items: seq<Item>, s: Settings)
    requires forall item <- group :: item in items && InGroup(IsEndpoint(), GroupOf(), k)(item)
    requires Pairing.PairsFit(group, outcomes, s.window)
    ensures AllHaveOrigin(Pairing.Reported(group, outcomes, s.pairId, s.unpairedId), items, s)
  {
    hide Pairing.Compatible, Pairing.Refers, Pairing.Observed, HasOrigin;
    if outcomes != [] {
      var front, last := outcomes[..|outcomes| - 1], outcomes[|outcomes| - 1];
      assert last in outcomes;
      ReportedHaveOrigin(group, front, k, items, s);
      OutcomeHasOrigin(group, last, k, items, s);
    }
  }

  lemma {:induction false} GroupHolds(items: seq<Item>, k: GroupKey)
    ensures forall item <- Group(items, k) :: item in items && InGroup(IsEndpoint(), GroupOf(), k)(item)
  {
    hide CanonicalOrder, Only;
    var chosen := Only(items, InGroup(IsEndpoint(), GroupOf(), k));
    OnlyHolds(items, InGroup(IsEndpoint(), GroupOf(), k));
    SameMembers(CanonicalOrder(chosen), chosen);
  }

  lemma {:induction false} AllGroupsHaveOrigin(items: seq<Item>, keys: seq<GroupKey>, s: Settings)
    ensures AllHaveOrigin(AllGroups(items, keys, s), items, s)
  {
    hide Group, HasOrigin, Pairing.PairsFit, Pairing.Reported, Pairing.UsedSomewhere;
    if keys != [] {
      var front, last := keys[..|keys| - 1], keys[|keys| - 1];
      var group := Group(items, last);
      AllGroupsHaveOrigin(items, front, s);
      GroupHolds(items, last);
      Pairing.OutcomesFit(group, s.window);
      ReportedHaveOrigin(group, Pairing.Outcomes(group, s.window), last, items, s);
      OriginsJoin(AllGroups(items, front, s), GroupObservations(group, s), items, s);
    }
  }

  // ---- everything ----------------------------------------------------------------------------------

  lemma {:induction false} KeptHolds(items: seq<Item>, s: Settings)
    ensures forall item :: item in Kept(items, s) <==> item in items && s.declared(item.header.subject)
    ensures DistinctIds(items) ==> DistinctIds(Kept(items, s))
  {
    hide CanonicalOrder, Only, DistinctIds;
    var ordered := CanonicalOrder(items);
    OnlyHolds(ordered, IsDeclared(s));
    SameMembers(items, ordered);
    if DistinctIds(items) {
      IdsStayDistinct(items, ordered);
      OnlyDistinct(ordered, IsDeclared(s));
    }
  }

  // Every observation of a derivation comes from items of declared subjects.
  lemma {:induction false} EveryObservationHasOrigin(items: seq<Item>, s: Settings)
    ensures forall o <- Derived(items, s) ::
              exists origin ::
                && IsFrom(o, origin, Kept(items, s), s) && Behind(origin, Kept(items, s)) != []
                && forall item <- Behind(origin, Kept(items, s)) :: item in items && s.declared(item.header.subject)
  {
    hide Kept, ByInstant, Keys, Singles, AllSeries, AllGroups, IsFrom, Behind;
    var kept := Kept(items, s);
    KeptHolds(items, s);
    SinglesHaveOrigin(kept, kept, s);
    AllSeriesHaveOrigin(kept, Keys(kept, IsCounter(), SeriesOf()), s);
    AllGroupsHaveOrigin(kept, Keys(kept, IsEndpoint(), GroupOf()), s);
    forall o <- Derived(items, s)
      ensures exists origin ::
                && IsFrom(o, origin, kept, s) && Behind(origin, kept) != []
                && forall item <- Behind(origin, kept) :: item in items && s.declared(item.header.subject)
    {
      assert HasOrigin(o, kept, s);
      var origin :| IsFrom(o, origin, kept, s);
      BehindIsThere(o, origin, kept, s);
    }
  }

  // ---- nothing is dropped ---------------------------------------------------------------------------

  ghost predicate Covers(observations: seq<Observation>, item: Item, items: seq<Item>, s: Settings) {
    exists o <- observations, origin :: IsFrom(o, origin, items, s) && item in Behind(origin, items)
  }

  lemma {:induction false} CoversJoin(a: seq<Observation>, b: seq<Observation>, item: Item, items: seq<Item>,
                                      s: Settings)
    ensures Covers(a + b, item, items, s) <==> Covers(a, item, items, s) || Covers(b, item, items, s)
  {
    hide IsFrom, Behind;
    assert forall o :: o in a + b <==> o in a || o in b;
  }

  lemma {:induction false} CoversOne(o: Observation, origin: Origin, item: Item, items: seq<Item>, s: Settings)
    requires IsFrom(o, origin, items, s) && item in Behind(origin, items)
    ensures Covers([o], item, items, s)
  {
    hide IsFrom, Behind;
    assert o in [o];
  }

  lemma {:induction false} SinglesCover(some: seq<Item>, item: Item, items: seq<Item>, s: Settings)
    requires item in some && IsSingle(item) && item in items
    ensures Covers(Singles(some, s), item, items, s)
  {
    hide Covers, Single;
    var front, last := some[..|some| - 1], some[|some| - 1];
    assert some == front + [last];
    if item == last {
      CoversOne(Single(last, s), Report(last), last, items, s);
      CoversJoin(Singles(front, s), [Single(last, s)], item, items, s);
    } else {
      SinglesCover(front, item, items, s);
      if IsSingle(last) {
        CoversJoin(Singles(front, s), [Single(last, s)], item, items, s);
      }
    }
  }

  lemma {:induction false} SeriesCovers(items: seq<Item>, k: SeriesKey, i: nat, s: Settings)
    requires i < |Series(items, k)|
    ensures Covers(SeriesObservations(Series(items, k), s), Series(items, k)[i], items, s)
  {
    hide DeltaObservation, StepObservation, SeriesObservations, Series;
    var series := Series(items, k);
    var steps := SeriesObservations(series, s);
    SeriesHolds(items, k);
    SeriesInOrder(series, s);
    if |series| == 1 {
      assert series[0] in series;
      assert IsFrom(steps[0], FirstReading(series[0]), items, s);
      assert series[i] in Behind(FirstReading(series[0]), items) && steps[0] in steps;
    } else {
      var n := if i == 0 then 1 else i;
      assert IsFrom(steps[n - 1], Step(k, n), items, s);
      assert series[i] in Behind(Step(k, n), items) && steps[n - 1] in steps;
    }
  }

  lemma {:induction false} AllSeriesCover(items: seq<Item>, keys: seq<SeriesKey>, item: Item, s: Settings)
    requires item in items && item.payload.CounterSample? && SeriesOf()(item) in keys
    ensures Covers(AllSeries(items, keys, s), item, items, s)
  {
    hide SeriesObservations, Series, Covers;
    var front, last := keys[..|keys| - 1], keys[|keys| - 1];
    assert keys == front + [last];
    var series := Series(items, last);
    CoversJoin(AllSeries(items, front, s), SeriesObservations(series, s), item, items, s);
    if SeriesOf()(item) == last {
      SeriesHolds(items, last);
      var i :| 0 <= i < |series| && series[i] == item;
      SeriesCovers(items, last, i, s);
    } else {
      AllSeriesCover(items, front, item, s);
    }
  }

  lemma {:induction false} ReportedCover(group: seq<Item>, outcomes: seq<Pairing.Outcome>, i: nat, k: GroupKey,
                                         items: seq<Item>, s: Settings)
    requires forall item <- group :: item in items && InGroup(IsEndpoint(), GroupOf(), k)(item)
    requires Pairing.PairsFit(group, outcomes, s.window) && Pairing.UsedSomewhere(outcomes, i) && i < |group|
    ensures Covers(Pairing.Reported(group, outcomes, s.pairId, s.unpairedId), group[i], items, s)
  {
    hide Pairing.Compatible, Pairing.Refers, Pairing.Observed, Covers;
    var front, last := outcomes[..|outcomes| - 1], outcomes[|outcomes| - 1];
    assert outcomes == front + [last];
    var o := Pairing.Observed(group, last, s.pairId, s.unpairedId);
    CoversJoin(Pairing.Reported(group, front, s.pairId, s.unpairedId), [o], group[i], items, s);
    if Pairing.Uses(last, i) {
      OutcomeCovers(group, last, i, k, items, s);
    } else {
      ReportedCover(group, front, i, k, items, s);
    }
  }

  lemma {:induction false} OutcomeCovers(group: seq<Item>, outcome: Pairing.Outcome, i: nat, k: GroupKey,
                                         items: seq<Item>, s: Settings)
    requires forall item <- group :: item in items && InGroup(IsEndpoint(), GroupOf(), k)(item)
    requires Pairing.Refers(outcome, group) && Pairing.Uses(outcome, i) && i < |group|
    requires outcome.Paired? ==> Pairing.Compatible(group[outcome.sender], group[outcome.receiver], s.window)
    ensures Covers([Pairing.Observed(group, outcome, s.pairId, s.unpairedId)], group[i], items, s)
  {
    hide Pairing.Compatible, Pairing.Compared, Pairing.Base, Covers;
    var o := Pairing.Observed(group, outcome, s.pairId, s.unpairedId);
    match outcome
    case Paired(a, b) =>
      assert group[a] in group && group[b] in group;
      assert group[i] in Behind(Comparison(group[a], group[b]), items);
      CoversOne(o, Comparison(group[a], group[b]), group[i], items, s);
    case Unpaired(_) =>
      assert group[i] in group;
      CoversOne(o, Alone(group[i]), group[i], items, s);
  }

  lemma {:induction false} AllGroupsCover(items: seq<Item>, keys: seq<GroupKey>, item: Item, s: Settings)
    requires item in items && item.payload.EndpointReport? && GroupOf()(item) in keys
    ensures Covers(AllGroups(items, keys, s), item, items, s)
  {
    hide CanonicalOrder, Only, Covers, Pairing.PairsFit, Pairing.Reported, Pairing.UsedSomewhere;
    var front, last := keys[..|keys| - 1], keys[|keys| - 1];
    assert keys == front + [last];
    var group := Group(items, last);
    CoversJoin(AllGroups(items, front, s), GroupObservations(group, s), item, items, s);
    if GroupOf()(item) == last {
      GroupHolds(items, last);
      OnlyHolds(items, InGroup(IsEndpoint(), GroupOf(), last));
      SameMembers(group, Only(items, InGroup(IsEndpoint(), GroupOf(), last)));
      var i :| 0 <= i < |group| && group[i] == item;
      Pairing.OutcomesFit(group, s.window);
      ReportedCover(group, Pairing.Outcomes(group, s.window), i, last, items, s);
    } else {
      AllGroupsCover(items, front, item, s);
    }
  }

  // Every item of a declared subject is behind some observation.
  lemma {:induction false} NothingIsDropped(items: seq<Item>, item: Item, s: Settings)
    requires item in items && s.declared(item.header.subject)
    ensures exists o <- Derived(items, s), origin ::
              IsFrom(o, origin, Kept(items, s), s) && item in Behind(origin, Kept(items, s))
  {
    hide Kept, ByInstant, Keys, Singles, AllSeries, AllGroups, Covers;
    var kept := Kept(items, s);
    KeptHolds(items, s);
    var keys, groups := Keys(kept, IsCounter(), SeriesOf()), Keys(kept, IsEndpoint(), GroupOf());
    KeysHold(kept, IsCounter(), SeriesOf());
    KeysHold(kept, IsEndpoint(), GroupOf());
    var singles, deltas, pairs := Singles(kept, s), AllSeries(kept, keys, s), AllGroups(kept, groups, s);
    CoversJoin(singles, deltas, item, kept, s);
    CoversJoin(singles + deltas, pairs, item, kept, s);
    if IsSingle(item) {
      SinglesCover(kept, item, kept, s);
    } else if item.payload.CounterSample? {
      AllSeriesCover(kept, keys, item, s);
    } else {
      AllGroupsCover(kept, groups, item, s);
    }
    assert Covers(Unsorted(items, s), item, kept, s);
    CoverFound(Unsorted(items, s), item, kept, s);
  }

  lemma {:induction false} CoverFound(observations: seq<Observation>, item: Item, items: seq<Item>, s: Settings)
    requires Covers(observations, item, items, s)
    ensures exists o <- observations, origin :: IsFrom(o, origin, items, s) && item in Behind(origin, items)
  {
    hide IsFrom, Behind;
  }

  // ---- marks of recovery -----------------------------------------------------------------------------

  ghost predicate AnyRecovered(items: seq<Item>) {
    exists item <- items :: item.header.recovered
  }

  // What the observation of a step is marked from: the reading found for its end, and
  // the one found for its start if that has another identity.
  predicate FoundRecovered(series: seq<Item>, n: nat)
    requires 1 <= n < |series|
  {
    || Found(series, n).header.recovered
    || (series[n - 1].header.id != series[n].header.id && Found(series, n - 1).header.recovered)
  }

  predicate StepRecovered(series: seq<Item>, n: nat)
    requires 1 <= n < |series|
  {
    series[n - 1].header.recovered || series[n].header.recovered
  }

  // Every step is marked as its readings are.
  ghost predicate MarksKept(series: seq<Item>) {
    forall n :: 1 <= n < |series| ==> (FoundRecovered(series, n) <==> StepRecovered(series, n))
  }

  // No step with a recovered reading goes unmarked.
  ghost predicate NoMarkLost(series: seq<Item>) {
    forall n :: 1 <= n < |series| && StepRecovered(series, n) ==> FoundRecovered(series, n)
  }

  lemma {:induction false} DeltaMark(end: Item, start: Option<Item>, delta: Counter.Delta, s: Settings)
    ensures DeltaObservation(end, start, delta, s).recovered
       <==> end.header.recovered || (start.Some? && start.value.header.recovered)
  {
  }

  lemma {:induction false} StepMark(series: seq<Item>, n: nat, s: Settings)
    requires AreReadings(series) && 1 <= n < |series|
    ensures StepObservation(series, n, s).recovered <==> FoundRecovered(series, n)
  {
    hide DeltaObservation, WithId, Counter.DeltaOf;
    assert series[n - 1] in series && series[n] in series;
    var delta := Counter.DeltaOf(series[n - 1], series[n], s.counter);
    DeltaIds(series[n - 1], series[n], s.counter);
    DeltaMark(Found(series, n), StartOf(series, delta), delta, s);
  }

  // A series of any length: there is one observation for each step, and all of them are
  // marked as their readings are if and only if what is found for the readings is.
  lemma {:induction false} SeriesMarkedExactly(series: seq<Item>, s: Settings)
    requires AreReadings(series) && |series| >= 2
    ensures var steps := SeriesObservations(series, s);
            && |steps| == |series| - 1
            && (forall i :: 0 <= i < |steps| ==> (steps[i].recovered <==> FoundRecovered(series, i + 1)))
            && ((forall i :: 0 <= i < |steps| ==> (steps[i].recovered <==> StepRecovered(series, i + 1)))
                <==> MarksKept(series))
            && ((forall i :: 0 <= i < |steps| && StepRecovered(series, i + 1) ==> steps[i].recovered)
                <==> NoMarkLost(series))
  {
    hide SeriesObservations, StepObservation, FoundRecovered, StepRecovered;
    var steps := SeriesObservations(series, s);
    SeriesInOrder(series, s);
    forall i | 0 <= i < |steps|
      ensures steps[i].recovered <==> FoundRecovered(series, i + 1)
    {
      StepMark(series, i + 1, s);
    }
    MarksShift(series, steps);
  }

  lemma {:induction false} MarksShift(series: seq<Item>, steps: seq<Observation>)
    requires |steps| + 1 == |series|
    requires forall i :: 0 <= i < |steps| ==> (steps[i].recovered <==> FoundRecovered(series, i + 1))
    ensures (forall i :: 0 <= i < |steps| ==> (steps[i].recovered <==> StepRecovered(series, i + 1)))
       <==> MarksKept(series)
    ensures (forall i :: 0 <= i < |steps| && StepRecovered(series, i + 1) ==> steps[i].recovered)
       <==> NoMarkLost(series)
  {
    hide FoundRecovered, StepRecovered;
    forall n | 1 <= n < |series|
      ensures steps[n - 1].recovered <==> FoundRecovered(series, n)
    {
      assert FoundRecovered(series, n - 1 + 1) <==> steps[n - 1].recovered;
    }
  }

  // The mark of an observation is that of the items behind it, save for a step, which
  // has that of the readings found for them.
  lemma {:induction false} OriginDecides(o: Observation, origin: Origin, items: seq<Item>, s: Settings)
    requires IsFrom(o, origin, items, s)
    ensures origin.Step? ==> (o.recovered <==> FoundRecovered(Series(items, origin.key), origin.n))
    ensures origin.Step? ==>
              (AnyRecovered(Behind(origin, items)) <==> StepRecovered(Series(items, origin.key), origin.n))
    ensures !origin.Step? ==> (o.recovered <==> AnyRecovered(Behind(origin, items)))
  {
    hide Series, FoundRecovered, StepObservation, Pairing.Compatible, DeltaObservation;
    match origin
    case Step(key, n) =>
      var series := Series(items, key);
      StepMark(series, n, s);
      assert series[n - 1] in Behind(origin, items) && series[n] in Behind(origin, items);
    case Comparison(sender, receiver) =>
      assert sender in Behind(origin, items) && receiver in Behind(origin, items);
    case FirstReading(item) =>
      DeltaMark(item, None, Counter.Baseline(item), s);
      assert item in Behind(origin, items);
    case _ =>
      assert origin.item in Behind(origin, items);
  }

  // A step of a series of the snapshot is among the observations.
  lemma {:induction false} StepIsDerived(items: seq<Item>, k: SeriesKey, n: nat, s: Settings)
    requires 1 <= n < |Series(Kept(items, s), k)|
    ensures AreReadings(Series(Kept(items, s), k))
    ensures StepObservation(Series(Kept(items, s), k), n, s) in Derived(items, s)
    ensures IsFrom(StepObservation(Series(Kept(items, s), k), n, s), Step(k, n), Kept(items, s), s)
  {
    hide Kept, ByInstant, Keys, Singles, AllSeries, AllGroups, Series, StepObservation, SeriesObservations;
    var kept := Kept(items, s);
    var series, keys := Series(kept, k), Keys(kept, IsCounter(), SeriesOf());
    SeriesHolds(kept, k);
    SeriesInOrder(series, s);
    KeysHold(kept, IsCounter(), SeriesOf());
    assert series[n] in series;
    assert SeriesObservations(series, s)[n - 1] == StepObservation(series, n, s);
    AmongAllSeries(kept, keys, k, StepObservation(series, n, s), s);
    assert StepObservation(series, n, s) in Unsorted(items, s);
  }

  lemma {:induction false} AmongAllSeries(items: seq<Item>, keys: seq<SeriesKey>, k: SeriesKey, o: Observation,
                                          s: Settings)
    requires k in keys && o in SeriesObservations(Series(items, k), s)
    ensures o in AllSeries(items, keys, s)
  {
    hide Series, SeriesObservations;
    var front, last := keys[..|keys| - 1], keys[|keys| - 1];
    assert keys == front + [last];
    if k != last {
      AmongAllSeries(items, front, k, o, s);
    }
  }

  ghost predicate AllMarked(items: seq<Item>, s: Settings) {
    forall o <- Derived(items, s), origin :: IsFrom(o, origin, Kept(items, s), s) ==>
      (o.recovered <==> AnyRecovered(Behind(origin, Kept(items, s))))
  }

  // Nothing that comes from a recovered item, even in part, reads as current.
  ghost predicate HistoryMarked(items: seq<Item>, s: Settings) {
    forall o <- Derived(items, s), origin :: IsFrom(o, origin, Kept(items, s), s) ==>
      AnyRecovered(Behind(origin, Kept(items, s))) ==> o.recovered
  }

  // Over a whole snapshot: every observation is marked as the items behind it are if and
  // only if every series keeps its marks, and none reads as current that comes from
  // history if and only if no series loses one.
  lemma {:induction false} MarkedExactly(items: seq<Item>, s: Settings)
    ensures AllMarked(items, s) <==> forall k: SeriesKey :: MarksKept(Series(Kept(items, s), k))
    ensures HistoryMarked(items, s) <==> forall k: SeriesKey :: NoMarkLost(Series(Kept(items, s), k))
  {
    hide Kept, Derived, IsFrom, Behind, AnyRecovered, Series, FoundRecovered, StepRecovered, StepObservation;
    var kept := Kept(items, s);
    forall k: SeriesKey, n: nat | 1 <= n < |Series(kept, k)|
      ensures AllMarked(items, s) ==> (FoundRecovered(Series(kept, k), n) <==> StepRecovered(Series(kept, k), n))
      ensures HistoryMarked(items, s) && StepRecovered(Series(kept, k), n) ==> FoundRecovered(Series(kept, k), n)
    {
      StepIsDerived(items, k, n, s);
      OriginDecides(StepObservation(Series(kept, k), n, s), Step(k, n), kept, s);
    }
    forall o <- Derived(items, s), origin | IsFrom(o, origin, kept, s)
      ensures (forall k: SeriesKey :: MarksKept(Series(kept, k))) ==>
                (o.recovered <==> AnyRecovered(Behind(origin, kept)))
      ensures (forall k: SeriesKey :: NoMarkLost(Series(kept, k))) && AnyRecovered(Behind(origin, kept)) ==> o.recovered
    {
      OriginDecides(o, origin, kept, s);
      StepIsThere(o, origin, kept, s);
    }
  }

  lemma {:induction false} StepIsThere(o: Observation, origin: Origin, items: seq<Item>, s: Settings)
    requires IsFrom(o, origin, items, s)
    ensures origin.Step? ==> 1 <= origin.n < |Series(items, origin.key)|
  {
    hide Series, StepObservation, Single, DeltaObservation, Pairing.Compared;
  }

  // ---- identities --------------------------------------------------------------------------------------

  // With distinct identities every reading is found under its own.
  lemma {:induction false} FoundById(series: seq<Item>, k: nat)
    requires DistinctIds(series) && k < |series|
    ensures WithId(series, series[k].header.id) == Some(series[k])
  {
    var last := |series| - 1;
    if k < last {
      FoundById(series[..last], k);
    }
  }

  // So a snapshot whose items have distinct identities keeps all its marks.
  lemma {:induction false} DistinctKeepsMarks(items: seq<Item>, s: Settings)
    requires DistinctIds(items)
    ensures AllMarked(items, s) && HistoryMarked(items, s)
  {
    hide Kept, DistinctIds, Series, WithId, AllMarked, HistoryMarked;
    MarkedExactly(items, s);
    KeptHolds(items, s);
    forall k: SeriesKey
      ensures MarksKept(Series(Kept(items, s), k)) && NoMarkLost(Series(Kept(items, s), k))
    {
      SeriesHolds(Kept(items, s), k);
      DistinctSeries(Series(Kept(items, s), k));
    }
  }

  lemma {:induction false} DistinctSeries(series: seq<Item>)
    requires DistinctIds(series)
    ensures MarksKept(series) && NoMarkLost(series)
  {
    hide WithId;
    forall n | 1 <= n < |series|
      ensures FoundRecovered(series, n) <==> StepRecovered(series, n)
    {
      FoundById(series, n - 1);
      FoundById(series, n);
    }
  }

  // Where two readings share their identity the later one is found for both.  For a
  // series of two the step is marked as it should be if and only if the identities
  // differ or there is no mark to lose; with a recovered first reading and a live second
  // one of the same identity it reads as current.
  lemma {:induction false} SharedIdentityHidesHistory(a: Item, b: Item, s: Settings)
    requires a.payload.CounterSample? && b.payload.CounterSample?
    ensures var steps := SeriesObservations([a, b], s);
            && |steps| == 1
            && ((steps[0].recovered <==> a.header.recovered || b.header.recovered)
                <==> a.header.id != b.header.id || (a.header.recovered ==> b.header.recovered))
    ensures a.header.id == b.header.id && a.header.recovered && !b.header.recovered ==> !NoMarkLost([a, b])
  {
    hide SeriesObservations;
    LastFound(a, b);
    SeriesMarkedExactly([a, b], s);
    assert FoundRecovered([a, b], 0 + 1) <==> SeriesObservations([a, b], s)[0].recovered;
    assert StepRecovered([a, b], 1) <==> a.header.recovered || b.header.recovered;
  }

  lemma {:induction false} LastFound(a: Item, b: Item)
    ensures WithId([a, b], b.header.id) == Some(b)
    ensures a.header.id != b.header.id ==> WithId([a, b], a.header.id) == Some(a)
  {
    assert [a, b][..1] == [a];
    assert [a][..0] == [];
  }

  // ---- recovered evidence alone ------------------------------------------------------------------------

  // Nothing derived from recovered items alone is current, whatever their identities.
  lemma {:induction false} RecoveredStaysRecovered(items: seq<Item>, s: Settings)
    requires forall item <- items :: item.header.recovered
    ensures forall o <- Derived(items, s) :: o.recovered
  {
    hide Kept, Derived, IsFrom, Behind, Series, FoundRecovered;
    var kept := Kept(items, s);
    EveryObservationHasOrigin(items, s);
    KeptHolds(items, s);
    forall o <- Derived(items, s)
      ensures o.recovered
    {
      var origin :| IsFrom(o, origin, kept, s) && Behind(origin, kept) != []
                    && forall item <- Behind(origin, kept) :: item in items && s.declared(item.header.subject);
      assert Behind(origin, kept)[0] in Behind(origin, kept);
      OriginDecides(o, origin, kept, s);
      StepIsThere(o, origin, kept, s);
      if origin.Step? {
        SeriesHolds(kept, origin.key);
        FoundIsRecovered(Series(kept, origin.key), origin.n);
      }
    }
  }

  lemma {:induction false} FoundIsRecovered(series: seq<Item>, n: nat)
    requires 1 <= n < |series| && forall item <- series :: item.header.recovered
    ensures FoundRecovered(series, n)
  {
    hide WithId;
  }
}
