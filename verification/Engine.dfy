// The engine around its registries: evidence is told to the generation registry and
// submitted to the store, and a subject is classified from a snapshot.
module Engine {
  import opened Bytes
  import opened Evidence
  import opened Observation
  import opened Store
  import opened Canonical
  import opened Snapshot
  import opened Confluence
  import Classify
  import Derivation
  import Fence
  import Freshness
  import Generation
  import Localize

  // ---- declared topology ------------------------------------------------------------------

  datatype Route = Route(revision: U64, hops: seq<Localize.PathHop>)

  datatype Topology = Topology(flows: map<U64, Freshness.FlowBinding>, paths: map<U64, Route>, links: set<U64>,
                               queues: map<U64, (U64, U64)>)

  predicate Declares(t: Topology, subject: SubjectRef) {
    match subject.kind
    case Flow => subject.id in t.flows
    case Path => subject.id in t.paths
    case Hop => exists p <- t.paths, hop <- t.paths[p].hops :: hop.id == subject.id
    case Link => subject.id in t.links
    case Queue => subject.id in t.queues
    case Source => true
    case UnknownSubject => true
  }

  // Whether evidence about a hop, a link or a queue is evidence about a hop of a path.
  predicate Touches(hop: Localize.PathHop, subject: SubjectRef, t: Topology) {
    match subject.kind
    case Hop => hop.id == subject.id
    case Link => hop.ingressLink == subject.id || hop.egressLink == subject.id
    case Queue =>
      && subject.id in t.queues && t.queues[subject.id].0 == hop.node
      && (t.queues[subject.id].1 == hop.egressPort || t.queues[subject.id].1 == hop.ingressPort)
    case _ => false
  }

  function HopsOf(t: Topology, path: U64): seq<Localize.PathHop> {
    if path in t.paths then t.paths[path].hops else []
  }

  predicate RunsOver(flow: U64, subject: SubjectRef, t: Topology) {
    flow in t.flows && exists hop <- HopsOf(t, t.flows[flow].path) :: Touches(hop, subject, t)
  }

  // The flows whose generations an item is evidence of: its own, or every declared one
  // whose path it is about.
  ghost function FlowsReached(subject: SubjectRef, t: Topology): set<U64> {
    if subject.kind == Flow then {subject.id} else set flow <- t.flows | RunsOver(flow, subject, t)
  }

  ghost function PathsReached(subject: SubjectRef): set<U64> {
    if subject.kind == Path then {subject.id} else {}
  }

  // ---- what the registries are told -----------------------------------------------------------

  ghost predicate TellsOf(item: Item, e: Generation.Event, reached: set<U64>) {
    e.entity in reached && e.generation == item.header.generation && e.at == item.header.observedAt
  }

  ghost predicate FlowsTold(items: seq<Item>, events: seq<Generation.Event>, t: Topology) {
    forall e :: e in events <==> exists item <- items :: TellsOf(item, e, FlowsReached(item.header.subject, t))
  }

  ghost predicate PathsTold(items: seq<Item>, events: seq<Generation.Event>) {
    forall e :: e in events <==> exists item <- items :: TellsOf(item, e, PathsReached(item.header.subject))
  }

  ghost function FlowsOf(items: seq<Item>, t: Topology): set<U64> {
    set item <- items, flow <- FlowsReached(item.header.subject, t) :: flow
  }

  ghost function PathsOf(items: seq<Item>): set<U64> {
    set item <- items, path <- PathsReached(item.header.subject) :: path
  }

  // All flows and all paths the items are evidence of fit into the registry.
  ghost predicate EntitiesFit(items: seq<Item>, t: Topology, maxEntities: nat) {
    |FlowsOf(items, t)| <= maxEntities && |PathsOf(items)| <= maxEntities
  }

  lemma {:induction false} ToldFit(items: seq<Item>, flows: seq<Generation.Event>, paths: seq<Generation.Event>,
                                   t: Topology, maxEntities: nat)
    requires EntitiesFit(items, t, maxEntities) && FlowsTold(items, flows, t) && PathsTold(items, paths)
    ensures Generation.Room(flows, maxEntities) && Generation.Room(paths, maxEntities)
  {
    hide FlowsReached, PathsReached;
    var told, on := set e <- flows :: e.entity, set e <- paths :: e.entity;
    forall flow | flow in told
      ensures flow in FlowsOf(items, t)
    {
      var e :| e in flows && e.entity == flow;
      var item :| item in items && TellsOf(item, e, FlowsReached(item.header.subject, t));
    }
    forall path | path in on
      ensures path in PathsOf(items)
    {
      var e :| e in paths && e.entity == path;
      var item :| item in items && TellsOf(item, e, PathsReached(item.header.subject));
    }
    Generation.Fewer(told, FlowsOf(items, t));
    Generation.Fewer(on, PathsOf(items));
  }

  lemma {:induction false} ToldNext(items: seq<Item>, item: Item, flows: seq<Generation.Event>,
                                    flows': seq<Generation.Event>, paths: seq<Generation.Event>,
                                    paths': seq<Generation.Event>, t: Topology)
    requires FlowsTold(items, flows, t) && PathsTold(items, paths)
    requires forall e :: e in flows' <==> e in flows || TellsOf(item, e, FlowsReached(item.header.subject, t))
    requires forall e :: e in paths' <==> e in paths || TellsOf(item, e, PathsReached(item.header.subject))
    ensures FlowsTold(items + [item], flows', t) && PathsTold(items + [item], paths')
  {
    hide FlowsReached, PathsReached, TellsOf;
    assert forall x :: x in items + [item] <==> x in items || x == item;
  }

  lemma {:induction false} SameTold(items: seq<Item>, others: seq<Item>, flows: seq<Generation.Event>,
                                    paths: seq<Generation.Event>, t: Topology)
    requires multiset(items) == multiset(others) && FlowsTold(items, flows, t) && PathsTold(items, paths)
    ensures FlowsTold(others, flows, t) && PathsTold(others, paths)
  {
    hide FlowsReached, PathsReached, TellsOf;
    Derivation.SameMembers(items, others);
  }

  // ---- a classification --------------------------------------------------------------------------

  // The registries a classification reads.
  datatype State = State(subjects: Buckets, sources: set<U64>, incarnations: map<U64, seq<Fence.Incarnation>>,
                         flows: Generation.Table, paths: Generation.Table)

  // What is asked, and the settings the answer depends on.
  datatype Question = Question(
    subject: SubjectRef, at: I64, declaredOnly: bool, derivation: Derivation.Settings, freshness: Freshness.Policy,
    loss: Classify.Policy, authorities: Classify.Authorities)

  function Epochs(list: seq<Fence.Incarnation>): map<U64, bool> {
    map i <- list :: i.epoch := list[Fence.PlaceOf(list, i.epoch)].retired
  }

  function ContextOf(state: State, t: Topology): Freshness.Context {
    Freshness.Context(
      Some(map source <- state.sources ::
             Epochs(if source in state.incarnations then state.incarnations[source] else [])),
      Some((subject: SubjectRef, generation: U64, at: I64) =>
             Generation.MatchOf(if subject.kind == Flow then state.flows else state.paths, subject.id, generation, at)),
      Some((t.flows, map path <- t.paths :: t.paths[path].revision)))
  }

  function SettingsFor(q: Question, t: Topology): Derivation.Settings {
    q.derivation.(declared := (subject: SubjectRef) => !q.declaredOnly || Declares(t, subject))
  }

  function About(subject: SubjectRef): Classify.Admission {
    (o: Observation) => o.subject == subject
  }

  ghost function Concluded(snapshot: seq<Item>, state: State, t: Topology, q: Question): Classify.Classification {
    Classify.Classified(
      Classify.Only(Derivation.Derived(snapshot, SettingsFor(q, t)), About(q.subject)),
      Freshness.AdmissibleAt(q.at, q.freshness, ContextOf(state, t)), q.loss, q.authorities)
  }

  ghost predicate IsSnapshot(snapshot: seq<Item>, subjects: Buckets) {
    Ordered(snapshot) && Gathered(snapshot, subjects)
  }

  // ---- the engine -----------------------------------------------------------------------------------

  class Engine {
    const store: EvidenceStore
    const generations: Generation.GenerationRegistry
    const topology: Topology

    constructor (store: EvidenceStore, generations: Generation.GenerationRegistry, topology: Topology)
      ensures this.store == store && this.generations == generations && this.topology == topology
    {
      this.store, this.generations, this.topology := store, generations, topology;
    }

    function Value(): State
      reads store, store.sources, generations
    {
      State(store.subjects, store.sources.sources, store.sources.incarnations, generations.flows, generations.paths)
    }

    method RecordGenerations(item: Item)
      requires generations.Valid()
      modifies generations
      ensures generations.Valid()
      ensures forall e :: e in generations.flowEvents
                <==> e in old(generations.flowEvents) || TellsOf(item, e, FlowsReached(item.header.subject, topology))
      ensures forall e :: e in generations.pathEvents
                <==> e in old(generations.pathEvents) || TellsOf(item, e, PathsReached(item.header.subject))
    {
      var subject, generation, at := item.header.subject, item.header.generation, item.header.observedAt;
      match subject.kind {
        case Flow =>
          generations.ObserveFlow(subject.id, generation, at);
        case Path =>
          NotOnAnyPath(subject, topology);
          generations.ObservePath(subject.id, generation, at);
        case Source =>
          NotOnAnyPath(subject, topology);
        case UnknownSubject =>
          NotOnAnyPath(subject, topology);
        case _ =>
          RecordFlows(item);
      }
    }

    // Evidence about an entity on a path is told of every flow that uses the path.
    method RecordFlows(item: Item)
      requires generations.Valid() && item.header.subject.kind != Flow
      modifies generations
      ensures generations.Valid() && generations.pathEvents == old(generations.pathEvents)
      ensures forall e :: e in generations.flowEvents
                <==> e in old(generations.flowEvents) || TellsOf(item, e, FlowsReached(item.header.subject, topology))
    {
      hide Generation.GenerationRegistry.Valid;
      var left := topology.flows.Keys;
      while left != {}
        invariant left <= topology.flows.Keys
        invariant generations.Valid() && generations.pathEvents == old(generations.pathEvents)
        invariant forall e :: e in generations.flowEvents
                    <==> e in old(generations.flowEvents)
                         || TellsOf(item, e, FlowsReached(item.header.subject, topology) - left)
        decreases left
      {
        var flow := Generation.Lowest(left);
        left := left - {flow};
        var matches := FindTouched(HopsOf(topology, topology.flows[flow].path), item.header.subject, topology);
        if matches {
          generations.ObserveFlow(flow, item.header.generation, item.header.observedAt);
        }
      }
    }

    // An item is told to the generation registry, and submitted whatever it is.
    method SubmitSync(item: Item) returns (reason: Reason)
      requires store.Valid() && generations.Valid()
      modifies store, store.sources, generations
      ensures store.Valid() && generations.Valid() && store.sources.window == old(store.sources.window)
      ensures forall e :: e in generations.flowEvents
                <==> e in old(generations.flowEvents) || TellsOf(item, e, FlowsReached(item.header.subject, topology))
      ensures forall e :: e in generations.pathEvents
                <==> e in old(generations.pathEvents) || TellsOf(item, e, PathsReached(item.header.subject))
      ensures var structural := Structural(item, store.limits.maxNote);
              var h := item.header;
              var (registry, fence) :=
                Fence.ObserveOutcome(old(store.sources.Value()), h.source, h.epoch, h.sequence,
                                     old(store.sources.window));
              if structural != NoReason then reason == structural && store.sources.Value() == old(store.sources.Value())
              else
                && store.sources.Value() == registry
                && reason == if FenceReason(fence) != NoReason then FenceReason(fence) else old(store.Objection(item))
      ensures if reason == NoReason then
                && store.history == old(store.history) + [item.header.id]
                && store.accepted == old(store.accepted) + 1
                && InsertedInto(old(store.subjects), old(store.insertionOrder), item, store.limits, store.subjects,
                                store.insertionOrder)
              else
                && store.subjects == old(store.subjects) && store.insertionOrder == old(store.insertionOrder)
                && store.history == old(store.history) && store.accepted == old(store.accepted)
    {
      hide EvidenceStore.Valid, EvidenceStore.Objection, Structural, Fence.ObserveOutcome, InsertedInto, OnlyAdds,
        FlowsReached, PathsReached, TellsOf, Generation.GenerationRegistry.Valid;
      RecordGenerations(item);
      reason := store.Submit(item);
    }

    // One welcome item after the first so many: recorded, and admitted by the store.
    method SubmitNext(ghost start: Fence.Registry, ghost items: seq<Item>, ghost i: nat, item: Item)
      requires i < |items| && items[i] == item && Filled(store, start, items, i)
      requires generations.Valid()
      requires FlowsTold(items[..i], generations.flowEvents, topology) && PathsTold(items[..i], generations.pathEvents)
      modifies store, store.sources, generations
      ensures Filled(store, start, items, i + 1) && generations.Valid()
      ensures FlowsTold(items[..i + 1], generations.flowEvents, topology)
      ensures PathsTold(items[..i + 1], generations.pathEvents)
    {
      hide EvidenceStore.Valid, EvidenceStore.Objection, Structural, Fence.ObserveOutcome, WithItem, InsertedInto,
        Fenced, Holds, IdsIn, Welcome, Fits, FlowsTold, PathsTold, FlowsReached, PathsReached, TellsOf,
        Generation.GenerationRegistry.Valid;
      ghost var subjects, order := store.subjects, store.insertionOrder;
      NextIsWelcome(store, start, items, i);
      var reason := SubmitSync(item);
      NextIsIn(store, start, items, i, subjects, order);
      ToldNext(items[..i], item, old(generations.flowEvents), generations.flowEvents, old(generations.pathEvents),
               generations.pathEvents, topology);
      assert items[..i] + [item] == items[..i + 1];
    }

    ghost predicate IsNew()
      reads this, store, generations
    {
      && IsEmpty(store) && generations.Valid() && generations.flowEvents == [] && generations.pathEvents == []
    }

    // A run from an empty engine: the buckets hold the items, and the windows are
    // those of everything the items are evidence of.
    method Ingest(items: seq<Item>)
      requires IsNew() && Welcome(items, store.sources.Value(), store.limits) && Fits(items, store.limits)
      requires EntitiesFit(items, topology, generations.maxEntities)
      modifies store, store.sources, generations
      ensures TookIn(Value(), items, topology) && Own(store.subjects)
      ensures Value().sources == old(Value().sources) && Value().incarnations == old(Value().incarnations)
    {
      hide Filled, IsEmpty, Welcome, Fits, EntitiesFit, FlowsTold, PathsTold, TookIn, Own, Holds,
        Generation.GenerationRegistry.Valid;
      ghost var start := store.sources.Value();
      NothingFilled(store, items);
      NothingTold(topology);
      assert items[..0] == [];
      for i := 0 to |items|
        invariant Filled(store, start, items, i) && generations.Valid()
        invariant FlowsTold(items[..i], generations.flowEvents, topology)
        invariant PathsTold(items[..i], generations.pathEvents)
      {
        SubmitNext(start, items, i, items[i]);
      }
      assert items[..|items|] == items;
      AllFilled(store, start, items);
      HeldAreOwn(store.subjects, items);
      ToldFit(items, generations.flowEvents, generations.pathEvents, topology, generations.maxEntities);
      AllTaken();
      TakenIn(Value(), items, topology, generations.flowEvents, generations.pathEvents);
    }

    lemma AllTaken()
      requires generations.Valid() && Generation.Room(generations.flowEvents, generations.maxEntities)
      requires Generation.Room(generations.pathEvents, generations.maxEntities)
      ensures Generation.Describes(generations.flows, generations.flowEvents)
      ensures Generation.Describes(generations.paths, generations.pathEvents)
    {
    }

    // A classification: from a snapshot over its observations to the verdict.
    method Conclude(q: Question) returns (c: Classify.Classification)
      requires Own(store.subjects)
      ensures exists snapshot ::
                IsSnapshot(snapshot, store.subjects) && c == Concluded(snapshot, Value(), topology, q)
    {
      hide Own, Ordered, Gathered, Derivation.Derived, Classify.Classified, Freshness.Assess;
      var snapshot := TakeSnapshot(store.subjects);
      var observations := Derivation.DeriveObservations(snapshot, SettingsFor(q, topology));
      var selected := Select(observations, About(q.subject));
      c := Classify.Classify(selected, Freshness.AdmissibleAt(q.at, q.freshness, ContextOf(Value(), topology)), q.loss,
                             q.authorities);
      assert IsSnapshot(snapshot, store.subjects);
    }
  }

  lemma {:induction false} NotOnAnyPath(subject: SubjectRef, t: Topology)
    requires subject.kind == Path || subject.kind == Source || subject.kind == UnknownSubject
    ensures FlowsReached(subject, t) == {}
  {
  }

  method FindTouched(hops: seq<Localize.PathHop>, subject: SubjectRef, t: Topology) returns (matches: bool)
    ensures matches <==> exists hop <- hops :: Touches(hop, subject, t)
  {
    for i := 0 to |hops|
      invariant forall hop <- hops[..i] :: !Touches(hop, subject, t)
    {
      if Touches(hops[i], subject, t) {
        return true;
      }
    }
    assert hops[..|hops|] == hops;
    return false;
  }

  lemma {:induction false} NothingTold(t: Topology)
    ensures FlowsTold([], [], t) && PathsTold([], [])
  {
  }

  method Select(observations: seq<Observation>, p: Classify.Admission) returns (selected: seq<Observation>)
    ensures selected == Classify.Only(observations, p)
  {
    selected := [];
    for i := 0 to |observations|
      invariant selected == Classify.Only(observations[..i], p)
    {
      Classify.OnlyStep(observations[..i], observations[i], p);
      assert observations[..i + 1] == observations[..i] + [observations[i]];
      if p(observations[i]) {
        selected := selected + [observations[i]];
      }
    }
    assert observations[..|observations|] == observations;
  }

  // ---- two orders of arrival ---------------------------------------------------------------------------

  // An engine that has taken in the items, each of them accepted and recorded.
  ghost predicate TookIn(state: State, items: seq<Item>, t: Topology) {
    && Holds(state.subjects, items)
    && (exists flows :: FlowsTold(items, flows, t) && Generation.Describes(state.flows, flows))
    && (exists paths :: PathsTold(items, paths) && Generation.Describes(state.paths, paths))
  }

  lemma {:induction false} TakenIn(state: State, items: seq<Item>, t: Topology, flows: seq<Generation.Event>,
                                   paths: seq<Generation.Event>)
    requires Holds(state.subjects, items)
    requires FlowsTold(items, flows, t) && Generation.Describes(state.flows, flows)
    requires PathsTold(items, paths) && Generation.Describes(state.paths, paths)
    ensures TookIn(state, items, t)
  {
    hide Holds, FlowsTold, PathsTold, Generation.Describes;
  }

  lemma {:induction false} SameWindows(a: State, b: State, items: seq<Item>, others: seq<Item>, t: Topology)
    requires multiset(items) == multiset(others) && TookIn(a, items, t) && TookIn(b, others, t)
    ensures a.flows == b.flows && a.paths == b.paths
  {
    hide Holds, FlowsTold, PathsTold, Generation.Describes;
    var flowsA :| FlowsTold(items, flowsA, t) && Generation.Describes(a.flows, flowsA);
    var pathsA :| PathsTold(items, pathsA) && Generation.Describes(a.paths, pathsA);
    var flowsB :| FlowsTold(others, flowsB, t) && Generation.Describes(b.flows, flowsB);
    var pathsB :| PathsTold(others, pathsB) && Generation.Describes(b.paths, pathsB);
    SameTold(items, others, flowsA, pathsA, t);
    SameEvents(others, flowsA, flowsB, pathsA, pathsB, t);
    Generation.OneDescription(a.flows, b.flows, flowsA, flowsB);
    Generation.OneDescription(a.paths, b.paths, pathsA, pathsB);
  }

  lemma {:induction false} SameEvents(items: seq<Item>, flows: seq<Generation.Event>, flows': seq<Generation.Event>,
                                      paths: seq<Generation.Event>, paths': seq<Generation.Event>, t: Topology)
    requires FlowsTold(items, flows, t) && FlowsTold(items, flows', t)
    requires PathsTold(items, paths) && PathsTold(items, paths')
    ensures forall e :: e in flows <==> e in flows'
    ensures forall e :: e in paths <==> e in paths'
  {
    hide FlowsReached, PathsReached, TellsOf;
  }

  // Two engines with the same registered sources that took in the same items, each in
  // its own order, have the same snapshot and the same generation windows, derive the
  // same observations, and reach the same verdict on every question.
  lemma {:induction false} ArrivalOrderIsIrrelevant(a: State, b: State, items: seq<Item>, others: seq<Item>,
                                                    t: Topology, snapshotA: seq<Item>, snapshotB: seq<Item>,
                                                    q: Question)
    requires multiset(items) == multiset(others) && DistinctIds(items)
    requires TookIn(a, items, t) && TookIn(b, others, t)
    requires a.sources == b.sources && a.incarnations == b.incarnations
    requires IsSnapshot(snapshotA, a.subjects) && IsSnapshot(snapshotB, b.subjects)
    ensures snapshotA == snapshotB == CanonicalOrder(items)
    ensures a.flows == b.flows && a.paths == b.paths
    ensures Derivation.Derived(snapshotA, SettingsFor(q, t)) == Derivation.Derived(snapshotB, SettingsFor(q, t))
    ensures Concluded(snapshotA, a, t, q) == Concluded(snapshotB, b, t, q)
  {
    hide CanonicalOrder, Ordered, Gathered, DistinctIds, Derivation.Derived, Classify.Classified, Classify.Only,
      Freshness.Assess;
    HeldSnapshot(a.subjects, items, snapshotA);
    IdsStayDistinct(items, others);
    HeldSnapshot(b.subjects, others, snapshotB);
    SnapshotIsOrderFree(items, others);
    SameWindows(a, b, items, others, t);
    hide TookIn;
  }

  // And so it is for two engines that start empty, whatever the orders of arrival.
  method TwoArrivals(a: Engine, b: Engine, items: seq<Item>, others: seq<Item>, q: Question)
      returns (c: Classify.Classification, d: Classify.Classification)
    requires multiset(items) == multiset(others)
    requires a.IsNew() && b.IsNew() && a.topology == b.topology
    requires a.store != b.store && a.store.sources != b.store.sources && a.generations != b.generations
    requires a.store.limits == b.store.limits && a.generations.maxEntities == b.generations.maxEntities
    requires a.store.sources.Value() == b.store.sources.Value()
    requires Welcome(items, a.store.sources.Value(), a.store.limits) && Fits(items, a.store.limits)
    requires EntitiesFit(items, a.topology, a.generations.maxEntities)
    modifies a.store, a.store.sources, a.generations, b.store, b.store.sources, b.generations
    ensures c == d && a.Value().flows == b.Value().flows && a.Value().paths == b.Value().paths
    ensures forall s ::
              IsSnapshot(s, a.store.subjects) || IsSnapshot(s, b.store.subjects) ==> s == CanonicalOrder(items)
  {
    hide Engine.IsNew, Welcome, Fits, EntitiesFit, TookIn, Concluded, IsSnapshot, CanonicalOrder, Own, DistinctIds;
    RearrangedIsWelcome(items, others, a.store.sources.Value(), a.store.limits);
    WelcomeAreDistinct(items, a.store.sources.Value(), a.store.limits);
    SameEntities(items, others, a.topology);
    a.Ingest(items);
    b.Ingest(others);
    c := a.Conclude(q);
    d := b.Conclude(q);
    SameVerdict(a.Value(), b.Value(), items, others, a.topology, c, d, q);
  }

  lemma {:induction false} WelcomeAreDistinct(items: seq<Item>, registry: Fence.Registry, limits: Limits)
    requires Welcome(items, registry, limits)
    ensures DistinctIds(items)
  {
  }

  lemma {:induction false} SameVerdict(a: State, b: State, items: seq<Item>, others: seq<Item>, t: Topology,
                                       c: Classify.Classification, d: Classify.Classification, q: Question)
    requires multiset(items) == multiset(others) && DistinctIds(items)
    requires TookIn(a, items, t) && TookIn(b, others, t)
    requires a.sources == b.sources && a.incarnations == b.incarnations
    requires exists s :: IsSnapshot(s, a.subjects) && c == Concluded(s, a, t, q)
    requires exists s :: IsSnapshot(s, b.subjects) && d == Concluded(s, b, t, q)
    ensures c == d && a.flows == b.flows && a.paths == b.paths
    ensures forall s :: IsSnapshot(s, a.subjects) || IsSnapshot(s, b.subjects) ==> s == CanonicalOrder(items)
  {
    hide TookIn, Concluded, IsSnapshot, CanonicalOrder, DistinctIds, Derivation.Derived;
    var x :| IsSnapshot(x, a.subjects) && c == Concluded(x, a, t, q);
    var y :| IsSnapshot(y, b.subjects) && d == Concluded(y, b, t, q);
    ArrivalOrderIsIrrelevant(a, b, items, others, t, x, y, q);
    forall s | IsSnapshot(s, a.subjects)
      ensures s == CanonicalOrder(items)
    {
      ArrivalOrderIsIrrelevant(a, b, items, others, t, s, y, q);
    }
    forall s | IsSnapshot(s, b.subjects)
      ensures s == CanonicalOrder(items)
    {
      ArrivalOrderIsIrrelevant(a, b, items, others, t, x, s, q);
    }
  }

  lemma {:induction false} SameEntities(items: seq<Item>, others: seq<Item>, t: Topology)
    requires multiset(items) == multiset(others)
    ensures FlowsOf(items, t) == FlowsOf(others, t) && PathsOf(items) == PathsOf(others)
    ensures forall n: nat :: EntitiesFit(items, t, n) <==> EntitiesFit(others, t, n)
  {
    hide FlowsReached, PathsReached;
    Derivation.SameMembers(items, others);
  }
}
