// Which generation of an entity was in force at an instant: the recorded
// windows, and the correlation against them.
module Generation {
  import opened Bytes
  import opened Evidence

  datatype Window = Window(first: I64, last: I64)

  type Windows = map<U64, Window>
  type Table = map<U64, Windows>

  datatype Match = Current | Superseded | UnknownGeneration | NoGenerationRecorded

  datatype Status = Status(match_: Match, current: Option<U64>, since: I64, changed: bool)

  // ---- recording --------------------------------------------------------------------

  function Widened(w: Window, at: I64): Window {
    Window(if at < w.first then at else w.first, if at > w.last then at else w.last)
  }

  function Noted(windows: Windows, generation: U64, at: I64): Windows {
    windows[generation := if generation in windows then Widened(windows[generation], at) else Window(at, at)]
  }

  function WindowsOf(table: Table, entity: U64): Windows {
    if entity in table then table[entity] else map[]
  }

  ghost predicate IsLowest(keys: set<U64>, k: U64) {
    k in keys && forall other <- keys :: k <= other
  }

  // One observation.  A table that is full drops its lowest entity first.
  ghost predicate Recorded(before: Table, entity: U64, generation: U64, at: I64, maxEntities: nat, after: Table) {
    if entity in before || |before| < maxEntities then
      after == before[entity := Noted(WindowsOf(before, entity), generation, at)]
    else
      exists lowest: U64 ::
        IsLowest(before.Keys, lowest) && after == (before - {lowest})[entity := Noted(map[], generation, at)]
  }

  class GenerationRegistry {
    const maxEntities: nat
    var flows: Table
    var paths: Table
    // What was observed so far, in order.
    ghost var flowEvents: seq<Event>
    ghost var pathEvents: seq<Event>

    // The windows are those of everything observed, for as long as all of it fits.
    ghost predicate Valid()
      reads this
    {
      && maxEntities > 0
      && (Room(flowEvents, maxEntities) ==> Describes(flows, flowEvents))
      && (Room(pathEvents, maxEntities) ==> Describes(paths, pathEvents))
    }

    constructor (maxEntities: nat)
      requires maxEntities > 0
      ensures Valid() && flows == map[] && paths == map[] && this.maxEntities == maxEntities
      ensures flowEvents == [] && pathEvents == []
    {
      this.maxEntities := maxEntities;
      flows, paths := map[], map[];
      flowEvents, pathEvents := [], [];
    }

    method ObserveFlow(flow: U64, generation: U64, at: I64)
      requires Valid()
      modifies this
      ensures Valid() && Recorded(old(flows), flow, generation, at, maxEntities, flows) && paths == old(paths)
      ensures flowEvents == old(flowEvents) + [Event(flow, generation, at)] && pathEvents == old(pathEvents)
    {
      hide Describes, Room, Recorded;
      flows := Observe(flows, flow, generation, at, maxEntities);
      StillDescribes(old(flows), flowEvents, Event(flow, generation, at), maxEntities, flows);
      flowEvents := flowEvents + [Event(flow, generation, at)];
    }

    method ObservePath(path: U64, generation: U64, at: I64)
      requires Valid()
      modifies this
      ensures Valid() && Recorded(old(paths), path, generation, at, maxEntities, paths) && flows == old(flows)
      ensures pathEvents == old(pathEvents) + [Event(path, generation, at)] && flowEvents == old(flowEvents)
    {
      hide Describes, Room, Recorded;
      paths := Observe(paths, path, generation, at, maxEntities);
      StillDescribes(old(paths), pathEvents, Event(path, generation, at), maxEntities, paths);
      pathEvents := pathEvents + [Event(path, generation, at)];
    }
  }

  method Lowest(keys: set<U64>) returns (lowest: U64)
    requires keys != {}
    ensures IsLowest(keys, lowest)
  {
    lowest :| lowest in keys;
    var left := keys - {lowest};
    while left != {}
      invariant left <= keys && lowest in keys
      invariant forall k <- keys :: k in left || lowest <= k
      decreases left
    {
      var k :| k in left;
      if k < lowest {
        lowest := k;
      }
      left := left - {k};
    }
  }

  method Observe(table: Table, entity: U64, generation: U64, at: I64, maxEntities: nat) returns (after: Table)
    requires maxEntities > 0
    ensures Recorded(table, entity, generation, at, maxEntities, after)
  {
    after := table;
    if entity !in after {
      if |after| >= maxEntities {
        var lowest := Lowest(after.Keys);
        after := after - {lowest};
      }
      var none: Windows := map[];
      after := after[entity := none];
    }
    var windows: Windows := after[entity];
    if generation !in windows {
      windows := windows[generation := Window(at, at)];
    } else {
      var w := windows[generation];
      if at < w.first {
        w := w.(first := at);
      }
      if at > windows[generation].last {
        w := w.(last := at);
      }
      windows := windows[generation := w];
    }
    after := after[entity := windows];
  }

  // ---- the recorded windows are the extremes of what was observed -------------------------

  datatype Event = Event(entity: U64, generation: U64, at: I64)

  ghost predicate Seen(events: seq<Event>, entity: U64, generation: U64, at: I64) {
    Event(entity, generation, at) in events
  }

  // A window reaches from the earliest to the latest observation.
  ghost predicate IsExtent(events: seq<Event>, entity: U64, generation: U64, w: Window) {
    && Seen(events, entity, generation, w.first) && Seen(events, entity, generation, w.last)
    && forall e <- events :: e.entity == entity && e.generation == generation ==> w.first <= e.at <= w.last
  }

  ghost predicate Describes(table: Table, events: seq<Event>) {
    && (forall e <- events :: e.entity in table && e.generation in table[e.entity])
    && (forall entity <- table :: table[entity] != map[]
          && forall generation <- table[entity] :: IsExtent(events, entity, generation, table[entity][generation]))
  }

  // All entities together fit into the table.
  ghost predicate Room(events: seq<Event>, maxEntities: nat) {
    |set e <- events :: e.entity| <= maxEntities
  }

  // A run of observations without an eviction keeps the description exact.
  lemma RecordedDescribes(table: Table, events: seq<Event>, e: Event, maxEntities: nat, after: Table)
    requires Describes(table, events) && Room(events + [e], maxEntities)
    requires Recorded(table, e.entity, e.generation, e.at, maxEntities, after)
    ensures Describes(after, events + [e])
  {
    NoEviction(table, events, e, maxEntities);
    var more := events + [e];
    forall x <- more
      ensures x.entity in after && x.generation in after[x.entity]
    {
      if x != e {
        assert x in events;
      }
    }
    forall entity | entity in after
      ensures after[entity] != map[]
              && forall generation <- after[entity] :: IsExtent(more, entity, generation, after[entity][generation])
    {
      if entity == e.entity {
        assert e.generation in after[entity];
      }
      forall generation | generation in after[entity]
        ensures IsExtent(more, entity, generation, after[entity][generation])
      {
        if entity == e.entity && generation == e.generation {
          ExtentGrows(WindowsOf(table, entity), events, e);
        } else {
          ExtentStays(events, e, entity, generation, after[entity][generation]);
        }
      }
    }
  }

  lemma StillDescribes(table: Table, events: seq<Event>, e: Event, maxEntities: nat, after: Table)
    requires Room(events, maxEntities) ==> Describes(table, events)
    requires Recorded(table, e.entity, e.generation, e.at, maxEntities, after)
    ensures Room(events + [e], maxEntities) ==> Describes(after, events + [e])
  {
    hide Describes, Recorded;
    if Room(events + [e], maxEntities) {
      Fewer(set x <- events :: x.entity, set x <- events + [e] :: x.entity);
      RecordedDescribes(table, events, e, maxEntities, after);
    }
  }

  lemma NoEviction(table: Table, events: seq<Event>, e: Event, maxEntities: nat)
    requires Describes(table, events) && Room(events + [e], maxEntities)
    ensures e.entity in table || |table| < maxEntities
  {
    if e.entity !in table {
      var entities := set x <- events + [e] :: x.entity;
      assert e in events + [e];
      forall entity | entity in table
        ensures entity in entities
      {
        var x := ObservedEntity(table, events, entity);
        assert x in events + [e];
      }
      Fewer(table.Keys + {e.entity}, entities);
    }
  }

  lemma ObservedEntity(table: Table, events: seq<Event>, entity: U64) returns (x: Event)
    requires Describes(table, events) && entity in table
    ensures x in events && x.entity == entity
  {
    var generation :| generation in table[entity];
    assert IsExtent(events, entity, generation, table[entity][generation]);
    x := Event(entity, generation, table[entity][generation].first);
  }

  lemma Fewer<T>(a: set<T>, b: set<T>)
    requires a <= b
    ensures |a| <= |b|
  {
    if a != {} {
      var x :| x in a;
      Fewer(a - {x}, b - {x});
    }
  }

  lemma ExtentGrows(windows: Windows, events: seq<Event>, e: Event)
    requires e.generation in windows ==> IsExtent(events, e.entity, e.generation, windows[e.generation])
    requires e.generation !in windows ==>
               forall x <- events :: !(x.entity == e.entity && x.generation == e.generation)
    ensures IsExtent(events + [e], e.entity, e.generation, Noted(windows, e.generation, e.at)[e.generation])
  {
    assert e in events + [e] && forall x <- events :: x in events + [e];
  }

  lemma ExtentStays(events: seq<Event>, e: Event, entity: U64, generation: U64, w: Window)
    requires IsExtent(events, entity, generation, w) && !(e.entity == entity && e.generation == generation)
    ensures IsExtent(events + [e], entity, generation, w)
  {
    assert forall x <- events :: x in events + [e];
  }

  // What is recorded depends on the set of observations only, not on the order
  // in which they arrived.
  lemma OneDescription(a: Table, b: Table, events: seq<Event>, others: seq<Event>)
    requires Describes(a, events) && Describes(b, others)
    requires forall e :: e in events <==> e in others
    ensures a == b
  {
    hide IsExtent;
    SameKeys(a, b, events, others);
    SameKeys(b, a, others, events);
    forall entity | entity in a
      ensures a[entity] == b[entity]
    {
      forall generation | generation in a[entity]
        ensures a[entity][generation] == b[entity][generation]
      {
        SameExtent(events, others, entity, generation, a[entity][generation], b[entity][generation]);
      }
    }
  }

  lemma SameExtent(events: seq<Event>, others: seq<Event>, entity: U64, generation: U64, w: Window, v: Window)
    requires forall e :: e in events <==> e in others
    requires IsExtent(events, entity, generation, w) && IsExtent(others, entity, generation, v)
    ensures w == v
  {
    assert Event(entity, generation, w.first) in others && Event(entity, generation, w.last) in others;
    assert Event(entity, generation, v.first) in events && Event(entity, generation, v.last) in events;
  }

  lemma SameKeys(a: Table, b: Table, events: seq<Event>, others: seq<Event>)
    requires Describes(a, events) && Describes(b, others)
    requires forall e :: e in events <==> e in others
    ensures a.Keys <= b.Keys
    ensures forall entity <- a :: a[entity].Keys <= b[entity].Keys
  {
    forall entity | entity in a
      ensures entity in b && a[entity].Keys <= b[entity].Keys
    {
      forall generation | generation in a[entity]
        ensures entity in b && generation in b[entity]
      {
        assert IsExtent(events, entity, generation, a[entity][generation]);
        assert Event(entity, generation, a[entity][generation].first) in others;
      }
      var generation :| generation in a[entity];
    }
  }

  // ---- correlation ------------------------------------------------------------------------

  predicate Started(w: Window, at: I64) {
    w.first <= at
  }

  predicate Covers(w: Window, at: I64) {
    w.last >= at
  }

  // Covering windows first, then the later start, then the larger generation.
  predicate Better(g: U64, w: Window, h: U64, v: Window, at: I64) {
    if Covers(w, at) != Covers(v, at) then Covers(w, at)
    else if w.first != v.first then w.first > v.first
    else g > h
  }

  predicate InForce(windows: Windows, at: I64, g: U64) {
    && g in windows && Started(windows[g], at)
    && forall h <- windows :: Started(windows[h], at) && h != g ==> Better(g, windows[g], h, windows[h], at)
  }

  predicate NoneStarted(windows: Windows, at: I64) {
    forall h <- windows :: !Started(windows[h], at)
  }

  ghost predicate Correlated(table: Table, entity: U64, generation: U64, at: I64, s: Status) {
    var windows := WindowsOf(table, entity);
    if windows == map[] then s == Status(NoGenerationRecorded, None, 0, false)
    else if NoneStarted(windows, at) then s == Status(UnknownGeneration, Some(0), 0, false)
    else
      exists g :: InForce(windows, at, g)
                  && s == Status(if g == generation then Current else Superseded, Some(g), windows[g].first,
                                 g != generation)
  }

  // How a generation of an entity stands at an instant.
  function MatchOf(table: Table, entity: U64, generation: U64, at: I64): Match {
    var windows := WindowsOf(table, entity);
    if windows == map[] then NoGenerationRecorded
    else if NoneStarted(windows, at) then UnknownGeneration
    else if InForce(windows, at, generation) then Current
    else Superseded
  }

  lemma CorrelatedMatch(table: Table, entity: U64, generation: U64, at: I64, s: Status)
    requires Correlated(table, entity, generation, at, s)
    ensures s.match_ == MatchOf(table, entity, generation, at)
  {
  }

  method Correlate(table: Table, entity: U64, generation: U64, at: I64) returns (s: Status)
    ensures Correlated(table, entity, generation, at, s)
  {
    if entity !in table || table[entity] == map[] {
      return Status(NoGenerationRecorded, None, 0, false);
    }
    var windows := table[entity];
    var found, best := false, 0;
    var left := windows.Keys;
    while left != {}
      invariant left <= windows.Keys
      invariant !found ==> forall h <- windows :: h in left || !Started(windows[h], at)
      invariant found ==> best in windows && best !in left && Started(windows[best], at)
      invariant found ==> forall h <- windows ::
                            h in left || !Started(windows[h], at) || h == best
                            || Better(best, windows[best], h, windows[h], at)
      decreases left
    {
      var candidate :| candidate in left;
      left := left - {candidate};
      var w := windows[candidate];
      if w.first <= at {
        var covers := w.last >= at;
        if !found {
          found, best := true, candidate;
        } else {
          var bestCovers, bestFirst := windows[best].last >= at, windows[best].first;
          if (covers && !bestCovers)
             || (covers == bestCovers && (w.first > bestFirst || (w.first == bestFirst && candidate > best))) {
            best := candidate;
          }
        }
      }
    }
    if !found {
      return Status(UnknownGeneration, Some(0), 0, false);
    }
    assert InForce(windows, at, best);
    s := Status(if best == generation then Current else Superseded, Some(best), windows[best].first,
                best != generation);
  }

  // There is one answer, so it depends on the recorded windows alone.
  lemma OneAnswer(table: Table, entity: U64, generation: U64, at: I64, a: Status, b: Status)
    requires Correlated(table, entity, generation, at, a) && Correlated(table, entity, generation, at, b)
    ensures a == b
  {
  }

  // Evidence is current for at most one generation of an entity at an instant,
  // and for exactly one once some generation has started.
  lemma OneCurrentGeneration(table: Table, entity: U64, at: I64, g: U64, h: U64, a: Status, b: Status)
    requires Correlated(table, entity, g, at, a) && Correlated(table, entity, h, at, b)
    ensures a.match_ == Current && b.match_ == Current ==> g == h
    ensures a.match_ == NoGenerationRecorded <==> WindowsOf(table, entity) == map[]
    ensures a.match_ == UnknownGeneration <==>
              WindowsOf(table, entity) != map[] && NoneStarted(WindowsOf(table, entity), at)
    ensures a.match_ == Current <==> InForce(WindowsOf(table, entity), at, g)
  {
  }
}
