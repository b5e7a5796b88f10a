// A restart: history comes back from the journal, and none of it is ever current.
module Restart {
  import opened Bytes
  import opened Evidence
  import opened Observation
  import opened Store
  import opened Canonical
  import opened Snapshot
  import opened Provenance
  import Classify
  import Derivation
  import Engine
  import Episodes
  import Freshness
  import Judgement

  // ---- the store over a restart ---------------------------------------------------------------

  // Every retained item that is not marked as recovered was submitted live.
  ghost predicate LiveOnly(subjects: Buckets, live: set<Item>) {
    forall k <- subjects :: forall item <- subjects[k] :: !item.header.recovered ==> item in live
  }

  lemma {:induction false} RestoringKeepsLive(before: Buckets, after: Buckets, item: Item, live: set<Item>)
    requires LiveOnly(before, live) && item.header.recovered && OnlyAdds(before, after, item)
    ensures LiveOnly(after, live)
  {
    OnlyRetained(before, after, item, live);
  }

  lemma {:induction false} SubmittingAddsLive(before: Buckets, after: Buckets, item: Item, live: set<Item>)
    requires LiveOnly(before, live) && OnlyAdds(before, after, item)
    ensures LiveOnly(after, live + {item})
  {
    OnlyRetained(before, after, item, live);
  }

  lemma {:induction false} OnlyRetained(before: Buckets, after: Buckets, item: Item, live: set<Item>)
    requires LiveOnly(before, live) && OnlyAdds(before, after, item)
    ensures forall k <- after :: forall x <- after[k] :: !x.header.recovered ==> x in live || x == item
  {
    forall k | k in after
      ensures forall x <- after[k] :: !x.header.recovered ==> x in live || x == item
    {
      forall x | x in after[k] && !x.header.recovered && x != item
        ensures x in live
      {
        assert x in BucketOf(before, k);
      }
    }
  }

  datatype Event = Restored(item: Item) | Submitted(item: Item)

  // A boot: the journal is loaded and evidence comes in, in any order.
  method Run(store: EvidenceStore, events: seq<Event>) returns (ghost live: set<Item>)
    requires store.Valid() && store.subjects == map[]
    modifies store, store.sources
    ensures store.Valid() && Own(store.subjects) && LiveOnly(store.subjects, live)
    ensures forall item <- live :: Submitted(item) in events
  {
    hide EvidenceStore.Valid, LiveOnly, Own, OnlyAdds, InsertedInto, Structural, Validate;
    live := {};
    NothingLive(store.subjects);
    for i := 0 to |events|
      invariant store.Valid() && Own(store.subjects) && LiveOnly(store.subjects, live)
      invariant forall item <- live :: Submitted(item) in events
    {
      ghost var before := store.subjects;
      match events[i] {
        case Restored(item) =>
          var reason := store.Restore(item);
          if reason == NoReason {
            ghost var marked := item.(header := item.header.(recovered := true));
            RestoringKeepsLive(before, store.subjects, marked, live);
            AddingKeepsOwn(before, store.subjects, marked);
          }
        case Submitted(item) =>
          var reason := store.Submit(item);
          if reason == NoReason {
            SubmittingAddsLive(before, store.subjects, item, live);
            AddingKeepsOwn(before, store.subjects, item);
            live := live + {item};
          }
      }
    }
  }

  lemma {:induction false} NothingLive(subjects: Buckets)
    requires subjects == map[]
    ensures LiveOnly(subjects, {}) && Own(subjects)
  {
  }

  // ---- no revival ------------------------------------------------------------------------------------

  // Some of the items account for the observation, and whatever does is live.
  ghost predicate FromLive(o: Observation, items: seq<Item>, s: Derivation.Settings, live: set<Item>) {
    && HasOrigin(o, items, s)
    && forall origin :: IsFrom(o, origin, items, s) ==> forall item <- Behind(origin, items) :: item in live
  }

  // No series of the snapshot has a step that loses the mark of a recovered reading.
  ghost predicate KeepsHistory(snapshot: seq<Item>, s: Derivation.Settings) {
    forall k: Derivation.SeriesKey :: NoMarkLost(Derivation.Series(Derivation.Kept(snapshot, s), k))
  }

  // Of dated items: nothing that comes from a recovered one, even in part, can ever be
  // admissible, if and only if no series of the snapshot loses a mark.
  lemma {:induction false} NothingRevives(snapshot: seq<Item>, s: Derivation.Settings)
    requires forall item <- snapshot :: item.header.observedAt != 0
    ensures var kept := Derivation.Kept(snapshot, s);
            (forall o <- Derivation.Derived(snapshot, s), origin ::
               IsFrom(o, origin, kept, s) && AnyRecovered(Behind(origin, kept)) ==> !Freshness.Usable(o))
            <==> KeepsHistory(snapshot, s)
  {
    hide Derivation.Derived, Derivation.Kept, Derivation.Series, IsFrom, Behind, AnyRecovered, NoMarkLost,
      Freshness.Usable;
    MarkedExactly(snapshot, s);
    KeptHolds(snapshot, s);
    forall o, origin | IsFrom(o, origin, Derivation.Kept(snapshot, s), s)
      ensures Freshness.Usable(o) <==> !o.recovered
    {
      DatedByItem(o, origin, Derivation.Kept(snapshot, s), s);
      Freshness.UsableExactly(o);
    }
  }

  // Whatever is admissible at any instant and under any policy was derived from live
  // submissions alone, as long as no series of the snapshot loses a mark.
  lemma {:induction false} AdmissibleMeansLive(subjects: Buckets, live: set<Item>, snapshot: seq<Item>,
                                               s: Derivation.Settings, o: Observation, now: I64,
                                               policy: Freshness.Policy, context: Freshness.Context)
    requires LiveOnly(subjects, live) && Gathered(snapshot, subjects) && KeepsHistory(snapshot, s)
    requires o in Derivation.Derived(snapshot, s) && Freshness.Assess(o, now, policy, context).admissible
    ensures FromLive(o, Derivation.Kept(snapshot, s), s, live)
  {
    hide Freshness.Assess, Derivation.Derived, Derivation.Kept, LiveOnly, KeepsHistory, IsFrom, Behind, Gathered,
      AnyRecovered;
    var kept := Derivation.Kept(snapshot, s);
    Freshness.AdmissibleIsFresh(o, now, policy, context);
    EveryObservationHasOrigin(snapshot, s);
    HistoryIsMarked(snapshot, s);
    forall origin | IsFrom(o, origin, kept, s)
      ensures forall item <- Behind(origin, kept) :: item in live
    {
      BehindIsThere(o, origin, kept, s);
      assert !AnyRecovered(Behind(origin, kept));
      UnmarkedAreLive(subjects, live, snapshot, s, Behind(origin, kept));
    }
  }

  lemma {:induction false} HistoryIsMarked(snapshot: seq<Item>, s: Derivation.Settings)
    requires KeepsHistory(snapshot, s)
    ensures HistoryMarked(snapshot, s)
  {
    hide HistoryMarked, Derivation.Kept, Derivation.Series, NoMarkLost, AllMarked;
    MarkedExactly(snapshot, s);
  }

  lemma {:induction false} UnmarkedAreLive(subjects: Buckets, live: set<Item>, snapshot: seq<Item>,
                                           s: Derivation.Settings, behind: seq<Item>)
    requires LiveOnly(subjects, live) && Gathered(snapshot, subjects) && !AnyRecovered(behind)
    requires forall item <- behind :: item in Derivation.Kept(snapshot, s)
    ensures forall item <- behind :: item in live
  {
    hide Gathered, Derivation.Kept;
    KeptHolds(snapshot, s);
    GatheredMembers(snapshot, subjects);
    forall item | item in behind
      ensures item in live
    {
      assert item in BucketOf(subjects, item.header.subject);
    }
  }

  // With nothing submitted every subject is absent or stale, at any instant and under
  // any policy, with zero totals, whatever identities the history carries.
  lemma {:induction false} HistoryIsNotLoss(subjects: Buckets, snapshot: seq<Item>, state: Engine.State,
                                            t: Engine.Topology, q: Engine.Question)
    requires LiveOnly(subjects, {}) && Gathered(snapshot, subjects)
    ensures var c := Engine.Concluded(snapshot, state, t, q);
            && (c.verdict == AbsentEvidence || c.verdict == StaleEvidence)
            && c.lost == 0 && c.offered == 0
  {
    hide Classify.Classified, Classify.Only, Freshness.Assess, Derivation.Derived, Gathered;
    var observations := Derivation.Derived(snapshot, Engine.SettingsFor(q, t));
    var selected := Classify.Only(observations, Engine.About(q.subject));
    var adm := Freshness.AdmissibleAt(q.at, q.freshness, Engine.ContextOf(state, t));
    GatheredMembers(snapshot, subjects);
    AllFromHistory(subjects, snapshot);
    RecoveredStaysRecovered(snapshot, Engine.SettingsFor(q, t));
    Judgement.OnlyHolds(observations, Engine.About(q.subject));
    forall o <- selected
      ensures !adm(o)
    {
      Freshness.AdmissibleIsFresh(o, q.at, q.freshness, Engine.ContextOf(state, t));
    }
    Judgement.AbsentAndStale(selected, adm, q.loss, q.authorities);
  }

  lemma {:induction false} AllFromHistory(subjects: Buckets, snapshot: seq<Item>)
    requires LiveOnly(subjects, {})
    requires forall item: Item :: item in snapshot <==> item in BucketOf(subjects, item.header.subject)
    ensures forall item <- snapshot :: item.header.recovered
  {
    forall item | item in snapshot
      ensures item.header.recovered
    {
      assert item in BucketOf(subjects, item.header.subject);
    }
  }

  // A boot and a derivation from the snapshot after it: what is admissible comes from
  // submitted items alone, as long as no series loses a mark.  None does where no identity
  // is retained twice, and none is while no bucket has overflowed and identities are
  // remembered for as long as items are listed.
  method BootAndDerive(store: EvidenceStore, events: seq<Event>, s: Derivation.Settings)
      returns (observations: seq<Observation>, snapshot: seq<Item>)
    requires store.Valid() && store.subjects == map[]
    modifies store, store.sources
    ensures Engine.IsSnapshot(snapshot, store.subjects) && observations == Derivation.Derived(snapshot, s)
    ensures KeepsHistory(snapshot, s) ==>
              forall o <- observations | Freshness.Usable(o) ::
                FromSubmitted(o, Derivation.Kept(snapshot, s), s, events)
    ensures Distinct(store.subjects) ==> KeepsHistory(snapshot, s)
    ensures store.evictedPerSubject == 0 && store.limits.maxItems <= store.limits.maxIds + 1 ==>
              KeepsHistory(snapshot, s)
  {
    hide EvidenceStore.Valid, LiveOnly, Own, Ordered, Gathered, Retained, IdsOf, Derivation.Derived, Derivation.Kept,
      Freshness.Assess, FromLive, FromSubmitted, KeepsHistory, DistinctIds, DistinctUntil, NoneRepeats;
    ghost var live := Run(store, events);
    snapshot := TakeSnapshot(store.subjects);
    observations := Derivation.DeriveObservations(snapshot, s);
    store.RetainedAreDistinct();
    if Distinct(store.subjects) {
      SnapshotIsDistinct(snapshot);
      DistinctKeepsHistory(snapshot, s);
    }
    forall o <- observations | KeepsHistory(snapshot, s) && Freshness.Usable(o)
      ensures FromSubmitted(o, Derivation.Kept(snapshot, s), s, events)
    {
      var now: I64, policy, context :| Freshness.Assess(o, now, policy, context).admissible;
      AdmissibleMeansLive(store.subjects, live, snapshot, s, o, now, policy, context);
      LiveWasSubmitted(o, Derivation.Kept(snapshot, s), s, live, events);
    }
  }

  ghost predicate FromSubmitted(o: Observation, items: seq<Item>, s: Derivation.Settings, events: seq<Event>) {
    && HasOrigin(o, items, s)
    && forall origin :: IsFrom(o, origin, items, s) ==>
         forall item <- Behind(origin, items) :: Submitted(item) in events
  }

  lemma {:induction false} LiveWasSubmitted(o: Observation, items: seq<Item>, s: Derivation.Settings, live: set<Item>,
                                            events: seq<Event>)
    requires FromLive(o, items, s, live) && forall item <- live :: Submitted(item) in events
    ensures FromSubmitted(o, items, s, events)
  {
    hide IsFrom, HasOrigin, Behind;
  }

  lemma {:induction false} DistinctKeepsHistory(snapshot: seq<Item>, s: Derivation.Settings)
    requires DistinctIds(snapshot)
    ensures KeepsHistory(snapshot, s)
  {
    hide Derivation.Kept, Derivation.Series, NoMarkLost, DistinctIds, AllMarked, HistoryMarked;
    DistinctKeepsMarks(snapshot, s);
    MarkedExactly(snapshot, s);
  }

  // A boot that only loads history, and any question after it.
  method BootAndConclude(engine: Engine.Engine, events: seq<Event>, q: Engine.Question)
      returns (c: Classify.Classification)
    requires engine.store.Valid() && engine.store.subjects == map[]
    modifies engine.store, engine.store.sources
    ensures (forall e <- events :: e.Restored?) ==>
              && (c.verdict == AbsentEvidence || c.verdict == StaleEvidence)
              && c.lost == 0 && c.offered == 0
  {
    hide EvidenceStore.Valid, LiveOnly, Own, Ordered, Gathered, Engine.Concluded;
    ghost var live := Run(engine.store, events);
    c := engine.Conclude(q);
    if forall e <- events :: e.Restored? {
      NoneLive(live, events);
      ghost var snapshot :| Engine.IsSnapshot(snapshot, engine.store.subjects)
                            && c == Engine.Concluded(snapshot, engine.Value(), engine.topology, q);
      HistoryIsNotLoss(engine.store.subjects, snapshot, engine.Value(), engine.topology, q);
    }
  }

  lemma {:induction false} NoneLive(live: set<Item>, events: seq<Event>)
    requires forall item <- live :: Submitted(item) in events
    requires forall e <- events :: e.Restored?
    ensures live == {}
  {
    forall item: Item
      ensures item !in live
    {
      assert item in live ==> Submitted(item) in events;
    }
  }

  // Whatever episodes the journal holds, none is open after it has been loaded.
  method RestoreEpisodes(tracker: Episodes.EpisodeTracker, history: seq<Episodes.Episode>)
    requires tracker.Valid() && tracker.episodes == map[] && tracker.open == map[]
    modifies tracker
    ensures tracker.Valid() && Episodes.AllClosed(tracker.Value())
  {
    hide Episodes.Sound, Episodes.AllClosed, Episodes.Applied;
    assert Episodes.AllClosed(tracker.Value()) by {
      NothingOpen(tracker.Value());
    }
    for i := 0 to |history|
      invariant tracker.Valid() && Episodes.AllClosed(tracker.Value())
    {
      Episodes.RecallOpensNothing(tracker.Value(), history[i], tracker.Limits());
      tracker.Restore(history[i]);
    }
  }

  lemma {:induction false} NothingOpen(t: Episodes.Tracker)
    requires t.episodes == map[] && t.open == map[]
    ensures Episodes.AllClosed(t)
  {
  }
}
