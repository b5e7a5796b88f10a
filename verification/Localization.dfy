// What localization promises: segments tile the path, each observation is
// charged to exactly one of them and nothing is lost, and no claim is finer than
// the evidence behind it.
module Localization {
  import opened Bytes
  import opened Evidence
  import opened Observation
  import opened Localize

  // ---- the segments tile the path --------------------------------------------------------

  // The run of the tiling that holds a position.
  lemma {:induction false} RunAround(runs: seq<Run>, n: nat, p: nat) returns (k: nat)
    requires Tiles(runs, n) && p < n
    ensures k < |runs| && runs[k].begin <= p <= runs[k].end
  {
    k := 0;
    while runs[k].end < p
      invariant k < |runs| && runs[k].begin <= p
      decreases |runs| - k
    {
      k := k + 1;
    }
  }

  lemma {:induction false} RunsGrow(runs: seq<Run>, n: nat, j: nat, k: nat)
    requires Tiles(runs, n) && j < k < |runs|
    ensures runs[j].end < runs[k].begin
    decreases k - j
  {
    if j + 1 < k {
      RunsGrow(runs, n, j, k - 1);
    }
  }

  // A segment stands for its run: the same hops, observed or not.
  ghost predicate Stands(segment: Segment, run: Run, s: Setting)
    requires run.begin <= run.end < |s.hops|
  {
    && segment.firstHop == s.hops[run.begin].index && segment.lastHop == s.hops[run.end].index
    && segment.rangeKnown && segment.lost == segment.offered == 0 && segment.count == 0
    && (segment.kind == Observed <==> run.state.observed)
    && (segment.kind == UnobservedSpan <==> !run.state.observed)
  }

  ghost predicate Standing(segments: seq<Segment>, runs: seq<Run>, s: Setting) {
    && |segments| == |runs|
    && forall k :: 0 <= k < |runs| ==>
         runs[k].begin <= runs[k].end < |s.hops| && Stands(segments[k], runs[k], s)
  }

  lemma {:induction false} SegmentsStand(observations: seq<Observation>, s: Setting, adm: Admission, judge: Judge)
    requires s.path.Some?
    ensures Standing(PathSegments(observations, s, adm, judge), RunsOf(States(observations, s, adm, judge)), s)
  {
    hide Coarsest, States, RunsOf;
    StatesSize(observations, s, adm, judge);
    RunsPartition(States(observations, s, adm, judge));
  }

  // Without truncation the segments are the maximal runs of the path: in order,
  // without gap or overlap, each hop in exactly one, neighbours told apart by
  // what was found there.
  lemma {:induction false} SegmentsTile(observations: seq<Observation>, s: Setting, adm: Admission, judge: Judge)
    requires s.path.Some? && InOrder(s.hops)
    ensures var states, segments := States(observations, s, adm, judge), PathSegments(observations, s, adm, judge);
            var runs := RunsOf(states);
            && Tiles(runs, |s.hops|) && Uniform(runs, states) && Alternate(runs)
            && Standing(segments, runs, s)
            && (forall p :: 0 <= p < |s.hops| ==> OneSegmentAt(segments, s.hops[p].index))
  {
    hide States, PathSegments, RunsOf, Tiles, Uniform, Alternate, Standing, OneSegmentAt, InOrder;
    var states, segments := States(observations, s, adm, judge), PathSegments(observations, s, adm, judge);
    StatesSize(observations, s, adm, judge);
    SegmentsStand(observations, s, adm, judge);
    RunsPartition(states);
    forall p | 0 <= p < |s.hops|
      ensures OneSegmentAt(segments, s.hops[p].index)
    {
      var k := RunAround(RunsOf(states), |s.hops|, p);
      OnlyRunAround(RunsOf(states), s, segments, p, k);
    }
  }

  ghost predicate Around(segment: Segment, index: U32) {
    segment.rangeKnown && segment.firstHop <= index <= segment.lastHop
  }

  // Exactly one segment reaches around an index.
  ghost predicate OneSegmentAt(segments: seq<Segment>, index: U32) {
    && Holding(segments, index) < |segments|
    && forall k :: 0 <= k < |segments| && Around(segments[k], index) ==> k == Holding(segments, index)
  }

  lemma {:induction false} OnlyRunAround(runs: seq<Run>, s: Setting, segments: seq<Segment>, p: nat, k: nat)
    requires InOrder(s.hops) && Tiles(runs, |s.hops|) && Standing(segments, runs, s) && p < |s.hops|
    requires k < |runs| && runs[k].begin <= p <= runs[k].end
    ensures OneSegmentAt(segments, s.hops[p].index) && Holding(segments, s.hops[p].index) == k
  {
    var index := s.hops[p].index;
    forall j | 0 <= j < |segments| && j != k
      ensures !Around(segments[j], index)
    {
      if j < k {
        RunsGrow(runs, |s.hops|, j, k);
      } else {
        RunsGrow(runs, |s.hops|, k, j);
      }
    }
    assert Around(segments[k], index);
  }

  // ---- every observation has one home --------------------------------------------------------

  // Admissible evidence finer than a path that covers some hop.
  ghost predicate Attributable(o: Observation, s: Setting, adm: Admission) {
    adm(o) && HopScoped(o) && FirstCovered(o, s, 0) < |s.hops|
  }

  lemma {:induction false} SelectedHolds(observations: seq<Observation>, p: Admission)
    ensures forall o :: o in Selected(observations, p) <==> o in observations && p(o)
  {
    if observations != [] {
      var front, last := observations[..|observations| - 1], observations[|observations| - 1];
      SelectedHolds(front, p);
      assert observations == front + [last];
    }
  }

  // An attributable observation makes the hop it is placed at an observed one.
  lemma HopIsObserved(observations: seq<Observation>, s: Setting, adm: Admission, judge: Judge, o: Observation)
    requires o in observations && Attributable(o, s, adm)
    ensures States(observations, s, adm, judge)[FirstCovered(o, s, 0)].observed
  {
    hide CoversAt, Finest;
    var p := FirstCovered(o, s, 0);
    SelectedHolds(observations, AtHop(s, adm, p));
    assert o in Selected(observations, AtHop(s, adm, p));
  }

  // It is charged to exactly one segment: the observed one around the first hop
  // it covers.
  lemma HomeIsObserved(observations: seq<Observation>, s: Setting, adm: Admission, judge: Judge, o: Observation)
    requires s.path.Some? && InOrder(s.hops) && o in observations && Attributable(o, s, adm)
    ensures var segments := PathSegments(observations, s, adm, judge);
            var k := Home(segments, s, adm, o);
            && k < |segments| && segments[k].kind == Observed
            && Around(segments[k], s.hops[FirstCovered(o, s, 0)].index)
            && OneSegmentAt(segments, s.hops[FirstCovered(o, s, 0)].index)
  {
    hide CoversAt, Finest, Selected, States, RunsOf, PathSegments, Tiles, Alternate;
    var p := FirstCovered(o, s, 0);
    var states, segments := States(observations, s, adm, judge), PathSegments(observations, s, adm, judge);
    StatesSize(observations, s, adm, judge);
    SegmentsTile(observations, s, adm, judge);
    HopIsObserved(observations, s, adm, judge, o);
    var runs := RunsOf(states);
    var k := RunAround(runs, |s.hops|, p);
    OnlyRunAround(runs, s, segments, p, k);
    assert states[p] == runs[k].state;
  }

  // Charging leaves kinds and ranges alone, so it moves no home.
  ghost predicate SameShape(a: seq<Segment>, b: seq<Segment>) {
    && |a| == |b|
    && forall k :: 0 <= k < |a| ==>
         && a[k].kind == b[k].kind && a[k].rangeKnown == b[k].rangeKnown
         && a[k].firstHop == b[k].firstHop && a[k].lastHop == b[k].lastHop
  }

  lemma SameHome(a: seq<Segment>, b: seq<Segment>, s: Setting, adm: Admission, o: Observation)
    requires SameShape(a, b)
    ensures Home(a, s, adm, o) == Home(b, s, adm, o)
  {
    hide CoversAt, HopScoped;
    if FirstCovered(o, s, 0) < |s.hops| {
      SameHolding(a, b, s.hops[FirstCovered(o, s, 0)].index);
    }
  }

  lemma SameHolding(a: seq<Segment>, b: seq<Segment>, index: U32)
    requires SameShape(a, b)
    ensures Holding(a, index) == Holding(b, index)
  {
    var j, k := Holding(a, index), Holding(b, index);
    if j < |a| {
      assert a[j].rangeKnown && b[j].firstHop <= index <= b[j].lastHop;
    }
  }

  // ---- conservation ------------------------------------------------------------------------------

  // What the observations at home in segment k add up to.
  function LostAt(segments: seq<Segment>, s: Setting, adm: Admission, observations: seq<Observation>, k: nat): nat {
    if observations == [] then 0
    else
      var last := observations[|observations| - 1];
      LostAt(segments, s, adm, observations[..|observations| - 1], k)
      + if Home(segments, s, adm, last) == k then last.lost else 0
  }

  function OfferedAt(segments: seq<Segment>, s: Setting, adm: Admission, observations: seq<Observation>, k: nat): nat {
    if observations == [] then 0
    else
      var last := observations[|observations| - 1];
      OfferedAt(segments, s, adm, observations[..|observations| - 1], k)
      + if Home(segments, s, adm, last) == k then last.offered else 0
  }

  function CountAt(segments: seq<Segment>, s: Setting, adm: Admission, observations: seq<Observation>, k: nat): nat {
    if observations == [] then 0
    else
      CountAt(segments, s, adm, observations[..|observations| - 1], k)
      + if Home(segments, s, adm, observations[|observations| - 1]) == k then 1 else 0
  }

  // As long as the sums of a segment are 64-bit words, the segment holds exactly
  // the sums over the observations that are at home in it.
  lemma {:induction false} ChargesAreSums(segments: seq<Segment>, s: Setting, adm: Admission,
                                          observations: seq<Observation>, k: nat)
    requires k < |segments| && segments[k].lost == segments[k].offered == 0 && segments[k].count == 0
    requires LostAt(segments, s, adm, observations, k) <= MAX64
    requires OfferedAt(segments, s, adm, observations, k) <= MAX64
    ensures var charged := ChargedAll(segments, s, adm, observations);
            && SameShape(segments, charged)
            && charged[k].lost == LostAt(segments, s, adm, observations, k)
            && charged[k].offered == OfferedAt(segments, s, adm, observations, k)
            && charged[k].count == CountAt(segments, s, adm, observations, k)
  {
    hide Home, Charged;
    if observations != [] {
      var front, last := observations[..|observations| - 1], observations[|observations| - 1];
      ChargesAreSums(segments, s, adm, front, k);
      var before := ChargedAll(segments, s, adm, front);
      SameHome(segments, before, s, adm, last);
      ChargeAdds(before, s, adm, last, k);
    }
  }

  lemma ChargeAdds(segments: seq<Segment>, s: Setting, adm: Admission, o: Observation, k: nat)
    requires k < |segments|
    requires Home(segments, s, adm, o) == k ==>
               segments[k].lost + o.lost <= MAX64 && segments[k].offered + o.offered <= MAX64
    ensures var charged := ChargedOne(segments, s, adm, o);
            && SameShape(segments, charged)
            && (Home(segments, s, adm, o) == k ==>
                  && charged[k].lost == segments[k].lost + o.lost
                  && charged[k].offered == segments[k].offered + o.offered
                  && charged[k].count == segments[k].count + 1)
            && (Home(segments, s, adm, o) != k ==> charged[k] == segments[k])
  {
    hide Home;
    WrapShows(segments[k].lost, o.lost);
    WrapShows(segments[k].offered, o.offered);
  }

  // Over all segments, every attributable observation is counted once.
  function Attributed(s: Setting, adm: Admission, observations: seq<Observation>): nat {
    if observations == [] then 0
    else
      var last := observations[|observations| - 1];
      Attributed(s, adm, observations[..|observations| - 1])
      + if adm(last) && HopScoped(last) && FirstCovered(last, s, 0) < |s.hops| then 1 else 0
  }

  function CountSum(segments: seq<Segment>, s: Setting, adm: Admission, observations: seq<Observation>, n: nat): nat {
    if n == 0 then 0
    else CountSum(segments, s, adm, observations, n - 1) + CountAt(segments, s, adm, observations, n - 1)
  }

  lemma {:induction false} EachCountedOnce(segments: seq<Segment>, s: Setting, adm: Admission,
                                           observations: seq<Observation>)
    requires forall o <- observations :: Attributable(o, s, adm) <==> Home(segments, s, adm, o) < |segments|
    ensures CountSum(segments, s, adm, observations, |segments|) == Attributed(s, adm, observations)
  {
    hide Home, CoversAt, HopScoped;
    if observations == [] {
      NothingCounted(segments, s, adm, |segments|);
    } else {
      var front, last := observations[..|observations| - 1], observations[|observations| - 1];
      assert last in observations && forall o <- front :: o in observations;
      EachCountedOnce(segments, s, adm, front);
      OneMoreCounted(segments, s, adm, observations, |segments|);
    }
  }

  lemma {:induction false} NothingCounted(segments: seq<Segment>, s: Setting, adm: Admission, n: nat)
    ensures CountSum(segments, s, adm, [], n) == 0
  {
    if n > 0 {
      NothingCounted(segments, s, adm, n - 1);
    }
  }

  lemma {:induction false} OneMoreCounted(segments: seq<Segment>, s: Setting, adm: Admission,
                                          observations: seq<Observation>, n: nat)
    requires observations != []
    ensures CountSum(segments, s, adm, observations, n)
         == CountSum(segments, s, adm, observations[..|observations| - 1], n)
            + if Home(segments, s, adm, observations[|observations| - 1]) < n then 1 else 0
  {
    hide Home;
    if n > 0 {
      OneMoreCounted(segments, s, adm, observations, n - 1);
    }
  }

  // The two facts together, for the segments of a path.
  lemma AttributionIsExact(observations: seq<Observation>, s: Setting, adm: Admission, judge: Judge, k: nat)
    requires s.path.Some? && InOrder(s.hops)
    requires var segments := PathSegments(observations, s, adm, judge);
             && k < |segments|
             && LostAt(segments, s, adm, observations, k) <= MAX64
             && OfferedAt(segments, s, adm, observations, k) <= MAX64
    ensures var segments := PathSegments(observations, s, adm, judge);
            var charged := ChargedAll(segments, s, adm, observations);
            && charged[k].lost == LostAt(segments, s, adm, observations, k)
            && charged[k].offered == OfferedAt(segments, s, adm, observations, k)
            && charged[k].count == CountAt(segments, s, adm, observations, k)
            && CountSum(segments, s, adm, observations, |segments|) == Attributed(s, adm, observations)
            && (charged[k].kind == UnobservedSpan ==> charged[k].count == 0)
  {
    hide Home, States, RunsOf, LostAt, OfferedAt, CountAt, CountSum, Attributed, Attributable, ChargedAll, PathSegments;
    var segments := PathSegments(observations, s, adm, judge);
    SegmentsStand(observations, s, adm, judge);
    ChargesAreSums(segments, s, adm, observations, k);
    forall o <- observations
      ensures Attributable(o, s, adm) <==> Home(segments, s, adm, o) < |segments|
    {
      if Attributable(o, s, adm) {
        HomeIsObserved(observations, s, adm, judge, o);
      } else {
        NoHome(segments, s, adm, o);
      }
    }
    EachCountedOnce(segments, s, adm, observations);
    NoneAtUnobserved(segments, s, adm, observations, k);
  }

  lemma NoHome(segments: seq<Segment>, s: Setting, adm: Admission, o: Observation)
    requires !Attributable(o, s, adm)
    ensures Home(segments, s, adm, o) == |segments|
  {
  }

  lemma {:induction false} NoneAtUnobserved(segments: seq<Segment>, s: Setting, adm: Admission,
                                            observations: seq<Observation>, k: nat)
    requires k < |segments|
    ensures segments[k].kind == UnobservedSpan ==> CountAt(segments, s, adm, observations, k) == 0
  {
    hide CoversAt;
    if observations != [] {
      NoneAtUnobserved(segments, s, adm, observations[..|observations| - 1], k);
    }
  }

  // ---- no claim is finer than the evidence -------------------------------------------------------

  predicate NoFiner(a: Granularity, b: Granularity) {
    !IsFinerThan(a, b)
  }

  // The finest granularity is that of some observation, and no other is finer.
  lemma {:induction false} FinestIsFinest(observations: seq<Observation>)
    ensures forall o <- observations :: NoFiner(o.granularity, Finest(observations))
    ensures Finest(observations) != UnknownGranularity ==>
              exists o <- observations :: o.granularity == Finest(observations)
  {
    if observations != [] {
      var front, last := observations[..|observations| - 1], observations[|observations| - 1];
      FinestIsFinest(front);
      assert observations == front + [last];
      assert last in observations && forall o <- front :: o in observations;
    }
  }

  lemma {:induction false} FewerNoFiner(observations: seq<Observation>, more: seq<Observation>)
    requires forall o <- observations :: o in more
    ensures NoFiner(Finest(observations), Finest(more))
  {
    FinestIsFinest(observations);
    FinestIsFinest(more);
    if Finest(observations) != UnknownGranularity {
      var o :| o in observations && o.granularity == Finest(observations);
      assert o in more;
    }
  }

  lemma {:induction false} CoarsestNoFiner(states: seq<HopState>, p: nat)
    requires p < |states|
    ensures NoFiner(Coarsest(states), states[p].granularity)
  {
    if p < |states| - 1 {
      CoarsestNoFiner(states[..|states| - 1], p);
    }
  }

  lemma {:induction false} CoarsestAtLeast(states: seq<HopState>)
    requires forall state <- states :: IsFinerThan(state.granularity, PathWide)
    ensures IsFinerThan(Coarsest(states), PathWide)
  {
    if states != [] {
      var front := states[..|states| - 1];
      assert states == front + [states[|states| - 1]];
      assert states[|states| - 1] in states && forall state <- front :: state in states;
      CoarsestAtLeast(front);
    }
  }

  // An observed hop has an admissible observation of its own, and its state is
  // finer than a path and no finer than the admissible evidence.
  lemma {:induction false} HopEvidence(observations: seq<Observation>, s: Setting, adm: Admission, judge: Judge, p: nat)
    requires p < |s.hops| && States(observations, s, adm, judge)[p].observed
    ensures var state := States(observations, s, adm, judge)[p];
            && IsFinerThan(state.granularity, PathWide)
            && NoFiner(state.granularity, Finest(Selected(observations, adm)))
            && exists o <- observations :: adm(o) && HopScoped(o) && CoversAt(o, s, p)
  {
    hide Selected, Finest, CoversAt;
    var own := Selected(observations, AtHop(s, adm, p));
    SelectedHolds(observations, AtHop(s, adm, p));
    SelectedHolds(observations, adm);
    FinestIsFinest(own);
    FewerNoFiner(own, Selected(observations, adm));
    assert own[0] in own;
  }

  ghost predicate Grounded(segment: Segment, observations: seq<Observation>, s: Setting, adm: Admission) {
    && NoFiner(segment.granularity, Finest(Selected(observations, adm)))
    && (segment.kind == Observed ==> segment.granularity != UnknownGranularity)
    && (segment.kind != WholeFlow)
    && (segment.subject.kind == Hop ==>
          exists o <- observations, p :: 0 <= p < |s.hops| && s.hops[p].id == segment.subject.id
            && adm(o) && HopScoped(o) && CoversAt(o, s, p))
  }

  lemma {:induction false} SegmentGrounded(observations: seq<Observation>, s: Setting, adm: Admission, judge: Judge,
                                           k: nat)
    requires s.path.Some? && k < |PathSegments(observations, s, adm, judge)|
    ensures Grounded(PathSegments(observations, s, adm, judge)[k], observations, s, adm)
  {
    hide Selected, Finest, CoversAt, States, RunsOf, Coarsest, HopScoped;
    var states := States(observations, s, adm, judge);
    StatesSize(observations, s, adm, judge);
    RunsPartition(states);
    var run := RunsOf(states)[k];
    if run.state.observed {
      var own := states[run.begin..run.end + 1];
      forall p | run.begin <= p <= run.end
        ensures IsFinerThan(states[p].granularity, PathWide)
        ensures NoFiner(states[p].granularity, Finest(Selected(observations, adm)))
      {
        assert states[p] == run.state;
        HopEvidence(observations, s, adm, judge, p);
      }
      assert forall state <- own :: IsFinerThan(state.granularity, PathWide);
      CoarsestAtLeast(own);
      CoarsestNoFiner(own, 0);
      assert states[run.begin] == run.state;
      HopEvidence(observations, s, adm, judge, run.begin);
    }
  }

  // Charging does not change what a segment claims.
  lemma {:induction false} ChargingKeepsClaims(segments: seq<Segment>, s: Setting, adm: Admission,
                                               observations: seq<Observation>, k: nat)
    requires k < |segments| && segments[k].kind != WholeFlow
    requires segments[k].kind == Observed ==> segments[k].granularity != UnknownGranularity
    ensures var charged := ChargedAll(segments, s, adm, observations)[k];
            charged.kind == segments[k].kind && charged.granularity == segments[k].granularity
            && charged.subject == segments[k].subject
  {
    hide FirstCovered, Holding, HopScoped, WrappedSum;
    if observations != [] {
      ChargingKeepsClaims(segments, s, adm, observations[..|observations| - 1], k);
    }
  }

  lemma {:induction false} HopResultGrounded(observations: seq<Observation>, s: Setting, adm: Admission, judge: Judge,
                                             cap: Granularity, limit: nat, verdict: LossClass, evidence: Granularity)
    requires s.path.Some?
    ensures var r := HopResult(observations, s, adm, judge, cap, limit, verdict, evidence);
            && NoFiner(r.achieved, evidence) && NoFiner(r.achieved, cap) && !r.clamped
            && forall segment <- r.segments :: Grounded(segment, observations, s, adm)
  {
    hide PathSegments, ChargedAll, Selected, Finest, FinestSegment, CoversAt;
    var all := PathSegments(observations, s, adm, judge);
    var kept := Kept(all, limit);
    var charged := ChargedAll(kept, s, adm, observations);
    var r := HopResult(observations, s, adm, judge, cap, limit, verdict, evidence);
    forall k | 0 <= k < |charged|
      ensures Grounded(WithRatio(charged[k]), observations, s, adm)
    {
      assert kept[k] == all[k];
      SegmentGrounded(observations, s, adm, judge, k);
      ChargingKeepsClaims(kept, s, adm, observations, k);
    }
  }

  ghost predicate NamesOnlyEvidence(r: Result, observations: seq<Observation>, s: Setting, adm: Admission) {
    && (forall segment <- r.segments :: NoFiner(segment.granularity, r.evidence))
    && (forall segment <- r.segments :: segment.subject.kind == Hop ==>
          exists o <- observations, p :: 0 <= p < |s.hops| && s.hops[p].id == segment.subject.id
            && adm(o) && HopScoped(o) && CoversAt(o, s, p))
  }

  lemma {:induction false} GroundedNames(r: Result, observations: seq<Observation>, more: seq<Observation>, s: Setting,
                                         adm: Admission)
    requires r.evidence == Finest(Selected(observations, adm))
    requires forall segment <- r.segments :: Grounded(segment, observations, s, adm)
    requires forall o <- observations :: o in more
    ensures NamesOnlyEvidence(r, more, s, adm)
  {
    hide Selected, Finest, CoversAt, HopScoped;
  }

  // On every way out: the achieved granularity is no finer than the admissible
  // evidence and no finer than the caller's cap, no segment is finer than the
  // evidence, every single hop that is named has an admissible hop-scoped
  // observation, and the defensive clamp never fires.
  lemma {:induction false} NeverFinerThanEvidence(request: Request, policyMax: nat, observations: seq<Observation>,
                                                  s: Setting, adm: Admission, judge: Judge)
    requires forall o <- observations :: adm(o) ==> o.granularity != UnknownGranularity
    requires request.cap != UnknownGranularity
    ensures var r := Localized(request, policyMax, observations, s, adm, judge);
            && NoFiner(r.achieved, r.evidence) && NoFiner(r.achieved, request.cap) && !r.clamped
            && NamesOnlyEvidence(r, observations, s, adm)
            && (r.evidence != UnknownGranularity ==>
                  exists o <- observations :: adm(o) && Relevant(o, s) && o.granularity == r.evidence)
  {
    hide HopResult, Selected, Finest, CoversAt, HopScoped, Grounded, NamesOnlyEvidence;
    var relevant := Selected(observations, IsKept(s));
    var admissible := Selected(relevant, adm);
    var r := Localized(request, policyMax, observations, s, adm, judge);
    SelectedHolds(observations, IsKept(s));
    SelectedHolds(relevant, adm);
    FinestIsFinest(admissible);
    assert r.evidence == Finest(admissible);
    if Finest(admissible) != UnknownGranularity {
      var o :| o in admissible && o.granularity == Finest(admissible);
      KeptIsRelevant(o, s);
    }
    if admissible == [] {
      NamesNothing(r, observations, s, adm);
    } else {
      assert admissible[0] in admissible;
      if s.path.None? || |s.hops| < 2
         || !IsFinerThan(CoarserOf(CoarserOf(request.cap, r.evidence), r.evidence), PathWide) {
        NamesTheWhole(request, policyMax, observations, s, adm, judge);
      } else {
        HopResultGrounded(relevant, s, adm, judge, request.cap, Limit(request, policyMax),
                          judge(SubjectRef(Flow, s.flow), relevant).verdict, r.evidence);
        GroundedNames(r, relevant, observations, s, adm);
      }
    }
  }

  lemma {:induction false} NamesNothing(r: Result, observations: seq<Observation>, s: Setting, adm: Admission)
    requires r.segments == []
    ensures NamesOnlyEvidence(r, observations, s, adm)
  {
  }

  // The exits with one segment for the flow or the path as a whole.
  lemma {:induction false} NamesTheWhole(request: Request, policyMax: nat, observations: seq<Observation>, s: Setting,
                                         adm: Admission, judge: Judge)
    requires request.cap != UnknownGranularity
    requires Selected(Selected(observations, IsKept(s)), adm) != []
    requires var evidence := Finest(Selected(Selected(observations, IsKept(s)), adm));
             && evidence != UnknownGranularity
             && (s.path.None? || |s.hops| < 2
                 || !IsFinerThan(CoarserOf(CoarserOf(request.cap, evidence), evidence), PathWide))
    ensures var r := Localized(request, policyMax, observations, s, adm, judge);
            && NoFiner(r.achieved, r.evidence) && NoFiner(r.achieved, request.cap) && !r.clamped
            && NamesOnlyEvidence(r, observations, s, adm)
  {
    hide HopResult, Selected, Finest, CoversAt, HopScoped;
    var r := Localized(request, policyMax, observations, s, adm, judge);
    assert |r.segments| == 1;
    assert r.segments[0].subject.kind != Hop && NoFiner(r.segments[0].granularity, r.evidence);
  }
}
