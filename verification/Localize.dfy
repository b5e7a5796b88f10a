// Localization of loss on a declared path: which hops the evidence speaks
// about, the runs of hops that look alike, and the attribution of observations
// to the segments made of them.
module Localize {
  import opened Bytes
  import opened Evidence
  import opened Observation

  datatype PathHop = PathHop(id: U64, index: U32, node: U64, ingressPort: U64, egressPort: U64,
                             ingressLink: U64, egressLink: U64)

  // The flow asked about, its path and the declared queues.  "path" is none when
  // the flow or its path is not declared.
  datatype Setting = Setting(flow: U64, path: Option<U64>, hops: seq<PathHop>, queues: map<U64, (U64, U64)>)

  // What a classifier says about some observations of a subject.
  datatype Summary = Summary(verdict: LossClass, lost: U64, offered: U64, ratioDefined: bool, ratioBp: U32,
                             admissible: nat)

  type Judge = (SubjectRef, seq<Observation>) -> Summary
  type Admission = Observation -> bool

  datatype SegmentKind = Observed | WholeFlow | UnobservedSpan

  datatype Segment = Segment(
    kind: SegmentKind, granularity: Granularity, subject: SubjectRef,
    firstHop: U32, lastHop: U32, rangeKnown: bool, verdict: LossClass,
    lost: U64, offered: U64, ratioDefined: bool, ratioBp: U32, count: nat)

  datatype Result = Result(
    verdict: LossClass, achieved: Granularity, evidence: Granularity, truncated: bool, clamped: bool,
    segments: seq<Segment>)

  // Declared paths have their hops in order, no index twice.
  ghost predicate InOrder(hops: seq<PathHop>) {
    forall i, j :: 0 <= i < j < |hops| ==> hops[i].index < hops[j].index
  }

  // ---- coverage -----------------------------------------------------------------------------

  // The first hop with this identity.
  function HopPlace(hops: seq<PathHop>, id: U64): (k: nat)
    ensures k <= |hops|
    ensures k < |hops| ==> hops[k].id == id
  {
    if hops == [] then 0 else if hops[0].id == id then 0 else 1 + HopPlace(hops[1..], id)
  }

  // Whether an observation speaks about the hop at a position.
  predicate CoversAt(o: Observation, s: Setting, p: nat)
    requires p < |s.hops|
  {
    var hop := s.hops[p];
    match o.subject.kind
    case Flow => o.subject.id == s.flow
    case Path => s.path == Some(o.subject.id)
    case Hop => p == HopPlace(s.hops, o.subject.id)
    case Link => hop.ingressLink == o.subject.id || hop.egressLink == o.subject.id
    case Queue =>
      && o.subject.id in s.queues
      && hop.node == s.queues[o.subject.id].0
      && (hop.egressPort == s.queues[o.subject.id].1 || hop.ingressPort == s.queues[o.subject.id].1)
    case Source => false
    case UnknownSubject => false
  }

  // Flow and path observations are kept even when they cover no hop.
  ghost predicate Relevant(o: Observation, s: Setting) {
    o.subject.kind == Flow || o.subject.kind == Path || exists p :: 0 <= p < |s.hops| && CoversAt(o, s, p)
  }

  // Evidence finer than a path may be attributed to a hop.
  predicate HopScoped(o: Observation) {
    IsFinerThan(o.granularity, PathWide)
  }

  method Coverage(o: Observation, s: Setting) returns (covered: seq<U32>)
    requires InOrder(s.hops)
    ensures forall p :: 0 <= p < |s.hops| ==> (s.hops[p].index in covered <==> CoversAt(o, s, p))
    ensures forall x <- covered :: exists p :: 0 <= p < |s.hops| && s.hops[p].index == x
    ensures forall i, j :: 0 <= i < j < |covered| ==> covered[i] < covered[j]
  {
    covered := [];
    for p := 0 to |s.hops|
      invariant forall k :: 0 <= k < p ==> (s.hops[k].index in covered <==> CoversAt(o, s, k))
      invariant forall x <- covered :: exists k :: 0 <= k < p && s.hops[k].index == x
      invariant forall i, j :: 0 <= i < j < |covered| ==> covered[i] < covered[j]
    {
      forall x <- covered
        ensures x < s.hops[p].index
      {
        var k :| 0 <= k < p && s.hops[k].index == x;
      }
      if CoversAt(o, s, p) {
        ghost var before := covered;
        covered := covered + [s.hops[p].index];
        assert forall x :: x in covered <==> x in before || x == s.hops[p].index;
        assert forall i :: 0 <= i < |before| ==> covered[i] == before[i] && before[i] in before;
      }
    }
  }

  // ---- what each hop has -----------------------------------------------------------------------

  function Selected(observations: seq<Observation>, p: Observation -> bool): seq<Observation> {
    if observations == [] then []
    else
      var front, last := Selected(observations[..|observations| - 1], p), observations[|observations| - 1];
      if p(last) then front + [last] else front
  }

  function AtHop(s: Setting, adm: Admission, p: nat): Observation -> bool
    requires p < |s.hops|
  {
    (o: Observation) => adm(o) && HopScoped(o) && CoversAt(o, s, p)
  }

  function Finest(observations: seq<Observation>): Granularity {
    if observations == [] then UnknownGranularity
    else FinerOf(Finest(observations[..|observations| - 1]), observations[|observations| - 1].granularity)
  }

  datatype HopState = HopState(observed: bool, verdict: LossClass, granularity: Granularity)

  const UNOBSERVED := HopState(false, UnknownClass, UnknownGranularity)

  function StateAt(observations: seq<Observation>, s: Setting, adm: Admission, judge: Judge, p: nat): HopState
    requires p < |s.hops|
  {
    var own := Selected(observations, AtHop(s, adm, p));
    if own == [] then UNOBSERVED
    else HopState(true, judge(SubjectRef(Hop, s.hops[p].id), own).verdict, Finest(own))
  }

  function States(observations: seq<Observation>, s: Setting, adm: Admission, judge: Judge): seq<HopState> {
    seq(|s.hops|, p requires 0 <= p < |s.hops| => StateAt(observations, s, adm, judge, p))
  }

  // ---- runs ------------------------------------------------------------------------------------

  datatype Run = Run(begin: nat, end: nat, state: HopState)

  function Extended(runs: seq<Run>, p: nat, state: HopState): seq<Run> {
    if runs != [] && runs[|runs| - 1].state == state then
      runs[|runs| - 1 := runs[|runs| - 1].(end := p)]
    else runs + [Run(p, p, state)]
  }

  function RunsOf(states: seq<HopState>): seq<Run> {
    if states == [] then []
    else Extended(RunsOf(states[..|states| - 1]), |states| - 1, states[|states| - 1])
  }

  // Consecutive, non-overlapping, covering everything.
  ghost predicate Tiles(runs: seq<Run>, n: nat) {
    && (n == 0 <==> runs == [])
    && (runs != [] ==> runs[0].begin == 0 && runs[|runs| - 1].end == n - 1)
    && (forall k :: 0 <= k < |runs| ==> runs[k].begin <= runs[k].end < n)
    && (forall k :: 1 <= k < |runs| ==> runs[k].begin == runs[k - 1].end + 1)
  }

  // Each run is made of hops that look alike.
  ghost predicate Uniform(runs: seq<Run>, states: seq<HopState>) {
    forall k, p :: 0 <= k < |runs| && runs[k].begin <= p <= runs[k].end && p < |states| ==> states[p] == runs[k].state
  }

  // Neighbours do not look alike, so no run could be longer.
  ghost predicate Alternate(runs: seq<Run>) {
    forall k :: 1 <= k < |runs| ==> runs[k].state != runs[k - 1].state
  }

  lemma ExtendedTiles(runs: seq<Run>, n: nat, state: HopState)
    requires Tiles(runs, n)
    ensures Tiles(Extended(runs, n, state), n + 1)
  {
  }

  lemma ExtendedUniform(runs: seq<Run>, states: seq<HopState>, state: HopState)
    requires Tiles(runs, |states|) && Uniform(runs, states)
    ensures Uniform(Extended(runs, |states|, state), states + [state])
  {
  }

  lemma ExtendedAlternate(runs: seq<Run>, n: nat, state: HopState)
    requires Alternate(runs)
    ensures Alternate(Extended(runs, n, state))
  {
  }

  // The runs partition the path into maximal stretches of hops that look alike.
  lemma {:induction false} RunsPartition(states: seq<HopState>)
    ensures var runs := RunsOf(states);
            Tiles(runs, |states|) && Uniform(runs, states) && Alternate(runs)
  {
    hide Tiles, Uniform, Alternate, Extended;
    if states == [] {
      NoRuns();
    } else {
      var front, last := states[..|states| - 1], states[|states| - 1];
      RunsPartition(front);
      ExtendedTiles(RunsOf(front), |front|, last);
      ExtendedUniform(RunsOf(front), front, last);
      ExtendedAlternate(RunsOf(front), |front|, last);
      assert states == front + [last];
    }
  }

  lemma NoRuns()
    ensures Tiles([], 0) && Uniform([], []) && Alternate([])
  {
  }

  ghost predicate BlankUnlessObserved(states: seq<HopState>) {
    forall state <- states :: !state.observed ==> state == UNOBSERVED
  }

  method BuildRuns(states: seq<HopState>) returns (runs: seq<Run>)
    requires BlankUnlessObserved(states)
    ensures runs == RunsOf(states)
  {
    runs := [];
    for p := 0 to |states|
      invariant runs == RunsOf(states[..p])
    {
      assert states[..p + 1][..p] == states[..p];
      var state := if states[p].observed then states[p] else UNOBSERVED;
      if runs != [] && runs[|runs| - 1].state == state {
        runs := runs[|runs| - 1 := runs[|runs| - 1].(end := p)];
      } else {
        runs := runs + [Run(p, p, state)];
      }
    }
    assert states[..|states|] == states;
  }

  // ---- segments --------------------------------------------------------------------------------

  const BLANK := Segment(Observed, UnknownGranularity, SubjectRef(UnknownSubject, 0), 0, 0, false, UnknownClass,
                         0, 0, false, 0, 0)

  // The coarsest granularity of a stretch of hops, starting from the finest there is.
  function Coarsest(states: seq<HopState>): Granularity {
    if states == [] then QueueWide
    else CoarserOf(Coarsest(states[..|states| - 1]), states[|states| - 1].granularity)
  }

  function SegmentOf(run: Run, states: seq<HopState>, s: Setting): Segment
    requires run.begin <= run.end < |states| == |s.hops| && s.path.Some?
  {
    var base := BLANK.(firstHop := s.hops[run.begin].index, lastHop := s.hops[run.end].index, rangeKnown := true);
    if run.state.observed then
      var coarsest := Coarsest(states[run.begin..run.end + 1]);
      base.(kind := Observed, verdict := run.state.verdict,
            granularity := if coarsest == UnknownGranularity then FlowWide else coarsest,
            subject := if run.begin == run.end then SubjectRef(Hop, s.hops[run.begin].id)
                       else SubjectRef(Path, s.path.value))
    else
      base.(kind := UnobservedSpan, verdict := IncompleteEvidence, granularity := UnknownGranularity,
            subject := SubjectRef(Path, s.path.value))
  }

  function SegmentsOf(runs: seq<Run>, states: seq<HopState>, s: Setting): (segments: seq<Segment>)
    requires |states| == |s.hops| && s.path.Some?
    requires forall k :: 0 <= k < |runs| ==> runs[k].begin <= runs[k].end < |states|
    ensures |segments| == |runs|
  {
    seq(|runs|, k requires 0 <= k < |runs| => SegmentOf(runs[k], states, s))
  }

  // ---- attribution -----------------------------------------------------------------------------

  // The first hop an observation covers, or one past the last.
  function FirstCovered(o: Observation, s: Setting, from: nat): (p: nat)
    requires from <= |s.hops|
    ensures from <= p <= |s.hops|
    ensures p < |s.hops| ==> CoversAt(o, s, p)
    ensures forall q :: from <= q < p ==> !CoversAt(o, s, q)
    decreases |s.hops| - from
  {
    if from == |s.hops| || CoversAt(o, s, from) then from else FirstCovered(o, s, from + 1)
  }

  // The first segment with a known range around an index.
  function Holding(segments: seq<Segment>, index: U32): (k: nat)
    ensures k <= |segments|
    ensures k < |segments| ==>
              segments[k].rangeKnown && segments[k].firstHop <= index <= segments[k].lastHop
    ensures forall j :: 0 <= j < k ==>
              !(segments[j].rangeKnown && segments[j].firstHop <= index <= segments[j].lastHop)
  {
    if segments == [] then 0
    else if segments[0].rangeKnown && segments[0].firstHop <= index <= segments[0].lastHop then 0
    else 1 + Holding(segments[1..], index)
  }

  function Charged(segment: Segment, o: Observation): Segment {
    var lost, offered := WrappedSum(segment.lost, o.lost), WrappedSum(segment.offered, o.offered);
    var wrapped := lost < segment.lost || offered < segment.offered;
    segment.(lost := if wrapped then MAX64 else lost, offered := if wrapped then MAX64 else offered,
             ratioDefined := segment.ratioDefined || o.ratioDefined, count := segment.count + 1,
             granularity := if segment.granularity == UnknownGranularity then o.granularity else segment.granularity)
  }

  // The segment an observation is charged to, if any.
  function Home(segments: seq<Segment>, s: Setting, adm: Admission, o: Observation): (k: nat)
    ensures k <= |segments|
  {
    var p := FirstCovered(o, s, 0);
    if !adm(o) || !HopScoped(o) || p == |s.hops| then |segments|
    else
      var k := Holding(segments, s.hops[p].index);
      if k < |segments| && segments[k].kind == UnobservedSpan then |segments| else k
  }

  function ChargedOne(segments: seq<Segment>, s: Setting, adm: Admission, o: Observation): (t: seq<Segment>)
    ensures |t| == |segments|
  {
    var k := Home(segments, s, adm, o);
    if k == |segments| then segments else segments[k := Charged(segments[k], o)]
  }

  function ChargedAll(segments: seq<Segment>, s: Setting, adm: Admission, observations: seq<Observation>)
      : (t: seq<Segment>)
    ensures |t| == |segments|
  {
    if observations == [] then segments
    else ChargedOne(ChargedAll(segments, s, adm, observations[..|observations| - 1]), s, adm,
                    observations[|observations| - 1])
  }

  method Attribute(segments: seq<Segment>, s: Setting, adm: Admission, observations: seq<Observation>)
      returns (charged: seq<Segment>)
    requires InOrder(s.hops)
    ensures charged == ChargedAll(segments, s, adm, observations)
  {
    charged := segments;
    for i := 0 to |observations|
      invariant charged == ChargedAll(segments, s, adm, observations[..i])
    {
      var o := observations[i];
      assert observations[..i + 1][..i] == observations[..i];
      if adm(o) && HopScoped(o) {
        var covered := Coverage(o, s);
        var lowest := LowestPlace(covered, o, s);
        if lowest < |s.hops| {
          charged := ChargeSegment(charged, s.hops[lowest].index, o);
        }
      }
    }
    assert observations[..|observations|] == observations;
  }

  // The lowest position among the covered indices.
  method LowestPlace(covered: seq<U32>, o: Observation, s: Setting) returns (lowest: nat)
    requires InOrder(s.hops)
    requires forall p :: 0 <= p < |s.hops| ==> (s.hops[p].index in covered <==> CoversAt(o, s, p))
    requires forall x <- covered :: exists p :: 0 <= p < |s.hops| && s.hops[p].index == x
    ensures lowest == FirstCovered(o, s, 0)
  {
    lowest := |s.hops|;
    for i := 0 to |covered|
      invariant lowest <= |s.hops|
      invariant lowest < |s.hops| ==> s.hops[lowest].index in covered
      invariant forall p :: 0 <= p < |s.hops| && s.hops[p].index in covered[..i] ==> lowest <= p
    {
      assert covered[i] in covered;
      var place := PlaceOf(covered[i], s);
      assert covered[..i + 1] == covered[..i] + [covered[i]];
      if place < lowest {
        lowest := place;
      }
    }
    assert covered[..|covered|] == covered;
  }

  method PlaceOf(index: U32, s: Setting) returns (place: nat)
    requires InOrder(s.hops) && exists p :: 0 <= p < |s.hops| && s.hops[p].index == index
    ensures place < |s.hops| && s.hops[place].index == index
    ensures forall p :: 0 <= p < |s.hops| && s.hops[p].index == index ==> p == place
  {
    place := 0;
    while s.hops[place].index != index
      invariant place < |s.hops| && forall p :: 0 <= p < place ==> s.hops[p].index != index
      invariant exists p :: place <= p < |s.hops| && s.hops[p].index == index
    {
      place := place + 1;
    }
  }

  method ChargeSegment(segments: seq<Segment>, index: U32, o: Observation) returns (charged: seq<Segment>)
    ensures var k := Holding(segments, index);
            charged == if k == |segments| || segments[k].kind == UnobservedSpan then segments
                       else segments[k := Charged(segments[k], o)]
  {
    hide Charged;
    charged := segments;
    var k := 0;
    while k < |segments| && !(segments[k].rangeKnown && segments[k].firstHop <= index <= segments[k].lastHop)
      invariant k <= |segments|
      invariant forall j :: 0 <= j < k ==>
                  !(segments[j].rangeKnown && segments[j].firstHop <= index <= segments[j].lastHop)
    {
      k := k + 1;
    }
    if k < |segments| && segments[k].kind != UnobservedSpan {
      charged := segments[k := Charged(segments[k], o)];
    }
  }

  // ---- the whole result ---------------------------------------------------------------------------

  datatype Request = Request(cap: Granularity, maxSegments: nat)

  function Limit(request: Request, policyMax: nat): nat {
    var requested := if request.maxSegments == 0 then policyMax else request.maxSegments;
    if requested <= policyMax then requested else policyMax
  }

  function IsKept(s: Setting): Admission {
    (o: Observation) => o.subject.kind == Flow || o.subject.kind == Path || FirstCovered(o, s, 0) < |s.hops|
  }

  lemma KeptIsRelevant(o: Observation, s: Setting)
    ensures IsKept(s)(o) <==> Relevant(o, s)
  {
  }

  // One segment for the flow or the path as a whole.
  function Whole(granularity: Granularity, subject: SubjectRef, a: Summary): Segment {
    BLANK.(kind := WholeFlow, granularity := granularity, subject := subject, verdict := a.verdict,
           lost := a.lost, offered := a.offered, ratioDefined := a.ratioDefined, ratioBp := a.ratioBp,
           count := a.admissible)
  }

  function WithRatio(segment: Segment): Segment {
    if segment.kind == UnobservedSpan || segment.offered == 0 then segment
    else segment.(ratioBp := RatioBp(segment.lost, segment.offered), ratioDefined := true)
  }

  function WithRatios(segments: seq<Segment>): (t: seq<Segment>)
    ensures |t| == |segments|
    ensures forall k :: 0 <= k < |segments| ==> t[k] == WithRatio(segments[k])
  {
    seq(|segments|, k requires 0 <= k < |segments| => WithRatio(segments[k]))
  }

  function FinestSegment(segments: seq<Segment>): Granularity {
    if segments == [] then UnknownGranularity
    else
      var rest, last := FinestSegment(segments[..|segments| - 1]), segments[|segments| - 1];
      if last.kind == UnobservedSpan then rest else FinerOf(rest, last.granularity)
  }

  // The claim is clamped to the evidence and to the caller's cap once more.
  function Clamped(achieved: Granularity, evidence: Granularity, cap: Granularity): (Granularity, bool) {
    var claim := CoarserOf(if achieved == UnknownGranularity then FlowWide else achieved,
                           CoarserOf(CoarserOf(cap, evidence), evidence));
    if IsFinerThan(claim, evidence) || IsFinerThan(claim, cap) then (CoarserOf(evidence, cap), true)
    else (claim, false)
  }

  // The segments of the path before anything is attributed to them.
  function PathSegments(observations: seq<Observation>, s: Setting, adm: Admission, judge: Judge): seq<Segment>
    requires s.path.Some?
  {
    var states := States(observations, s, adm, judge);
    RunsPartition(states);
    SegmentsOf(RunsOf(states), states, s)
  }

  function Concluded(charged: seq<Segment>, cap: Granularity, truncated: bool, verdict: LossClass,
                     evidence: Granularity): Result {
    var segments := WithRatios(charged);
    var (achieved, clamped) := Clamped(FinestSegment(segments), evidence, cap);
    Result(verdict, achieved, evidence, truncated, clamped, segments)
  }

  function HopResult(observations: seq<Observation>, s: Setting, adm: Admission, judge: Judge, cap: Granularity,
                     limit: nat, verdict: LossClass, evidence: Granularity): (r: Result)
    requires s.path.Some?
    ensures r.evidence == evidence
  {
    hide Clamped, FinestSegment;
    var all := PathSegments(observations, s, adm, judge);
    Concluded(ChargedAll(Kept(all, limit), s, adm, observations), cap, |all| > limit, verdict, evidence)
  }

  function Kept(segments: seq<Segment>, limit: nat): seq<Segment> {
    if |segments| > limit then segments[..limit] else segments
  }

  function Localized(request: Request, policyMax: nat, observations: seq<Observation>, s: Setting, adm: Admission,
                     judge: Judge): Result {
    var relevant := Selected(observations, IsKept(s));
    var admissible := Selected(relevant, adm);
    var aggregate := judge(SubjectRef(Flow, s.flow), relevant);
    var evidence := Finest(admissible);
    var cap := CoarserOf(request.cap, evidence);
    if admissible == [] then
      Result(aggregate.verdict, UnknownGranularity, evidence, false, false, [])
    else if s.path.None? || |s.hops| < 2 then
      var whole := Whole(CoarserOf(cap, FlowWide), SubjectRef(Flow, s.flow), aggregate);
      Result(aggregate.verdict, FlowWide, evidence, false, false, [whole])
    else if !IsFinerThan(CoarserOf(cap, evidence), PathWide) then
      var achieved := CoarserOf(cap, evidence);
      var subject := if achieved == PathWide then SubjectRef(Path, s.path.value) else SubjectRef(Flow, s.flow);
      var whole := Whole(achieved, subject, aggregate).(rangeKnown := true, firstHop := s.hops[0].index,
                                                        lastHop := s.hops[|s.hops| - 1].index);
      Result(aggregate.verdict, achieved, evidence, false, false, [whole])
    else
      HopResult(relevant, s, adm, judge, request.cap, Limit(request, policyMax), aggregate.verdict, evidence)
  }

  method SelectWhere(observations: seq<Observation>, p: Admission) returns (selected: seq<Observation>)
    ensures selected == Selected(observations, p)
  {
    selected := [];
    for i := 0 to |observations|
      invariant selected == Selected(observations[..i], p)
    {
      assert observations[..i + 1][..i] == observations[..i];
      if p(observations[i]) {
        selected := selected + [observations[i]];
      }
    }
    assert observations[..|observations|] == observations;
  }

  method FinestOf(observations: seq<Observation>) returns (g: Granularity)
    ensures g == Finest(observations)
  {
    g := UnknownGranularity;
    for i := 0 to |observations|
      invariant g == Finest(observations[..i])
    {
      assert observations[..i + 1][..i] == observations[..i];
      g := FinerOf(g, observations[i].granularity);
    }
    assert observations[..|observations|] == observations;
  }

  method ClassifyHops(observations: seq<Observation>, s: Setting, adm: Admission, judge: Judge)
      returns (states: seq<HopState>)
    ensures states == States(observations, s, adm, judge)
    ensures BlankUnlessObserved(states)
  {
    hide Selected, Finest, AtHop;
    states := [];
    for p := 0 to |s.hops|
      invariant |states| == p
      invariant forall k :: 0 <= k < p ==> states[k] == StateAt(observations, s, adm, judge, k)
    {
      var own := SelectWhere(observations, AtHop(s, adm, p));
      if own == [] {
        states := states + [UNOBSERVED];
      } else {
        var granularity := FinestOf(own);
        states := states + [HopState(true, judge(SubjectRef(Hop, s.hops[p].id), own).verdict, granularity)];
      }
    }
    assert states == States(observations, s, adm, judge);
  }

  method CoarsestOf(states: seq<HopState>, from: nat, to: nat) returns (g: Granularity)
    requires from <= to < |states|
    ensures g == Coarsest(states[from..to + 1])
  {
    g := QueueWide;
    for p := from to to + 1
      invariant g == Coarsest(states[from..p])
    {
      assert states[from..p + 1][..p - from] == states[from..p];
      g := CoarserOf(g, states[p].granularity);
    }
  }

  method BuildSegments(runs: seq<Run>, states: seq<HopState>, s: Setting) returns (segments: seq<Segment>)
    requires |states| == |s.hops| && s.path.Some?
    requires forall k :: 0 <= k < |runs| ==> runs[k].begin <= runs[k].end < |states|
    ensures segments == SegmentsOf(runs, states, s)
  {
    hide Coarsest;
    segments := [];
    for k := 0 to |runs|
      invariant |segments| == k
      invariant forall j :: 0 <= j < k ==> segments[j] == SegmentOf(runs[j], states, s)
    {
      var run := runs[k];
      var segment := BLANK.(firstHop := s.hops[run.begin].index, lastHop := s.hops[run.end].index,
                            rangeKnown := true);
      if run.state.observed {
        var coarsest := CoarsestOf(states, run.begin, run.end);
        if coarsest == UnknownGranularity {
          coarsest := FlowWide;
        }
        segment := segment.(kind := Observed, verdict := run.state.verdict, granularity := coarsest,
                            subject := if run.begin == run.end then SubjectRef(Hop, s.hops[run.begin].id)
                                       else SubjectRef(Path, s.path.value));
      } else {
        segment := segment.(kind := UnobservedSpan, verdict := IncompleteEvidence,
                            granularity := UnknownGranularity, subject := SubjectRef(Path, s.path.value));
      }
      segments := segments + [segment];
    }
  }

  method Finish(charged: seq<Segment>) returns (segments: seq<Segment>, achieved: Granularity)
    ensures segments == WithRatios(charged)
    ensures achieved == FinestSegment(segments)
  {
    segments, achieved := [], UnknownGranularity;
    for k := 0 to |charged|
      invariant |segments| == k && forall j :: 0 <= j < k ==> segments[j] == WithRatio(charged[j])
      invariant achieved == FinestSegment(segments)
    {
      ghost var before := segments;
      segments := segments + [WithRatio(charged[k])];
      assert segments[..k] == before;
      if charged[k].kind != UnobservedSpan {
        achieved := FinerOf(achieved, segments[k].granularity);
      }
    }
  }

  method BuildPath(observations: seq<Observation>, s: Setting, adm: Admission, judge: Judge)
      returns (segments: seq<Segment>)
    requires s.path.Some?
    ensures segments == PathSegments(observations, s, adm, judge)
  {
    hide States, RunsOf, SegmentsOf, Uniform, Alternate;
    var states := ClassifyHops(observations, s, adm, judge);
    StatesSize(observations, s, adm, judge);
    var runs := BuildRuns(states);
    RunsPartition(states);
    segments := BuildSegments(runs, states, s);
  }

  method LocalizeHops(observations: seq<Observation>, s: Setting, adm: Admission, judge: Judge, cap: Granularity,
                      limit: nat, verdict: LossClass, evidence: Granularity) returns (r: Result)
    requires InOrder(s.hops) && s.path.Some? && |s.hops| >= 2
    ensures r == HopResult(observations, s, adm, judge, cap, limit, verdict, evidence)
  {
    hide PathSegments, ChargedAll, Concluded, InOrder, Kept;
    var all := BuildPath(observations, s, adm, judge);
    var truncated := |all| > limit;
    var charged := Attribute(Kept(all, limit), s, adm, observations);
    r := Conclude(charged, cap, truncated, verdict, evidence);
  }

  method Conclude(charged: seq<Segment>, cap: Granularity, truncated: bool, verdict: LossClass, evidence: Granularity)
      returns (r: Result)
    ensures r == Concluded(charged, cap, truncated, verdict, evidence)
  {
    hide FinestSegment, WithRatio, WithRatios, Clamped;
    var segments, achieved := Finish(charged);
    var (claim, clamped) := Clamped(achieved, evidence, cap);
    r := Result(verdict, claim, evidence, truncated, clamped, segments);
  }

  lemma StatesSize(observations: seq<Observation>, s: Setting, adm: Admission, judge: Judge)
    ensures |States(observations, s, adm, judge)| == |s.hops|
  {
  }

  method Localize(request: Request, policyMax: nat, observations: seq<Observation>, s: Setting, adm: Admission,
                  judge: Judge) returns (r: Result)
    requires InOrder(s.hops)
    ensures r == Localized(request, policyMax, observations, s, adm, judge)
  {
    hide HopResult, Selected, Finest;
    var relevant := SelectRelevant(observations, s);
    var admissible := SelectWhere(relevant, adm);
    var aggregate := judge(SubjectRef(Flow, s.flow), relevant);
    var evidence := FinestOf(admissible);
    if admissible == [] {
      return Result(aggregate.verdict, UnknownGranularity, evidence, false, false, []);
    }
    var cap := CoarserOf(request.cap, evidence);
    if s.path.None? || |s.hops| < 2 {
      var whole := Whole(CoarserOf(cap, FlowWide), SubjectRef(Flow, s.flow), aggregate);
      return Result(aggregate.verdict, FlowWide, evidence, false, false, [whole]);
    }
    var attribution := CoarserOf(cap, evidence);
    if !IsFinerThan(attribution, PathWide) {
      var subject := if attribution == PathWide then SubjectRef(Path, s.path.value) else SubjectRef(Flow, s.flow);
      var whole := Whole(attribution, subject, aggregate).(rangeKnown := true, firstHop := s.hops[0].index,
                                                           lastHop := s.hops[|s.hops| - 1].index);
      return Result(aggregate.verdict, attribution, evidence, false, false, [whole]);
    }
    r := LocalizeHops(relevant, s, adm, judge, request.cap, Limit(request, policyMax), aggregate.verdict, evidence);
  }

  lemma SomethingCovered(covered: seq<U32>, o: Observation, s: Setting)
    requires forall p :: 0 <= p < |s.hops| ==> (s.hops[p].index in covered <==> CoversAt(o, s, p))
    requires forall x <- covered :: exists p :: 0 <= p < |s.hops| && s.hops[p].index == x
    ensures covered != [] <==> FirstCovered(o, s, 0) < |s.hops|
  {
    if covered != [] {
      assert covered[0] in covered;
    }
  }

  method SelectRelevant(observations: seq<Observation>, s: Setting) returns (relevant: seq<Observation>)
    requires InOrder(s.hops)
    ensures relevant == Selected(observations, IsKept(s))
  {
    hide CoversAt;
    relevant := [];
    for i := 0 to |observations|
      invariant relevant == Selected(observations[..i], IsKept(s))
    {
      var o := observations[i];
      assert observations[..i + 1][..i] == observations[..i];
      var covered := Coverage(o, s);
      SomethingCovered(covered, o, s);
      if o.subject.kind == Flow || o.subject.kind == Path || covered != [] {
        relevant := relevant + [o];
      }
    }
    assert observations[..|observations|] == observations;
  }
}
