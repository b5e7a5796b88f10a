// Whether an observation may be used for current conclusions at an instant.
// Instants are far enough from the ends of the 64-bit range that differences
// between them do not overflow.
module Freshness {
  import opened Bytes
  import opened Evidence
  import opened Observation
  import opened Generation

  datatype State = Fresh | Stale | NotCurrent | FutureDated | Undated | UnknownState

  datatype StaleReason =
    | NoReason
    | AgeExceeded
    | EpochRetired
    | EpochUnknown
    | GenerationSuperseded
    | GenerationUnknown
    | RevisionChanged
    | Recovered
    | SourceUnknown
    | FromFuture
    | NoInstant
    | ReceivedFirst

  datatype Assessment = Assessment(state: State, reason: StaleReason, admissible: bool)

  datatype Policy = Policy(
    maxAge: int, futureTolerance: int, skewTolerance: int, allowFuture: bool,
    ignoreRetired: bool, ignoreGenerations: bool, ignoreRevisions: bool)

  datatype FlowBinding = FlowBinding(revision: U64, path: U64)

  // The registries, each of which may be missing: per source the epochs and
  // whether they are retired; the correlation; the declared bindings.
  datatype Context = Context(
    sources: Option<map<U64, map<U64, bool>>>,
    correlate: Option<(SubjectRef, U64, I64) -> Match>,
    topology: Option<(map<U64, FlowBinding>, map<U64, U64>)>)

  function Refused(state: State, reason: StaleReason): Assessment {
    Assessment(state, reason, false)
  }

  const ADMITTED := Assessment(Fresh, NoReason, true)

  // Each check answers none when it has nothing against the observation.
  function CheckInstants(o: Observation, policy: Policy): Option<Assessment> {
    if o.recovered then Some(Refused(NotCurrent, Recovered))
    else if o.observedAt == 0 then Some(Refused(Undated, NoInstant))
    else if o.receivedAt != 0 && o.receivedAt + policy.skewTolerance < o.observedAt then
      Some(Refused(Stale, ReceivedFirst))
    else None
  }

  function CheckAge(o: Observation, now: I64, policy: Policy): Option<Assessment> {
    var age: int := now - o.observedAt;
    if age < 0 && -age > policy.futureTolerance && !policy.allowFuture then Some(Refused(FutureDated, FromFuture))
    else if age > policy.maxAge then Some(Refused(Stale, AgeExceeded))
    else None
  }

  function CheckSource(o: Observation, policy: Policy, context: Context): Option<Assessment> {
    if context.sources.None? then None
    else if o.source !in context.sources.value then Some(Refused(UnknownState, SourceUnknown))
    else if policy.ignoreRetired then None
    else
      var epochs := context.sources.value[o.source];
      if o.epoch !in epochs then Some(Refused(Stale, EpochUnknown))
      else if epochs[o.epoch] then Some(Refused(Stale, EpochRetired))
      else None
  }

  predicate IsFlowOrPath(s: SubjectRef) {
    s.kind == Flow || s.kind == Path
  }

  function CheckGeneration(o: Observation, policy: Policy, context: Context): Option<Assessment> {
    if context.correlate.None? || policy.ignoreGenerations || !IsFlowOrPath(o.subject) then None
    else
      match context.correlate.value(o.subject, o.generation, o.observedAt)
      case Superseded => Some(Refused(Stale, GenerationSuperseded))
      case UnknownGeneration => Some(Refused(Stale, GenerationUnknown))
      case Current => None
      case NoGenerationRecorded => None
  }

  function CheckRevision(o: Observation, policy: Policy, context: Context): Option<Assessment> {
    if context.topology.None? || policy.ignoreRevisions || o.revision == 0 then None
    else
      var (flows, paths) := context.topology.value;
      var changed := Refused(Stale, RevisionChanged);
      if o.subject.kind == Flow && o.subject.id in flows then
        var flow := flows[o.subject.id];
        if flow.revision != o.revision then Some(changed)
        else if flow.path != 0 && flow.path in paths && paths[flow.path] != o.revision then Some(changed)
        else None
      else if o.subject.kind == Path && o.subject.id in paths && paths[o.subject.id] != o.revision then
        Some(changed)
      else None
  }

  // The checks in their order; the first objection decides.
  function Assess(o: Observation, now: I64, policy: Policy, context: Context): Assessment {
    var instants := CheckInstants(o, policy);
    if instants.Some? then instants.value
    else
      var age := CheckAge(o, now, policy);
      if age.Some? then age.value
      else
        var source := CheckSource(o, policy, context);
        if source.Some? then source.value
        else
          var generation := CheckGeneration(o, policy, context);
          if generation.Some? then generation.value
          else
            var revision := CheckRevision(o, policy, context);
            if revision.Some? then revision.value else ADMITTED
  }

  function AdmissibleAt(now: I64, policy: Policy, context: Context): Observation -> bool {
    (o: Observation) => Assess(o, now, policy, context).admissible
  }

  // Only fresh observations are admissible, and no recovered one ever is.
  lemma AdmissibleIsFresh(o: Observation, now: I64, policy: Policy, context: Context)
    ensures var a := Assess(o, now, policy, context);
            && (a.admissible <==> a.state == Fresh)
            && (a.admissible <==> a.reason == NoReason)
            && (o.recovered <==> a.state == NotCurrent)
            && (o.recovered ==> !a.admissible)
  {
  }

  // Dated, received no earlier than it was observed, and neither too old nor from
  // the future, each within its tolerance.
  ghost predicate Timely(o: Observation, now: I64, policy: Policy) {
    && o.observedAt != 0 && (o.receivedAt == 0 || o.observedAt <= o.receivedAt + policy.skewTolerance)
    && now <= o.observedAt + policy.maxAge
    && (policy.allowFuture || o.observedAt <= now || o.observedAt <= now + policy.futureTolerance)
  }

  // Its source is registered and its epoch was activated and is not retired.
  ghost predicate Vouched(o: Observation, policy: Policy, context: Context) {
    context.sources.Some? ==>
      && o.source in context.sources.value
      && (policy.ignoreRetired
          || (o.epoch in context.sources.value[o.source] && !context.sources.value[o.source][o.epoch]))
  }

  // Its generation is the one in force for its flow or path, or none is known.
  ghost predicate OfThisGeneration(o: Observation, policy: Policy, context: Context) {
    context.correlate.Some? && !policy.ignoreGenerations && IsFlowOrPath(o.subject) ==>
      var found := context.correlate.value(o.subject, o.generation, o.observedAt);
      found == Current || found == NoGenerationRecorded
  }

  // What was declared for its flow, the path of that flow, or its path has not been
  // revised since.
  ghost predicate Unrevised(o: Observation, policy: Policy, context: Context) {
    context.topology.Some? && !policy.ignoreRevisions && o.revision != 0 ==>
      var (flows, paths) := context.topology.value;
      && (o.subject.kind == Path && o.subject.id in paths ==> paths[o.subject.id] == o.revision)
      && (o.subject.kind == Flow && o.subject.id in flows ==>
            var flow := flows[o.subject.id];
            flow.revision == o.revision && (flow.path != 0 && flow.path in paths ==> paths[flow.path] == o.revision))
  }

  // Admissible is what no rule objects to, and each rule can be asked on its own.
  lemma AdmissibleExactly(o: Observation, now: I64, policy: Policy, context: Context)
    ensures Assess(o, now, policy, context).admissible
       <==> !o.recovered && Timely(o, now, policy) && Vouched(o, policy, context)
            && OfThisGeneration(o, policy, context) && Unrevised(o, policy, context)
  {
  }

  // Admissible at some instant, under some policy, with some registries.
  ghost predicate Usable(o: Observation) {
    exists now: I64, policy: Policy, context: Context :: Assess(o, now, policy, context).admissible
  }

  // Only the mark of recovery and a missing instant rule an observation out for good.
  lemma UsableExactly(o: Observation)
    ensures Usable(o) <==> !o.recovered && o.observedAt != 0
  {
    var skew := 0x1_0000_0000_0000_0000;
    var lenient := Policy(0, 0, skew, true, true, true, true);
    assert !o.recovered && o.observedAt != 0 ==>
        Assess(o, o.observedAt, lenient, Context(None, None, None)).admissible;
  }

  // For fixed registries the instants at which an observation is admissible form
  // one interval around its own instant, or none: it never comes back.
  lemma AdmissibleInterval(o: Observation, now: I64, policy: Policy, context: Context)
    requires exists earlier: I64 :: Assess(o, earlier, policy, context).admissible
    ensures Assess(o, now, policy, context).admissible
            <==> now <= o.observedAt + policy.maxAge
                 && (policy.allowFuture || now >= o.observedAt || now >= o.observedAt - policy.futureTolerance)
  {
    var earlier: I64 :| Assess(o, earlier, policy, context).admissible;
    assert CheckSource(o, policy, context).None? && CheckGeneration(o, policy, context).None?;
  }
}
