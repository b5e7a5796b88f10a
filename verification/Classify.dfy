// From observations to a verdict: the tally, the claims of the sources and the
// decision ladder.  Which observations are admissible is decided elsewhere.
module Classify {
  import opened Bytes
  import opened Evidence
  import opened Observation
  import opened Conflict

  datatype Policy = Policy(
    confirmedBp: U32, suspectedBp: U32, minConfirm: U64, minAbsence: U64, toleranceBp: U32,
    directConfirms: bool)

  // The flags a tally can carry.
  datatype Mark =
    | OfferedKnown
    | RatioSeen
    | DirectSeen
    | DirectPositive
    | ValidDirect
    | ValidRatio
    | ValidNonLoss
    | SawDiscontinuity
    | SawImplausible
    | SawInsufficient
    | SawUnsupported
    | SawUndefinedRatio
    | Saturated

  datatype Tally = Tally(lost: U64, offered: U64, marks: set<Mark>)

  const EMPTY := Tally(0, 0, {})

  type Admission = Observation -> bool
  type Authorities = U64 -> Authority

  // ---- the tally -----------------------------------------------------------------------

  function AddDirect(t: Tally, o: Observation): Tally {
    var lost := WrappedSum(t.lost, o.lost);
    var wrapped := lost < t.lost;
    Tally(if wrapped then MAX64 else lost, t.offered,
          t.marks + {DirectSeen, ValidDirect} + (if wrapped then {Saturated} else {})
          + (if o.lost > 0 then {DirectPositive} else {}))
  }

  function AddRatio(t: Tally, o: Observation): Tally {
    if !o.ratioDefined then t.(marks := t.marks + {RatioSeen, SawUndefinedRatio})
    else
      var lost, offered := WrappedSum(t.lost, o.lost), WrappedSum(t.offered, o.offered);
      var wrapped := lost < t.lost || offered < t.offered;
      Tally(if wrapped then MAX64 else lost, if wrapped then MAX64 else offered,
            t.marks + {RatioSeen, ValidRatio, OfferedKnown} + (if wrapped then {Saturated} else {}))
  }

  function Add(t: Tally, o: Observation): Tally {
    match o.validity
    case Discontinuous => t.(marks := t.marks + {SawDiscontinuity})
    case Implausible => t.(marks := t.marks + {SawImplausible})
    case Insufficient => t.(marks := t.marks + {SawInsufficient})
    case UndefinedRatio => t.(marks := t.marks + {SawUndefinedRatio})
    case UnsupportedMethod => t.(marks := t.marks + {SawUnsupported})
    case UnsupportedPrecondition => t.(marks := t.marks + {SawUnsupported})
    case Valid =>
      match o.semantics
      case DirectLoss => AddDirect(t, o)
      case RatioLoss => AddRatio(t, o)
      case NonLoss => t.(marks := t.marks + {ValidNonLoss})
  }

  function TallyOf(observations: seq<Observation>): Tally {
    if observations == [] then EMPTY
    else Add(TallyOf(observations[..|observations| - 1]), observations[|observations| - 1])
  }

  // The tally as it is filled in.
  class Counter {
    var lost: U64
    var offered: U64
    var marks: set<Mark>

    function Value(): Tally
      reads this
    {
      Tally(lost, offered, marks)
    }

    constructor (t: Tally)
      ensures Value() == t
    {
      lost, offered, marks := t.lost, t.offered, t.marks;
    }

    method TallyDirect(o: Observation)
      modifies this
      ensures Value() == AddDirect(old(Value()), o)
    {
      marks := marks + {DirectSeen, ValidDirect};
      var before := lost;
      lost := WrappedSum(lost, o.lost);
      if lost < before {
        lost := MAX64;
        marks := marks + {Saturated};
      }
      if o.lost > 0 {
        marks := marks + {DirectPositive};
      }
    }

    method TallyRatio(o: Observation)
      modifies this
      ensures Value() == AddRatio(old(Value()), o)
    {
      if !o.ratioDefined {
        marks := marks + {RatioSeen, SawUndefinedRatio};
        return;
      }
      marks := marks + {RatioSeen, ValidRatio, OfferedKnown};
      var lostBefore, offeredBefore := lost, offered;
      lost := WrappedSum(lost, o.lost);
      offered := WrappedSum(offered, o.offered);
      if lost < lostBefore || offered < offeredBefore {
        lost, offered := MAX64, MAX64;
        marks := marks + {Saturated};
      }
    }

    method TallyObservation(o: Observation)
      modifies this
      ensures Value() == Add(old(Value()), o)
    {
      hide AddDirect, AddRatio;
      match o.validity {
        case Discontinuous => marks := marks + {SawDiscontinuity};
        case Implausible => marks := marks + {SawImplausible};
        case Insufficient => marks := marks + {SawInsufficient};
        case UndefinedRatio => marks := marks + {SawUndefinedRatio};
        case UnsupportedMethod => marks := marks + {SawUnsupported};
        case UnsupportedPrecondition => marks := marks + {SawUnsupported};
        case Valid =>
          match o.semantics {
            case DirectLoss => TallyDirect(o);
            case RatioLoss => TallyRatio(o);
            case NonLoss => marks := marks + {ValidNonLoss};
          }
      }
    }
  }

  predicate Marked(t: Tally, m: Mark) {
    m in t.marks
  }

  predicate LossCapable(t: Tally) {
    Marked(t, ValidDirect) || Marked(t, ValidRatio)
  }

  function RatioOf(t: Tally): U32 {
    if !Marked(t, OfferedKnown) || t.offered == 0 then 0 else RatioBp(t.lost, t.offered)
  }

  // ---- claims ----------------------------------------------------------------------------

  function Only(observations: seq<Observation>, p: Observation -> bool): seq<Observation> {
    if observations == [] then []
    else
      var front, last := Only(observations[..|observations| - 1], p), observations[|observations| - 1];
      if p(last) then front + [last] else front
  }

  function Of(source: U64, adm: Admission): Admission {
    (o: Observation) => adm(o) && o.source == source
  }

  function ClaimVerdict(t: Tally, policy: Policy): LossClass {
    var ratio := RatioOf(t);
    if LossCapable(t) then
      if Marked(t, ValidRatio) && t.offered >= policy.minConfirm && ratio >= policy.confirmedBp then ConfirmedLoss
      else if Marked(t, DirectPositive) && policy.directConfirms then ConfirmedLoss
      else if (Marked(t, ValidRatio) && ratio > 0) || Marked(t, DirectPositive) then SuspectedLoss
      else if Marked(t, ValidRatio) && t.offered >= policy.minAbsence && ratio == 0 then NoLossObserved
      else if Marked(t, ValidDirect) && !Marked(t, DirectPositive) && !Marked(t, RatioSeen) then NoLossObserved
      else IncompleteEvidence
    else if Marked(t, SawDiscontinuity) then DiscontinuityClass
    else if Marked(t, SawImplausible) then ImplausibleEvidence
    else if Marked(t, SawUnsupported) then UnsupportedClass
    else IncompleteEvidence
  }

  function ClaimFrom(source: U64, current: bool, t: Tally, policy: Policy, authority: Authority): Claim {
    Claim(source, if current then ClaimVerdict(t, policy) else StaleEvidence, current, authority,
          t.lost, t.offered, Marked(t, OfferedKnown) && t.offered > 0, RatioOf(t))
  }

  // What one source claims: its admissible observations, tallied.
  function ClaimOf(source: U64, observations: seq<Observation>, adm: Admission, policy: Policy,
                   authorities: Authorities): Claim {
    var own := Only(observations, Of(source, adm));
    ClaimFrom(source, own != [], TallyOf(own), policy, authorities(source))
  }

  ghost predicate Speaks(source: U64, observations: seq<Observation>) {
    exists o <- observations :: o.source == source
  }

  // The claims are one for each source that speaks, in any order.
  ghost predicate AreClaims(claims: seq<Claim>, observations: seq<Observation>, adm: Admission, policy: Policy,
                            authorities: Authorities) {
    && DistinctSources(claims)
    && (forall c <- claims ::
          Speaks(c.source, observations) && c == ClaimOf(c.source, observations, adm, policy, authorities))
    && (forall o <- observations :: HasSource(claims, o.source))
  }

  // What the maps of the loop hold after some of the observations.
  ghost predicate Tallied(tallies: map<U64, Tally>, current: map<U64, bool>, seen: seq<Observation>, adm: Admission) {
    && tallies.Keys == current.Keys
    && (forall s :: s in tallies <==> Speaks(s, seen))
    && (forall s <- tallies :: TalliedAt(s, tallies, current, seen, adm))
  }

  ghost predicate TalliedAt(s: U64, tallies: map<U64, Tally>, current: map<U64, bool>, seen: seq<Observation>,
                            adm: Admission)
    requires s in tallies && s in current
  {
    && tallies[s] == TallyOf(Only(seen, Of(s, adm)))
    && current[s] == (Only(seen, Of(s, adm)) != [])
  }

  method TallySources(observations: seq<Observation>, adm: Admission)
      returns (tallies: map<U64, Tally>, current: map<U64, bool>)
    ensures Tallied(tallies, current, observations, adm)
  {
    hide Tallied, Add;
    tallies, current := map[], map[];
    NoneTallied(adm);
    for i := 0 to |observations|
      invariant Tallied(tallies, current, observations[..i], adm)
    {
      var o := observations[i];
      ghost var tallies', current' := tallies, current;
      var counter := new Counter(At(tallies, o.source, EMPTY));
      var any := At(current, o.source, false);
      if adm(o) {
        counter.TallyObservation(o);
        any := true;
      }
      tallies, current := tallies[o.source := counter.Value()], current[o.source := any];
      TalliedStep(tallies', current', tallies, current, observations[..i], o, adm);
      assert observations[..i] + [o] == observations[..i + 1];
    }
    assert observations[..|observations|] == observations;
  }

  lemma NoneTallied(adm: Admission)
    ensures Tallied(map[], map[], [], adm)
  {
  }

  function At<T>(m: map<U64, T>, key: U64, otherwise: T): T {
    if key in m then m[key] else otherwise
  }

  lemma TalliedStep(tallies: map<U64, Tally>, current: map<U64, bool>, tallies': map<U64, Tally>,
                    current': map<U64, bool>, seen: seq<Observation>, o: Observation, adm: Admission)
    requires Tallied(tallies, current, seen, adm)
    requires var before := At(tallies, o.source, EMPTY);
             && tallies' == tallies[o.source := if adm(o) then Add(before, o) else before]
             && current' == current[o.source := adm(o) || At(current, o.source, false)]
    ensures Tallied(tallies', current', seen + [o], adm)
  {
    hide Add, TallyOf, Only, TalliedAt, Speaks;
    SpeaksStep(seen, o);
    forall s | s in tallies'
      ensures TalliedAt(s, tallies', current', seen + [o], adm)
    {
      TalliedAtStep(s, tallies, current, tallies', current', seen, o, adm);
    }
  }

  lemma TalliedAtStep(s: U64, tallies: map<U64, Tally>, current: map<U64, bool>, tallies': map<U64, Tally>,
                      current': map<U64, bool>, seen: seq<Observation>, o: Observation, adm: Admission)
    requires s in tallies' && s in current' && tallies.Keys == current.Keys
    requires s in tallies ==> TalliedAt(s, tallies, current, seen, adm)
    requires s !in tallies ==> !Speaks(s, seen) && s == o.source
    requires var before := At(tallies, s, EMPTY);
             && tallies'[s] == (if adm(o) && o.source == s then Add(before, o) else before)
             && current'[s] == ((adm(o) && o.source == s) || At(current, s, false))
    ensures TalliedAt(s, tallies', current', seen + [o], adm)
  {
    hide Add, TallyOf, Only;
    OnlyStep(seen, o, Of(s, adm));
    LastTallied(Only(seen, Of(s, adm)), o);
    if s !in tallies {
      NothingOf(seen, s, adm);
      NothingTallied();
    }
  }

  lemma NothingTallied()
    ensures TallyOf([]) == EMPTY
  {
  }

  lemma SpeaksStep(seen: seq<Observation>, o: Observation)
    ensures forall s :: Speaks(s, seen + [o]) <==> Speaks(s, seen) || s == o.source
  {
    assert o in seen + [o];
    assert forall x <- seen :: x in seen + [o];
  }

  lemma OnlyStep(seen: seq<Observation>, o: Observation, p: Observation -> bool)
    ensures Only(seen + [o], p) == if p(o) then Only(seen, p) + [o] else Only(seen, p)
  {
    assert (seen + [o])[..|seen|] == seen;
  }

  lemma LastTallied(front: seq<Observation>, o: Observation)
    ensures TallyOf(front + [o]) == Add(TallyOf(front), o)
  {
    assert (front + [o])[..|front|] == front;
  }

  lemma {:induction false} NothingOf(observations: seq<Observation>, source: U64, adm: Admission)
    requires !Speaks(source, observations)
    ensures Only(observations, Of(source, adm)) == []
  {
    if observations != [] {
      var front, last := observations[..|observations| - 1], observations[|observations| - 1];
      assert last in observations && forall o <- front :: o in observations;
      NothingOf(front, source, adm);
    }
  }

  // ---- all claims, in order ---------------------------------------------------------------

  function Sources(observations: seq<Observation>): seq<U64> {
    if observations == [] then []
    else
      var front, last := Sources(observations[..|observations| - 1]), observations[|observations| - 1].source;
      if last in front then front else front + [last]
  }

  ghost function ClaimList(sources: seq<U64>, observations: seq<Observation>, adm: Admission, policy: Policy,
                           authorities: Authorities): seq<Claim> {
    seq(|sources|, i requires 0 <= i < |sources| => ClaimOf(sources[i], observations, adm, policy, authorities))
  }

  ghost function Claims(observations: seq<Observation>, adm: Admission, policy: Policy, authorities: Authorities)
      : seq<Claim> {
    Sorted(ClaimList(Sources(observations), observations, adm, policy, authorities))
  }

  lemma {:induction false} SourcesSpeak(observations: seq<Observation>)
    ensures forall s :: s in Sources(observations) <==> Speaks(s, observations)
    ensures forall i, j :: 0 <= i < j < |Sources(observations)| ==> Sources(observations)[i] != Sources(observations)[j]
  {
    if observations != [] {
      var front, last := observations[..|observations| - 1], observations[|observations| - 1];
      SourcesSpeak(front);
      SpeaksStep(front, last);
      assert observations == front + [last];
    }
  }

  lemma ListsClaims(observations: seq<Observation>, adm: Admission, policy: Policy, authorities: Authorities)
    ensures AreClaims(ClaimList(Sources(observations), observations, adm, policy, authorities),
                      observations, adm, policy, authorities)
  {
    hide ClaimOf, Sources;
    SourcesSpeak(observations);
    var sources := Sources(observations);
    var list := ClaimList(sources, observations, adm, policy, authorities);
    ClaimsNameTheirSource(observations, adm, policy, authorities);
    forall o <- observations
      ensures HasSource(list, o.source)
    {
      assert Speaks(o.source, observations);
      var k :| 0 <= k < |sources| && sources[k] == o.source;
      assert list[k] in list && list[k].source == o.source;
    }
    assert forall i :: 0 <= i < |list| ==> list[i].source == sources[i];
    assert forall i :: 0 <= i < |sources| ==> sources[i] in sources;
  }

  lemma ClaimsNameTheirSource(observations: seq<Observation>, adm: Admission, policy: Policy,
                              authorities: Authorities)
    ensures forall s: U64 :: ClaimOf(s, observations, adm, policy, authorities).source == s
  {
  }

  // Whatever order the claims were collected in, sorting them gives the same list.
  lemma SortedClaims(claims: seq<Claim>, observations: seq<Observation>, adm: Admission, policy: Policy,
                     authorities: Authorities)
    requires AreClaims(claims, observations, adm, policy, authorities)
    ensures Sorted(claims) == Claims(observations, adm, policy, authorities)
  {
    hide ClaimOf, Sources, Sorted, ClaimList;
    var list := ClaimList(Sources(observations), observations, adm, policy, authorities);
    ListsClaims(observations, adm, policy, authorities);
    SameClaims(claims, list, observations, adm, policy, authorities);
    SameClaims(list, claims, observations, adm, policy, authorities);
    SortedStaysDistinct(claims);
    SortedStaysDistinct(list);
    SortedIsSorted(claims);
    SortedIsSorted(list);
    OneOrder(Sorted(claims), Sorted(list));
  }

  lemma SameClaims(a: seq<Claim>, b: seq<Claim>, observations: seq<Observation>, adm: Admission, policy: Policy,
                   authorities: Authorities)
    requires AreClaims(a, observations, adm, policy, authorities)
    requires AreClaims(b, observations, adm, policy, authorities)
    ensures forall c <- a :: c in b
  {
    hide ClaimOf;
    forall c <- a
      ensures c in b
    {
      assert Speaks(c.source, observations);
      var o :| o in observations && o.source == c.source;
      assert HasSource(b, o.source);
    }
  }

  method ClaimsFor(observations: seq<Observation>, adm: Admission, policy: Policy, authorities: Authorities)
      returns (claims: seq<Claim>)
    ensures claims == Claims(observations, adm, policy, authorities)
  {
    hide Tallied, Sorted, Claims, ClaimFrom;
    var tallies, current := TallySources(observations, adm);
    TalliedKeys(tallies, current, observations, adm);
    var list: seq<Claim> := [];
    var left := tallies.Keys;
    while left != {}
      invariant left <= tallies.Keys && tallies.Keys == current.Keys
      invariant forall c <- list :: c.source in tallies && c.source !in left
      invariant forall c <- list ::
                  c == ClaimFrom(c.source, current[c.source], tallies[c.source], policy, authorities(c.source))
      invariant forall s <- tallies :: s in left || HasSource(list, s)
      invariant DistinctSources(list)
      decreases left
    {
      var source :| source in left;
      ghost var before := list;
      NamesItsSource(source, current[source], tallies[source], policy, authorities(source));
      list := list + [ClaimFrom(source, current[source], tallies[source], policy, authorities(source))];
      assert list[|before|] in list && forall c <- before :: c in list;
      left := left - {source};
    }
    TalliedAreClaims(list, tallies, current, observations, adm, policy, authorities);
    SortedClaims(list, observations, adm, policy, authorities);
    claims := Sorted(list);
  }

  lemma NamesItsSource(source: U64, current: bool, t: Tally, policy: Policy, authority: Authority)
    ensures ClaimFrom(source, current, t, policy, authority).source == source
  {
  }

  lemma TalliedKeys(tallies: map<U64, Tally>, current: map<U64, bool>, observations: seq<Observation>, adm: Admission)
    requires Tallied(tallies, current, observations, adm)
    ensures tallies.Keys == current.Keys
  {
  }

  lemma TalliedAreClaims(list: seq<Claim>, tallies: map<U64, Tally>, current: map<U64, bool>,
                         observations: seq<Observation>, adm: Admission, policy: Policy, authorities: Authorities)
    requires Tallied(tallies, current, observations, adm)
    requires forall c <- list ::
               && c.source in tallies
               && c == ClaimFrom(c.source, current[c.source], tallies[c.source], policy, authorities(c.source))
    requires forall s <- tallies :: HasSource(list, s)
    requires DistinctSources(list)
    ensures AreClaims(list, observations, adm, policy, authorities)
  {
    hide ClaimFrom, TallyOf, Only;
    forall c <- list
      ensures Speaks(c.source, observations) && c == ClaimOf(c.source, observations, adm, policy, authorities)
    {
      assert TalliedAt(c.source, tallies, current, observations, adm);
    }
    forall o <- observations
      ensures HasSource(list, o.source)
    {
      assert Speaks(o.source, observations);
    }
  }

  // ---- the ladder ------------------------------------------------------------------------

  datatype Classification = Classification(
    verdict: LossClass, lost: U64, offered: U64, saturated: bool, ratioDefined: bool, ratioBp: U32,
    conflict: Resolution)

  function Ladder(t: Tally, policy: Policy): LossClass {
    var ratio := RatioOf(t);
    if !LossCapable(t) then
      if Marked(t, SawDiscontinuity) then DiscontinuityClass
      else if Marked(t, SawImplausible) then ImplausibleEvidence
      else if Marked(t, SawUnsupported) then UnsupportedClass
      else IncompleteEvidence
    else if Marked(t, ValidRatio) && t.offered >= policy.minConfirm && ratio >= policy.confirmedBp then ConfirmedLoss
    else if Marked(t, DirectPositive) && policy.directConfirms then ConfirmedLoss
    else if (Marked(t, ValidRatio) && ratio >= policy.suspectedBp && ratio > 0) || Marked(t, DirectPositive) then
      SuspectedLoss
    else if Marked(t, ValidRatio) && t.offered >= policy.minAbsence && ratio == 0 then NoLossObserved
    else if Marked(t, ValidDirect) && Marked(t, DirectSeen) && !Marked(t, DirectPositive) then NoLossObserved
    else IncompleteEvidence
  }

  function Judged(any: bool, admissible: bool, t: Tally, conflict: Resolution, policy: Policy): Classification {
    if !any then Classification(AbsentEvidence, 0, 0, false, false, 0, conflict)
    else if !admissible then Classification(StaleEvidence, 0, 0, false, false, 0, conflict)
    else if conflict.conflicted && !conflict.resolved then
      Classification(ConflictingEvidence, 0, 0, false, false, 0, conflict)
    else
      Classification(Ladder(t, policy), t.lost, t.offered, Marked(t, Saturated),
                     Marked(t, OfferedKnown) && t.offered > 0, RatioOf(t), conflict)
  }

  ghost function Classified(observations: seq<Observation>, adm: Admission, policy: Policy,
                            authorities: Authorities): Classification {
    var admissible := Only(observations, adm);
    var claims := Current(Claims(observations, adm, policy, authorities));
    Judged(observations != [], admissible != [], TallyOf(admissible), Evaluated(claims, policy.toleranceBp), policy)
  }

  method Classify(observations: seq<Observation>, adm: Admission, policy: Policy, authorities: Authorities)
      returns (c: Classification)
    ensures c == Classified(observations, adm, policy, authorities)
  {
    hide Evaluated, Claims, Current, Add, Ladder;
    var counter := new Counter(EMPTY);
    var any := false;
    for i := 0 to |observations|
      invariant any == (Only(observations[..i], adm) != [])
      invariant counter.Value() == TallyOf(Only(observations[..i], adm))
    {
      OnlyStep(observations[..i], observations[i], adm);
      assert observations[..i + 1] == observations[..i] + [observations[i]];
      if adm(observations[i]) {
        LastTallied(Only(observations[..i], adm), observations[i]);
        counter.TallyObservation(observations[i]);
        any := true;
      }
    }
    assert observations[..|observations|] == observations;
    var claims := ClaimsFor(observations, adm, policy, authorities);
    claims := SelectCurrent(claims);
    var conflict := Evaluate(claims, policy.toleranceBp);
    c := Judged(observations != [], any, counter.Value(), conflict, policy);
  }
}
