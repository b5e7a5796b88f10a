// What a verdict depends on, and what it can be trusted for.
module Judgement {
  import opened Bytes
  import opened Evidence
  import opened Observation
  import opened Conflict
  import opened Classify
  import opened Sequences

  // ---- filters --------------------------------------------------------------------------

  lemma {:induction false} OnlyHolds(observations: seq<Observation>, p: Observation -> bool)
    ensures forall o :: o in Only(observations, p) <==> o in observations && p(o)
  {
    if observations != [] {
      var front, last := observations[..|observations| - 1], observations[|observations| - 1];
      OnlyHolds(front, p);
      assert observations == front + [last];
    }
  }

  // Filtering twice is filtering for both.
  lemma {:induction false} OnlyTwice(observations: seq<Observation>, p: Observation -> bool, q: Observation -> bool)
    requires forall o :: q(o) ==> p(o)
    ensures Only(Only(observations, p), q) == Only(observations, q)
  {
    if observations != [] {
      var front, last := observations[..|observations| - 1], observations[|observations| - 1];
      OnlyTwice(front, p, q);
      OnlyStep(Only(front, p), last, q);
    }
  }

  lemma {:induction false} CurrentKeepsOrder(claims: seq<Claim>)
    requires IsSorted(claims)
    ensures IsSorted(Current(claims))
  {
    hide Before;
    if claims != [] {
      var front, last := claims[..|claims| - 1], claims[|claims| - 1];
      CurrentKeepsOrder(front);
      CurrentOnly(front);
      forall c <- Current(front)
        ensures !Before(last, c)
      {
        assert c in front;
        var k :| 0 <= k < |front| && front[k] == c;
      }
    }
  }

  // ---- stale evidence is inert -------------------------------------------------------------

  lemma CurrentClaims(observations: seq<Observation>, adm: Admission, policy: Policy, authorities: Authorities)
    ensures var claims := Current(Claims(observations, adm, policy, authorities));
            && IsSorted(claims) && DistinctSources(claims)
            && forall c :: c in claims <==>
                 && (exists o <- observations :: adm(o) && o.source == c.source)
                 && c == ClaimOf(c.source, observations, adm, policy, authorities)
  {
    hide ClaimOf, Sources, Sorted, ClaimList, Only, Before;
    var list := ClaimList(Sources(observations), observations, adm, policy, authorities);
    var all := Claims(observations, adm, policy, authorities);
    ListsClaims(observations, adm, policy, authorities);
    SortedStaysDistinct(list);
    SortedIsSorted(list);
    CurrentKeepsOrder(all);
    CurrentOnly(all);
    forall c
      ensures c in Current(all) <==>
                && (exists o <- observations :: adm(o) && o.source == c.source)
                && c == ClaimOf(c.source, observations, adm, policy, authorities)
    {
      CurrentIfHeard(c.source, observations, adm, policy, authorities);
      if exists o <- observations :: adm(o) && o.source == c.source {
        var o :| o in observations && adm(o) && o.source == c.source;
        assert HasSource(list, o.source);
      }
    }
  }

  // A source's claim is current exactly when one of its observations is admissible.
  lemma CurrentIfHeard(source: U64, observations: seq<Observation>, adm: Admission, policy: Policy,
                       authorities: Authorities)
    ensures ClaimOf(source, observations, adm, policy, authorities).source == source
    ensures ClaimOf(source, observations, adm, policy, authorities).current
            <==> exists o <- observations :: adm(o) && o.source == source
  {
    hide Only, TallyOf;
    var own := Only(observations, Of(source, adm));
    OnlyHolds(observations, Of(source, adm));
    if own != [] {
      assert own[0] in own;
    }
  }

  // Removing everything inadmissible changes neither the verdict, nor a total,
  // nor the ratio, nor what is said about conflict.
  lemma StaleEvidenceIsInert(observations: seq<Observation>, adm: Admission, policy: Policy,
                             authorities: Authorities)
    requires exists o <- observations :: adm(o)
    ensures Classified(observations, adm, policy, authorities)
         == Classified(Only(observations, adm), adm, policy, authorities)
  {
    hide ClaimOf, Claims, Current, Evaluated, TallyOf, Only, Judged;
    var clean := Only(observations, adm);
    OnlyHolds(observations, adm);
    OnlyTwice(observations, adm, adm);
    var o :| o in observations && adm(o);
    assert o in clean;
    CurrentClaims(observations, adm, policy, authorities);
    CurrentClaims(clean, adm, policy, authorities);
    forall s: U64
      ensures ClaimOf(s, observations, adm, policy, authorities) == ClaimOf(s, clean, adm, policy, authorities)
    {
      SameClaimOf(s, observations, adm, policy, authorities);
    }
    OneOrder(Current(Claims(observations, adm, policy, authorities)), Current(Claims(clean, adm, policy, authorities)));
  }

  lemma SameClaimOf(source: U64, observations: seq<Observation>, adm: Admission, policy: Policy,
                    authorities: Authorities)
    ensures ClaimOf(source, observations, adm, policy, authorities)
         == ClaimOf(source, Only(observations, adm), adm, policy, authorities)
  {
    hide Only;
    OnlyTwice(observations, adm, Of(source, adm));
  }

  // No evidence and only stale evidence are verdicts of their own, with zero totals.
  lemma AbsentAndStale(observations: seq<Observation>, adm: Admission, policy: Policy, authorities: Authorities)
    ensures var c := Classified(observations, adm, policy, authorities);
            && (c.verdict == AbsentEvidence <==> observations == [])
            && (c.verdict == StaleEvidence <==> observations != [] && forall o <- observations :: !adm(o))
            && (c.verdict == AbsentEvidence || c.verdict == StaleEvidence ==>
                  c.lost == 0 && c.offered == 0 && !c.ratioDefined && c.ratioBp == 0)
  {
    hide Claims, Current, Evaluated, TallyOf, Only, RatioOf, LossCapable, Marked;
    OnlyHolds(observations, adm);
    if Only(observations, adm) != [] {
      assert Only(observations, adm)[0] in Only(observations, adm);
    }
  }

  // ---- loss is asserted only on loss ---------------------------------------------------------

  // A valid observation of a kind that can show loss, and does.
  predicate ShowsLoss(o: Observation) {
    o.validity == Valid && (o.semantics == DirectLoss || (o.semantics == RatioLoss && o.ratioDefined)) && o.lost > 0
  }

  predicate CountsOffered(o: Observation) {
    o.validity == Valid && o.semantics == RatioLoss && o.ratioDefined
  }

  function OfferedTotal(observations: seq<Observation>): nat {
    if observations == [] then 0
    else
      var last := observations[|observations| - 1];
      OfferedTotal(observations[..|observations| - 1]) + if CountsOffered(last) then last.offered else 0
  }

  // As long as no observation shows loss, the tally has none, until the offered
  // counts add up to more than a 64-bit word.  Then it has the largest one.
  lemma {:induction false} TallyWithoutLoss(observations: seq<Observation>)
    requires forall o <- observations :: !ShowsLoss(o)
    ensures var t := TallyOf(observations);
            && DirectPositive !in t.marks
            && (OfferedTotal(observations) <= MAX64 ==> t.lost == 0 && t.offered == OfferedTotal(observations))
            && (OfferedTotal(observations) > MAX64 ==>
                  t.lost == MAX64 && t.offered == MAX64 && ValidRatio in t.marks && OfferedKnown in t.marks)
  {
    if observations != [] {
      var front, last := observations[..|observations| - 1], observations[|observations| - 1];
      assert last in observations && forall o <- front :: o in observations;
      TallyWithoutLoss(front);
      AddWithoutLoss(TallyOf(front), last, OfferedTotal(front));
    }
  }

  lemma AddWithoutLoss(t: Tally, o: Observation, total: nat)
    requires !ShowsLoss(o)
    requires DirectPositive !in t.marks
    requires total <= MAX64 ==> t.lost == 0 && t.offered == total
    requires total > MAX64 ==> t.lost == MAX64 && t.offered == MAX64 && ValidRatio in t.marks && OfferedKnown in t.marks
    ensures var t', total' := Add(t, o), total + if CountsOffered(o) then o.offered else 0;
            && DirectPositive !in t'.marks
            && (total' <= MAX64 ==> t'.lost == 0 && t'.offered == total')
            && (total' > MAX64 ==>
                  t'.lost == MAX64 && t'.offered == MAX64 && ValidRatio in t'.marks && OfferedKnown in t'.marks)
  {
    WrapShows(t.lost, o.lost);
    WrapShows(t.offered, o.offered);
  }

  // The claims disagree and none of them outranks the others.
  ghost predicate Unsettled(claims: seq<Claim>, tolerance: U32) {
    (Contradict(claims) || Spread(claims, tolerance)) && !exists w :: Outranks(claims, w)
  }

  lemma UnsettledIsConflict(observations: seq<Observation>, adm: Admission, policy: Policy, authorities: Authorities)
    ensures var claims := Current(Claims(observations, adm, policy, authorities));
            var r := Evaluated(claims, policy.toleranceBp);
            Unsettled(claims, policy.toleranceBp) <==> r.conflicted && !r.resolved
  {
    hide Claims, Current, Evaluated, Contradict, Spread, Outranks;
    var claims := Current(Claims(observations, adm, policy, authorities));
    CurrentClaims(observations, adm, policy, authorities);
    ConflictIsLinear(claims, policy.toleranceBp);
    if Evaluated(claims, policy.toleranceBp).conflicted {
      ResolvedByAuthority(claims, policy.toleranceBp);
    }
  }

  // With a confirmation threshold of at least one basis point and nothing admissible
  // that shows loss, loss is asserted exactly when the offered counts overflow, the
  // claims are not left in conflict, and one of the thresholds can be reached.  It is
  // then confirmed loss exactly when the threshold for that can be reached.
  lemma LossNeedsLoss(observations: seq<Observation>, adm: Admission, policy: Policy, authorities: Authorities)
    requires policy.confirmedBp >= 1
    requires forall o <- observations :: adm(o) ==> !ShowsLoss(o)
    ensures var c := Classified(observations, adm, policy, authorities);
            var claims := Current(Claims(observations, adm, policy, authorities));
            var misread := OfferedTotal(Only(observations, adm)) > MAX64 && !Unsettled(claims, policy.toleranceBp);
            && (AssertsLoss(c.verdict) <==> misread && (policy.confirmedBp <= 10000 || policy.suspectedBp <= 10000))
            && (c.verdict == ConfirmedLoss <==> misread && policy.confirmedBp <= 10000)
  {
    hide Claims, Current, Evaluated, TallyOf, Only, Unsettled;
    var own := Only(observations, adm);
    UnsettledIsConflict(observations, adm, policy, authorities);
    OnlyHolds(observations, adm);
    TallyWithoutLoss(own);
    NothingOffered();
    OnlyOfNothing(adm);
    hide OfferedTotal;
  }

  lemma NothingOffered()
    ensures OfferedTotal([]) == 0
  {
  }

  lemma OnlyOfNothing(p: Observation -> bool)
    ensures Only([], p) == []
  {
  }

  // Two lossless reports of one source are enough for that.
  lemma OverflowReadsAsLoss(o: Observation, adm: Admission, policy: Policy, authorities: Authorities)
    requires o.validity == Valid && o.semantics == RatioLoss && o.ratioDefined
    requires o.lost == 0 && o.offered == 0x8000_0000_0000_0000 && adm(o)
    requires 1 <= policy.confirmedBp <= 10000
    ensures Classified([o, o], adm, policy, authorities).verdict == ConfirmedLoss
  {
    hide Claims, Current, Evaluated, Judged, ClaimOf, Unsettled;
    var s := [o, o];
    assert s == ([] + [o]) + [o];
    OnlyStep([o], o, adm);
    OnlyStep([], o, adm);
    OnlyOfNothing(adm);
    assert Only(s, adm) == s;
    assert OfferedTotal(s) == OfferedTotal([o]) + o.offered;
    assert OfferedTotal([o]) == OfferedTotal([]) + o.offered;
    LossNeedsLoss(s, adm, policy, authorities);
    OneSourceAgrees(s, o.source, adm, policy, authorities);
    UnsettledIsConflict(s, adm, policy, authorities);
  }

  lemma OneSourceAgrees(observations: seq<Observation>, source: U64, adm: Admission, policy: Policy,
                        authorities: Authorities)
    requires forall o <- observations :: o.source == source
    ensures !Evaluated(Current(Claims(observations, adm, policy, authorities)), policy.toleranceBp).conflicted
  {
    hide Claims, Current, Evaluated, ClaimOf;
    CurrentClaims(observations, adm, policy, authorities);
    var claims := Current(Claims(observations, adm, policy, authorities));
    forall a <- claims, b <- claims
      ensures a == b
    {
      assert a.source == source && b.source == source;
    }
    ConflictIsLinear(claims, policy.toleranceBp);
  }

  // ---- the order of observations does not matter -------------------------------------------------

  function LostTotal(observations: seq<Observation>): nat {
    if observations == [] then 0
    else LostTotal(observations[..|observations| - 1]) + LostPart(observations[|observations| - 1])
  }

  function LostPart(o: Observation): nat {
    if o.validity == Valid && (o.semantics == DirectLoss || (o.semantics == RatioLoss && o.ratioDefined)) then o.lost
    else 0
  }

  function OfferedPart(o: Observation): nat {
    if CountsOffered(o) then o.offered else 0
  }

  // No total leaves the 64-bit range.
  ghost predicate NoOverflow(observations: seq<Observation>) {
    LostTotal(observations) <= MAX64 && OfferedTotal(observations) <= MAX64
  }

  function MarksOf(o: Observation): set<Mark> {
    Add(EMPTY, o).marks
  }

  ghost function AllMarks(observations: seq<Observation>): set<Mark> {
    set o <- observations, m <- MarksOf(o) :: m
  }

  lemma {:induction false} TallyIsSum(observations: seq<Observation>)
    requires NoOverflow(observations)
    ensures TallyOf(observations) == Tally(LostTotal(observations), OfferedTotal(observations), AllMarks(observations))
  {
    if observations == [] {
      assert AllMarks(observations) == {};
    } else {
      hide LostTotal, OfferedTotal, TallyOf, AllMarks;
      var front, last := observations[..|observations| - 1], observations[|observations| - 1];
      assert observations == front + [last];
      TotalsAppend(front, [last]);
      TallyIsSum(front);
      TallySumStep(front, last);
    }
  }

  lemma {:induction false} TallySumStep(front: seq<Observation>, last: Observation)
    requires NoOverflow(front + [last])
    requires TallyOf(front) == Tally(LostTotal(front), OfferedTotal(front), AllMarks(front))
    ensures TallyOf(front + [last])
         == Tally(LostTotal(front + [last]), OfferedTotal(front + [last]), AllMarks(front + [last]))
  {
    hide LostTotal, OfferedTotal, TallyOf, AllMarks, MarksOf, Add, LostPart, OfferedPart;
    TotalsAppend(front, [last]);
    TotalsOfOne(last);
    LastTallied(front, last);
    AddIsSum(TallyOf(front), last);
    MarksStep(front, last);
  }

  lemma {:induction false} MarksStep(front: seq<Observation>, last: Observation)
    ensures AllMarks(front + [last]) == AllMarks(front) + MarksOf(last)
  {
    hide MarksOf;
    assert forall o :: o in front + [last] <==> o in front || o == last;
  }

  lemma AddIsSum(t: Tally, o: Observation)
    requires t.lost + LostPart(o) <= MAX64 && t.offered + OfferedPart(o) <= MAX64
    ensures Add(t, o) == Tally(t.lost + LostPart(o), t.offered + OfferedPart(o), t.marks + MarksOf(o))
  {
    WrapShows(t.lost, o.lost);
    WrapShows(t.offered, o.offered);
    WrapShows(0, o.lost);
    WrapShows(0, o.offered);
    hide WrappedSum;
  }

  lemma {:induction false} TotalsAppend(a: seq<Observation>, b: seq<Observation>)
    ensures LostTotal(a + b) == LostTotal(a) + LostTotal(b)
    ensures OfferedTotal(a + b) == OfferedTotal(a) + OfferedTotal(b)
  {
    hide LostPart, CountsOffered;
    if b == [] {
      assert a + b == a;
    } else {
      TotalsAppend(a, b[..|b| - 1]);
      assert (a + b)[..|a + b| - 1] == a + b[..|b| - 1];
    }
  }

  lemma TotalsOfOne(o: Observation)
    ensures LostTotal([o]) == LostPart(o) && OfferedTotal([o]) == OfferedPart(o)
  {
    assert LostTotal([o]) == LostTotal([o][..0]) + LostPart(o);
    assert OfferedTotal([o][..0]) == 0;
  }

  // Rearranged observations have the same totals.
  lemma {:induction false} TotalsRearranged(a: seq<Observation>, b: seq<Observation>)
    requires multiset(a) == multiset(b)
    ensures LostTotal(a) == LostTotal(b) && OfferedTotal(a) == OfferedTotal(b)
    decreases |a|
  {
    hide LostTotal, OfferedTotal, LostPart, CountsOffered;
    if a == [] {
      SameMembers(a, b);
    } else {
      var front, last := a[..|a| - 1], a[|a| - 1];
      var k := TakenOut(a, b);
      var left, right := b[..k], b[k + 1..];
      assert a == front + [last];
      TotalsRearranged(front, left + right);
      TotalsAppend(front, [last]);
      TotalsAppend(left, right);
      TotalsAppend(left + [last], right);
      TotalsAppend(left, [last]);
    }
  }

  lemma {:induction false} OnlyCounts(observations: seq<Observation>, p: Observation -> bool, o: Observation)
    ensures multiset(Only(observations, p))[o] == if p(o) then multiset(observations)[o] else 0
  {
    if observations != [] {
      var front, last := observations[..|observations| - 1], observations[|observations| - 1];
      OnlyCounts(front, p, o);
      assert observations == front + [last];
    }
  }

  lemma OnlyRearranged(a: seq<Observation>, b: seq<Observation>, p: Observation -> bool)
    requires multiset(a) == multiset(b)
    ensures multiset(Only(a, p)) == multiset(Only(b, p))
  {
    forall o: Observation
      ensures multiset(Only(a, p))[o] == multiset(Only(b, p))[o]
    {
      OnlyCounts(a, p, o);
      OnlyCounts(b, p, o);
    }
  }

  lemma {:induction false} FewerTotals(observations: seq<Observation>, p: Observation -> bool, q: Observation -> bool)
    requires forall o :: q(o) ==> p(o)
    ensures LostTotal(Only(observations, q)) <= LostTotal(Only(observations, p))
    ensures OfferedTotal(Only(observations, q)) <= OfferedTotal(Only(observations, p))
  {
    hide LostPart, CountsOffered, LostTotal, OfferedTotal;
    if observations != [] {
      var front, last := observations[..|observations| - 1], observations[|observations| - 1];
      FewerTotals(front, p, q);
      TotalsAppend(Only(front, p), [last]);
      TotalsAppend(Only(front, q), [last]);
      TotalsOfOne(last);
    } else {
      assert Only(observations, q) == Only(observations, p);
    }
  }

  lemma MarksRearranged(a: seq<Observation>, b: seq<Observation>)
    requires multiset(a) == multiset(b)
    ensures AllMarks(a) == AllMarks(b)
  {
    hide MarksOf;
    SameMembers(a, b);
  }

  lemma SameMembers(a: seq<Observation>, b: seq<Observation>)
    requires multiset(a) == multiset(b)
    ensures forall o :: o in a <==> o in b
    ensures |a| == |b|
  {
    assert |multiset(a)| == |a| && |multiset(b)| == |b|;
    forall o
      ensures o in a <==> o in b
    {
      assert o in a <==> o in multiset(a);
      assert o in b <==> o in multiset(b);
    }
  }

  lemma TallyRearranged(a: seq<Observation>, b: seq<Observation>)
    requires multiset(a) == multiset(b) && NoOverflow(a)
    ensures TallyOf(a) == TallyOf(b)
  {
    hide LostTotal, OfferedTotal, AllMarks, TallyOf;
    TotalsRearranged(a, b);
    MarksRearranged(a, b);
    TallyIsSum(a);
    TallyIsSum(b);
  }

  // As long as no total overflows, the classification does not depend on the
  // order of the observations.
  lemma OrderIsIrrelevant(a: seq<Observation>, b: seq<Observation>, adm: Admission, policy: Policy,
                          authorities: Authorities)
    requires multiset(a) == multiset(b) && NoOverflow(Only(a, adm))
    ensures Classified(a, adm, policy, authorities) == Classified(b, adm, policy, authorities)
  {
    hide ClaimOf, Claims, Current, Evaluated, TallyOf, Only, Judged, NoOverflow;
    SameMembers(a, b);
    OnlyRearranged(a, b, adm);
    TallyRearranged(Only(a, adm), Only(b, adm));
    SameMembers(Only(a, adm), Only(b, adm));
    CurrentClaims(a, adm, policy, authorities);
    CurrentClaims(b, adm, policy, authorities);
    forall s: U64
      ensures ClaimOf(s, a, adm, policy, authorities) == ClaimOf(s, b, adm, policy, authorities)
    {
      ClaimRearranged(s, a, b, adm, policy, authorities);
    }
    OneOrder(Current(Claims(a, adm, policy, authorities)), Current(Claims(b, adm, policy, authorities)));
  }

  lemma ClaimRearranged(source: U64, a: seq<Observation>, b: seq<Observation>, adm: Admission, policy: Policy,
                        authorities: Authorities)
    requires multiset(a) == multiset(b) && NoOverflow(Only(a, adm))
    ensures ClaimOf(source, a, adm, policy, authorities) == ClaimOf(source, b, adm, policy, authorities)
  {
    hide ClaimFrom, TallyOf, Only, LostTotal, OfferedTotal;
    var p := Of(source, adm);
    OnlyRearranged(a, b, p);
    FewerTotals(a, adm, p);
    TallyRearranged(Only(a, p), Only(b, p));
    SameMembers(Only(a, p), Only(b, p));
  }
}
