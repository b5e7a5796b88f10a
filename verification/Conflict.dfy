// Disagreement between sources: the pairwise scan, and the linear test it is
// equal to.
module Conflict {
  import opened Bytes
  import opened Evidence
  import opened Observation

  datatype Authority = NoAuthority | Advisory | Secondary | Primary

  function Rank(a: Authority): nat {
    match a
    case NoAuthority => 0
    case Advisory => 1
    case Secondary => 2
    case Primary => 3
  }

  datatype Claim = Claim(source: U64, verdict: LossClass, current: bool, authority: Authority,
                         lost: U64, offered: U64, ratioDefined: bool, ratioBp: U32)

  datatype Basis = NoBasis | RatioDivergence | ClassDivergence

  datatype Resolution = Resolution(
    conflicted: bool, basis: Basis, claims: seq<Claim>, retained: seq<Claim>,
    resolved: bool, authoritative: Option<U64>, spreadBp: U32)

  const AGREED := Resolution(false, NoBasis, [], [], false, None, 0)

  // ---- order: authority first, then source --------------------------------------------

  predicate Before(a: Claim, b: Claim) {
    if a.authority != b.authority then Rank(a.authority) > Rank(b.authority) else a.source < b.source
  }

  function Inserted(c: Claim, s: seq<Claim>): (t: seq<Claim>)
    ensures multiset(t) == multiset(s) + multiset{c}
    ensures |t| == |s| + 1
  {
    if s == [] || !Before(s[0], c) then [c] + s
    else
      assert s == [s[0]] + s[1..];
      [s[0]] + Inserted(c, s[1..])
  }

  function Sorted(s: seq<Claim>): (t: seq<Claim>)
    ensures multiset(t) == multiset(s)
    ensures |t| == |s|
  {
    if s == [] then []
    else
      assert s == [s[0]] + s[1..];
      Inserted(s[0], Sorted(s[1..]))
  }

  ghost predicate IsSorted(s: seq<Claim>) {
    forall i, j :: 0 <= i < j < |s| ==> !Before(s[j], s[i])
  }

  lemma {:induction false} InsertedIsSorted(c: Claim, s: seq<Claim>)
    requires IsSorted(s)
    ensures IsSorted(Inserted(c, s))
  {
    hide Before;
    if s == [] {
    } else if !Before(s[0], c) {
      forall x <- s
        ensures !Before(x, c)
      {
        var k :| 0 <= k < |s| && s[k] == x;
        BeforeIsTransitive(s[0], x, c);
      }
      PrependedIsSorted(c, s);
    } else {
      var rest := Inserted(c, s[1..]);
      InsertedIsSorted(c, s[1..]);
      forall x <- rest
        ensures !Before(x, s[0])
      {
        InsertedElement(c, s[1..], x);
        BeforeIsTransitive(s[0], x, c);
      }
      PrependedIsSorted(s[0], rest);
    }
  }

  lemma InsertedElement(c: Claim, s: seq<Claim>, x: Claim)
    requires x in Inserted(c, s)
    ensures x == c || x in s
  {
    assert x in multiset(Inserted(c, s));
  }

  lemma PrependedIsSorted(c: Claim, s: seq<Claim>)
    requires IsSorted(s) && forall x <- s :: !Before(x, c)
    ensures IsSorted([c] + s)
  {
    hide Before;
  }

  lemma BeforeIsTransitive(a: Claim, b: Claim, c: Claim)
    ensures !Before(a, c) && !Before(b, a) ==> !Before(b, c)
    ensures Before(a, c) ==> !Before(c, a)
    ensures !Before(a, a)
  {
  }

  lemma {:induction false} SortedIsSorted(s: seq<Claim>)
    ensures IsSorted(Sorted(s))
  {
    if s != [] {
      SortedIsSorted(s[1..]);
      InsertedIsSorted(s[0], Sorted(s[1..]));
    }
  }

  // Claims of distinct sources have one order only.
  lemma {:induction false} OneOrder(a: seq<Claim>, b: seq<Claim>)
    requires IsSorted(a) && IsSorted(b) && DistinctSources(a) && DistinctSources(b)
    requires forall c :: c in a <==> c in b
    ensures a == b
  {
    hide Before, DistinctSources;
    SomeElement(a);
    SomeElement(b);
    if a != [] {
      assert a[0] in a && a[0] in b;
      assert b[0] in b && b[0] in a;
      SameFirst(a, b);
      WithoutFirst(a);
      WithoutFirst(b);
      OneOrder(a[1..], b[1..]);
      assert a == [a[0]] + a[1..] && b == [b[0]] + b[1..];
    }
  }

  lemma WithoutFirst(s: seq<Claim>)
    requires s != [] && DistinctSources(s)
    ensures forall c :: c in s[1..] <==> c in s && c != s[0]
    ensures DistinctSources(s[1..])
  {
  }

  lemma SomeElement(s: seq<Claim>)
    ensures s != [] ==> exists c :: c in s
  {
    if s != [] {
      assert s[0] in s;
    }
  }

  lemma SameFirst(a: seq<Claim>, b: seq<Claim>)
    requires IsSorted(a) && IsSorted(b) && DistinctSources(a)
    requires a != [] && b != [] && a[0] in b && b[0] in a
    ensures a[0] == b[0]
  {
    var i :| 0 <= i < |a| && a[i] == b[0];
    var j :| 0 <= j < |b| && b[j] == a[0];
    BeforeIsTotal(a[0], b[0]);
  }

  lemma BeforeIsTotal(a: Claim, b: Claim)
    ensures Before(a, b) || Before(b, a) || a.source == b.source
  {
    RanksDiffer(a.authority, b.authority);
  }

  lemma RanksDiffer(a: Authority, b: Authority)
    ensures Rank(a) == Rank(b) ==> a == b
  {
  }

  ghost predicate DistinctSources(claims: seq<Claim>) {
    forall i, j :: 0 <= i < j < |claims| ==> claims[i].source != claims[j].source
  }

  // ---- the scan ----------------------------------------------------------------------

  predicate ClassPair(a: Claim, b: Claim) {
    (AssertsLoss(a.verdict) && AssertsAbsence(b.verdict)) || (AssertsAbsence(a.verdict) && AssertsLoss(b.verdict))
  }

  predicate Incompatible(a: Claim, b: Claim, tolerance: U32) {
    && a.current && b.current
    && (ClassPair(a, b)
        || (a.ratioDefined && b.ratioDefined
            && (if a.ratioBp >= b.ratioBp then a.ratioBp - b.ratioBp else b.ratioBp - a.ratioBp) > tolerance))
  }

  function Current(claims: seq<Claim>): seq<Claim> {
    if claims == [] then []
    else if claims[|claims| - 1].current then Current(claims[..|claims| - 1]) + [claims[|claims| - 1]]
    else Current(claims[..|claims| - 1])
  }

  predicate HasSource(s: seq<Claim>, source: U64) {
    exists c <- s :: c.source == source
  }

  // The first claim of each source.
  function OnePerSource(claims: seq<Claim>): seq<Claim> {
    if claims == [] then []
    else
      var front, last := OnePerSource(claims[..|claims| - 1]), claims[|claims| - 1];
      if HasSource(front, last.source) then front else front + [last]
  }

  method SelectCurrent(claims: seq<Claim>) returns (selected: seq<Claim>)
    ensures selected == Current(claims)
  {
    selected := [];
    for i := 0 to |claims|
      invariant selected == Current(claims[..i])
    {
      assert claims[..i + 1][..i] == claims[..i];
      if claims[i].current {
        selected := selected + [claims[i]];
      }
    }
    assert claims[..|claims|] == claims;
  }

  method SelectOnePerSource(claims: seq<Claim>) returns (selected: seq<Claim>)
    ensures selected == OnePerSource(claims)
  {
    selected := [];
    for i := 0 to |claims|
      invariant selected == OnePerSource(claims[..i])
    {
      assert claims[..i + 1][..i] == claims[..i];
      var already := HasSource(selected, claims[i].source);
      if !already {
        selected := selected + [claims[i]];
      }
    }
    assert claims[..|claims|] == claims;
  }

  // What the nested loops look for, row by row.
  ghost predicate ClassRow(s: seq<Claim>, i: nat, tolerance: U32)
    requires i < |s|
  {
    exists j :: i < j < |s| && Incompatible(s[i], s[j], tolerance) && ClassPair(s[i], s[j])
  }

  ghost predicate RatioRow(s: seq<Claim>, i: nat, tolerance: U32)
    requires i < |s|
  {
    exists j :: i < j < |s| && Incompatible(s[i], s[j], tolerance) && !ClassPair(s[i], s[j])
  }

  ghost predicate SomeClassPair(s: seq<Claim>, tolerance: U32) {
    exists i :: 0 <= i < |s| && ClassRow(s, i, tolerance)
  }

  ghost predicate SomeRatioPair(s: seq<Claim>, tolerance: U32) {
    exists i :: 0 <= i < |s| && RatioRow(s, i, tolerance)
  }

  // The lowest and highest defined ratio, starting from 10000 and 0.
  function Lowest(s: seq<Claim>): U32 {
    if s == [] then 10000
    else
      var rest, last := Lowest(s[..|s| - 1]), s[|s| - 1];
      if last.ratioDefined && last.ratioBp < rest then last.ratioBp else rest
  }

  function Highest(s: seq<Claim>): U32 {
    if s == [] then 0
    else
      var rest, last := Highest(s[..|s| - 1]), s[|s| - 1];
      if last.ratioDefined && last.ratioBp > rest then last.ratioBp else rest
  }

  predicate AnyRatio(s: seq<Claim>) {
    exists c <- s :: c.ratioDefined
  }

  method Scan(s: seq<Claim>, tolerance: U32)
      returns (classPair: bool, ratioPair: bool, lowest: U32, highest: U32, anyRatio: bool)
    ensures classPair == SomeClassPair(s, tolerance) && ratioPair == SomeRatioPair(s, tolerance)
    ensures lowest == Lowest(s) && highest == Highest(s) && anyRatio == AnyRatio(s)
  {
    hide ClassRow, RatioRow, Lowest, Highest, AnyRatio;
    classPair, ratioPair, anyRatio := false, false, false;
    lowest, highest := 10000, 0;
    EmptyRange(s[..0]);
    for i := 0 to |s|
      invariant classPair <==> exists k :: 0 <= k < i && ClassRow(s, k, tolerance)
      invariant ratioPair <==> exists k :: 0 <= k < i && RatioRow(s, k, tolerance)
      invariant lowest == Lowest(s[..i]) && highest == Highest(s[..i]) && anyRatio == AnyRatio(s[..i])
    {
      var classInRow, ratioInRow := ScanRow(s, i, tolerance);
      classPair, ratioPair := classPair || classInRow, ratioPair || ratioInRow;
      RangeStep(s, i);
      if s[i].ratioDefined {
        anyRatio := true;
        lowest := if s[i].ratioBp < lowest then s[i].ratioBp else lowest;
        highest := if s[i].ratioBp > highest then s[i].ratioBp else highest;
      }
    }
    assert s[..|s|] == s;
  }

  lemma EmptyRange(s: seq<Claim>)
    requires s == []
    ensures Lowest(s) == 10000 && Highest(s) == 0 && !AnyRatio(s)
  {
  }

  lemma RangeStep(s: seq<Claim>, i: nat)
    requires i < |s|
    ensures AnyRatio(s[..i + 1]) <==> AnyRatio(s[..i]) || s[i].ratioDefined
    ensures var low := Lowest(s[..i]);
            Lowest(s[..i + 1]) == if s[i].ratioDefined && s[i].ratioBp < low then s[i].ratioBp else low
    ensures var high := Highest(s[..i]);
            Highest(s[..i + 1]) == if s[i].ratioDefined && s[i].ratioBp > high then s[i].ratioBp else high
  {
    assert s[..i + 1][..i] == s[..i];
    assert s[..i + 1] == s[..i] + [s[i]];
  }

  method ScanRow(s: seq<Claim>, i: nat, tolerance: U32) returns (classPair: bool, ratioPair: bool)
    requires i < |s|
    ensures classPair == ClassRow(s, i, tolerance) && ratioPair == RatioRow(s, i, tolerance)
  {
    classPair, ratioPair := false, false;
    for j := i + 1 to |s|
      invariant classPair <==> exists b :: i < b < j && Incompatible(s[i], s[b], tolerance) && ClassPair(s[i], s[b])
      invariant ratioPair <==> exists b :: i < b < j && Incompatible(s[i], s[b], tolerance) && !ClassPair(s[i], s[b])
    {
      if Incompatible(s[i], s[j], tolerance) {
        if ClassPair(s[i], s[j]) {
          classPair := true;
        } else {
          ratioPair := true;
        }
      }
    }
  }

  // The subtraction is one of 32-bit words.
  function SpreadOf(lowest: U32, highest: U32): U32 {
    var low: int, high: int := lowest, highest;
    (high - low) % 0x1_0000_0000
  }

  function TopCount(s: seq<Claim>, top: Authority): nat {
    if s == [] then 0 else TopCount(s[..|s| - 1], top) + if s[|s| - 1].authority == top then 1 else 0
  }

  // The outcome for the claims that are current, one of each source, in order.
  ghost function Outcome(ordered: seq<Claim>, s: seq<Claim>, tolerance: U32): Resolution {
    if |s| < 2 || (!SomeClassPair(s, tolerance) && !SomeRatioPair(s, tolerance)) then AGREED.(claims := ordered)
    else
      var basis := if SomeClassPair(s, tolerance) then ClassDivergence else RatioDivergence;
      var spread := if AnyRatio(s) then SpreadOf(Lowest(s), Highest(s)) else 0;
      if TopCount(s, s[0].authority) == 1 && s[0].authority != NoAuthority then
        Resolution(true, basis, ordered, s[1..], true, Some(s[0].source), spread)
      else
        Resolution(true, basis, ordered, [], false, None, spread)
  }

  ghost function Evaluated(claims: seq<Claim>, tolerance: U32): Resolution {
    var ordered := Sorted(Current(claims));
    Outcome(ordered, OnePerSource(ordered), tolerance)
  }

  method Evaluate(claims: seq<Claim>, tolerance: U32) returns (r: Resolution)
    ensures r == Evaluated(claims, tolerance)
  {
    hide SomeClassPair, SomeRatioPair, AnyRatio, Lowest, Highest, Sorted, Current, OnePerSource;
    var current := SelectCurrent(claims);
    current := Sorted(current);
    var distinct := SelectOnePerSource(current);
    r := AGREED.(claims := current);
    if |distinct| < 2 {
      return;
    }
    var classPair, ratioPair, lowest, highest, anyRatio := Scan(distinct, tolerance);
    if !classPair && !ratioPair {
      return;
    }
    r := r.(conflicted := true, basis := if classPair then ClassDivergence else RatioDivergence,
            spreadBp := if anyRatio then SpreadOf(lowest, highest) else 0);
    var top := distinct[0].authority;
    var topCount := 0;
    for i := 0 to |distinct|
      invariant topCount == TopCount(distinct[..i], top)
    {
      assert distinct[..i + 1][..i] == distinct[..i];
      if distinct[i].authority == top {
        topCount := topCount + 1;
      }
    }
    assert distinct[..|distinct|] == distinct;
    if topCount == 1 && top != NoAuthority {
      r := r.(resolved := true, authoritative := Some(distinct[0].source));
      var retained := [];
      for i := 1 to |distinct|
        invariant retained == distinct[1..i]
      {
        retained := retained + [distinct[i]];
      }
      r := r.(retained := retained);
    }
  }

  // ---- the scan equals a linear test -----------------------------------------------------

  // Someone asserts loss and someone asserts its absence.
  ghost predicate Contradict(claims: seq<Claim>) {
    (exists c <- claims :: c.current && AssertsLoss(c.verdict))
    && (exists c <- claims :: c.current && AssertsAbsence(c.verdict))
  }

  // The defined ratios reach further than the tolerance.
  ghost predicate Spread(claims: seq<Claim>, tolerance: U32) {
    exists a <- claims, b <- claims ::
      a.current && b.current && a.ratioDefined && b.ratioDefined && a.ratioBp - b.ratioBp > tolerance
  }

  lemma {:induction false} CurrentOnly(claims: seq<Claim>)
    ensures forall c :: c in Current(claims) <==> c in claims && c.current
    ensures DistinctSources(claims) ==> DistinctSources(Current(claims))
  {
    if claims != [] {
      var front := claims[..|claims| - 1];
      CurrentOnly(front);
      assert claims == front + [claims[|claims| - 1]];
      if DistinctSources(claims) {
        assert forall c <- Current(front) :: c in front;
        assert forall c <- front :: c.source != claims[|claims| - 1].source;
      }
    }
  }

  lemma {:induction false} AlreadyDistinct(claims: seq<Claim>)
    requires DistinctSources(claims)
    ensures OnePerSource(claims) == claims
  {
    if claims != [] {
      var front := claims[..|claims| - 1];
      AlreadyDistinct(front);
      assert claims == front + [claims[|claims| - 1]];
    }
  }

  // Distinctness of sources does not depend on the order.
  lemma {:induction false} SortedStaysDistinct(s: seq<Claim>)
    requires DistinctSources(s)
    ensures DistinctSources(Sorted(s))
    ensures forall c :: c in Sorted(s) <==> c in s
  {
    SameElements(Sorted(s), s);
    if s != [] {
      SortedStaysDistinct(s[1..]);
      SameElements(Sorted(s[1..]), s[1..]);
      assert forall c <- Sorted(s[1..]) :: c in s[1..];
      assert forall c <- s[1..] :: c.source != s[0].source;
      InsertedStaysDistinct(s[0], Sorted(s[1..]));
    }
  }

  lemma SameElements(a: seq<Claim>, b: seq<Claim>)
    requires multiset(a) == multiset(b)
    ensures forall c :: c in a <==> c in b
  {
    forall c
      ensures c in a <==> c in b
    {
      assert c in a <==> c in multiset(a);
      assert c in b <==> c in multiset(b);
    }
  }

  lemma {:induction false} InsertedStaysDistinct(c: Claim, s: seq<Claim>)
    requires DistinctSources(s) && forall x <- s :: x.source != c.source
    ensures DistinctSources(Inserted(c, s))
  {
    if s != [] && Before(s[0], c) {
      InsertedStaysDistinct(c, s[1..]);
      var rest := Inserted(c, s[1..]);
      forall x | x in rest
        ensures x.source != s[0].source
      {
        assert x in multiset(rest);
        assert x == c || x in multiset(s[1..]);
        if x != c {
          assert x in s[1..];
        }
      }
    }
  }

  // Two claims in a sequence are a pair of it in one order or the other.
  lemma PairOf(s: seq<Claim>, a: Claim, b: Claim) returns (i: nat, j: nat)
    requires a in s && b in s && a != b
    ensures i < j < |s| && ((s[i] == a && s[j] == b) || (s[i] == b && s[j] == a))
  {
    var x :| 0 <= x < |s| && s[x] == a;
    var y :| 0 <= y < |s| && s[y] == b;
    i, j := if x < y then x else y, if x < y then y else x;
  }

  lemma PairsAreLinear(s: seq<Claim>, tolerance: U32)
    requires forall c <- s :: c.current
    ensures SomeClassPair(s, tolerance) <==> Contradict(s)
    ensures SomeClassPair(s, tolerance) || SomeRatioPair(s, tolerance) <==> Contradict(s) || Spread(s, tolerance)
  {
    ClassPairsAreLinear(s, tolerance);
    RatioPairsAreLinear(s, tolerance);
  }

  lemma ClassPairsAreLinear(s: seq<Claim>, tolerance: U32)
    requires forall c <- s :: c.current
    ensures SomeClassPair(s, tolerance) <==> Contradict(s)
  {
    if Contradict(s) {
      var a :| a in s && a.current && AssertsLoss(a.verdict);
      var b :| b in s && b.current && AssertsAbsence(b.verdict);
      assert a.verdict != b.verdict;
      var i, j := PairOf(s, a, b);
      assert Incompatible(s[i], s[j], tolerance) && ClassPair(s[i], s[j]);
      assert ClassRow(s, i, tolerance);
    }
    if SomeClassPair(s, tolerance) {
      var i :| 0 <= i < |s| && ClassRow(s, i, tolerance);
      var j :| i < j < |s| && Incompatible(s[i], s[j], tolerance) && ClassPair(s[i], s[j]);
      assert s[i] in s && s[j] in s;
    }
  }

  lemma RatioPairsAreLinear(s: seq<Claim>, tolerance: U32)
    requires forall c <- s :: c.current
    ensures SomeRatioPair(s, tolerance) ==> Spread(s, tolerance)
    ensures Spread(s, tolerance) ==> SomeClassPair(s, tolerance) || SomeRatioPair(s, tolerance)
  {
    if Spread(s, tolerance) {
      var a, b :| a in s && b in s && a.current && b.current && a.ratioDefined && b.ratioDefined
                  && a.ratioBp - b.ratioBp > tolerance;
      var i, j := PairOf(s, a, b);
      assert Incompatible(s[i], s[j], tolerance);
      assert ClassRow(s, i, tolerance) || RatioRow(s, i, tolerance);
    }
    if SomeRatioPair(s, tolerance) {
      var i :| 0 <= i < |s| && RatioRow(s, i, tolerance);
      var j :| i < j < |s| && Incompatible(s[i], s[j], tolerance) && !ClassPair(s[i], s[j]);
      assert s[i] in s && s[j] in s;
    }
  }

  // The whole procedure, for claims of distinct sources in any order.
  lemma ConflictIsLinear(claims: seq<Claim>, tolerance: U32)
    requires DistinctSources(claims)
    ensures Evaluated(claims, tolerance).conflicted <==> Contradict(claims) || Spread(claims, tolerance)
    ensures Evaluated(claims, tolerance).basis == ClassDivergence <==> Contradict(claims)
  {
    hide Sorted, Current, OnePerSource, SomeClassPair, SomeRatioPair;
    var s := Sorted(Current(claims));
    CurrentOnly(claims);
    SortedStaysDistinct(Current(claims));
    AlreadyDistinct(s);
    PairsAreLinear(s, tolerance);
    SameQuestions(claims, s, tolerance);
    if |s| < 2 {
      TwoNeeded(s, tolerance);
    }
  }

  lemma SameQuestions(claims: seq<Claim>, s: seq<Claim>, tolerance: U32)
    requires forall c :: c in s <==> c in claims && c.current
    ensures Contradict(s) <==> Contradict(claims)
    ensures Spread(s, tolerance) <==> Spread(claims, tolerance)
  {
    if Contradict(claims) {
      var a :| a in claims && a.current && AssertsLoss(a.verdict);
      var b :| b in claims && b.current && AssertsAbsence(b.verdict);
      assert a in s && b in s;
    }
    if Spread(claims, tolerance) {
      var a, b :| a in claims && b in claims && a.current && b.current && a.ratioDefined && b.ratioDefined
                  && a.ratioBp - b.ratioBp > tolerance;
      assert a in s && b in s;
    }
  }

  lemma TwoNeeded(s: seq<Claim>, tolerance: U32)
    requires |s| < 2
    ensures !SomeClassPair(s, tolerance) && !SomeRatioPair(s, tolerance)
  {
  }

  // ---- resolution by authority -----------------------------------------------------------

  // One current claim outranks every other.
  ghost predicate Outranks(claims: seq<Claim>, w: Claim) {
    && w in claims && w.current && w.authority != NoAuthority
    && forall c <- claims :: c.current && c != w ==> Rank(c.authority) < Rank(w.authority)
  }

  lemma {:induction false} TopCountIsOne(s: seq<Claim>)
    requires s != []
    ensures TopCount(s, s[0].authority) >= 1
    ensures TopCount(s, s[0].authority) == 1 <==> forall i :: 1 <= i < |s| ==> s[i].authority != s[0].authority
  {
    var front := s[..|s| - 1];
    if front == [] {
      assert TopCount(front, s[0].authority) == 0;
    } else {
      TopCountIsOne(front);
    }
  }

  // A conflict is resolved exactly when one claim alone holds the highest
  // authority and that is not none; every other current claim is retained.
  lemma ResolvedByAuthority(claims: seq<Claim>, tolerance: U32)
    requires DistinctSources(claims) && Evaluated(claims, tolerance).conflicted
    ensures var r := Evaluated(claims, tolerance);
            && (r.resolved <==> exists w :: Outranks(claims, w))
            && (r.resolved ==> exists w :: Outranks(claims, w) && r.authoritative == Some(w.source)
                                && forall c :: c in r.retained <==> c in claims && c.current && c != w)
            && (!r.resolved ==> r.retained == [] && r.authoritative == None)
            && (forall c :: c in r.claims <==> c in claims && c.current)
  {
    hide Sorted, Current, OnePerSource, SomeClassPair, SomeRatioPair, TopCount, AnyRatio;
    var s := Sorted(Current(claims));
    CurrentOnly(claims);
    SortedStaysDistinct(Current(claims));
    AlreadyDistinct(s);
    SortedIsSorted(Current(claims));
    TopCountIsOne(s);
    FirstOutranks(claims, s);
    var r := Evaluated(claims, tolerance);
    if r.resolved {
      assert forall c :: c in s[1..] <==> c in s && c != s[0];
    }
  }

  lemma FirstOutranks(claims: seq<Claim>, s: seq<Claim>)
    requires s != [] && IsSorted(s) && DistinctSources(s)
    requires forall c :: c in s <==> c in claims && c.current
    ensures Outranks(claims, s[0]) <==>
              s[0].authority != NoAuthority && forall i :: 1 <= i < |s| ==> s[i].authority != s[0].authority
    ensures forall w :: Outranks(claims, w) ==> w == s[0]
  {
    assert s[0] in s;
    forall w | Outranks(claims, w)
      ensures w == s[0]
    {
      var k :| 0 <= k < |s| && s[k] == w;
    }
    if Outranks(claims, s[0]) {
      forall i | 1 <= i < |s|
        ensures s[i].authority != s[0].authority
      {
        assert s[i] in s;
      }
    }
    if s[0].authority != NoAuthority && forall i :: 1 <= i < |s| ==> s[i].authority != s[0].authority {
      forall c <- claims | c.current && c != s[0]
        ensures Rank(c.authority) < Rank(s[0].authority)
      {
        var k :| 0 <= k < |s| && s[k] == c;
        RanksDiffer(s[k].authority, s[0].authority);
      }
    }
  }

  // The reported spread is the largest difference between two defined ratios.
  lemma SpreadIsLargest(claims: seq<Claim>, tolerance: U32)
    requires DistinctSources(claims) && Evaluated(claims, tolerance).conflicted
    requires forall c <- claims :: c.ratioBp <= 10000
    ensures var spread := Evaluated(claims, tolerance).spreadBp;
            && (forall a <- claims, b <- claims ::
                  a.current && b.current && a.ratioDefined && b.ratioDefined ==> a.ratioBp - b.ratioBp <= spread)
            && (spread > 0 ==> Spread(claims, spread - 1))
  {
    hide Sorted, Current, OnePerSource, SomeClassPair, SomeRatioPair, TopCount;
    var s := Sorted(Current(claims));
    CurrentOnly(claims);
    SortedStaysDistinct(Current(claims));
    AlreadyDistinct(s);
    RangeOf(s);
  }

  lemma {:induction false} RangeOf(s: seq<Claim>)
    requires forall c <- s :: c.ratioBp <= 10000
    ensures forall c <- s :: c.ratioDefined ==> Lowest(s) <= c.ratioBp <= Highest(s)
    ensures AnyRatio(s) ==>
              && (exists c <- s :: c.ratioDefined && c.ratioBp == Lowest(s))
              && (exists c <- s :: c.ratioDefined && c.ratioBp == Highest(s))
  {
    if s != [] {
      var front, last := s[..|s| - 1], s[|s| - 1];
      assert s == front + [last];
      RangeOf(front);
      if !AnyRatio(front) {
        NoRange(front);
      }
      assert last in s && forall c <- front :: c in s;
    }
  }

  lemma {:induction false} NoRange(s: seq<Claim>)
    requires !AnyRatio(s)
    ensures Lowest(s) == 10000 && Highest(s) == 0
  {
    if s != [] {
      var front := s[..|s| - 1];
      assert s == front + [s[|s| - 1]];
      assert s[|s| - 1] in s && forall c <- front :: c in s;
      NoRange(front);
    }
  }
}
