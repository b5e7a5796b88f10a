// Counter readings turned into deltas: wraps, resets and everything that makes
// two readings incomparable.
module Counter {
  import opened Bytes
  import opened Evidence

  datatype State =
    | Steady
    | WrapDetected
    | ResetDetected
    | DiscontinuityUnresolved
    | OutOfOrder
    | EpochChanged
    | GenerationChanged
    | CounterChanged
    | ImplausibleDelta
    | MissingBaseline

  datatype Policy = Policy(threshold: U64, bandDivisor: U64, allowWrap: bool, acceptWrapped: bool)

  datatype Delta = Delta(fromId: U64, toId: U64, previous: U64, current: U64, delta: U64, elapsed: int,
                         width: U8, state: State)

  predicate WidthSupported(w: U8) {
    w == 16 || w == 32 || w == 64
  }

  // Two to the width, for the widths below 64.
  function Modulus(w: U8): (m: nat)
    requires w == 16 || w == 32
  {
    if w == 16 then 0x1_0000 else 0x1_0000_0000
  }

  function Band(w: U8, policy: Policy): nat
    requires w == 16 || w == 32
  {
    Modulus(w) / (if policy.bandDivisor == 0 then 1 else policy.bandDivisor)
  }

  predicate BindingDiffers(a: Payload, b: Payload)
    requires a.CounterSample? && b.CounterSample?
  {
    !(a.counter == b.counter && a.scope == b.scope && a.node == b.node && a.port == b.port && a.queue == b.queue
      && a.hop == b.hop && a.link == b.link)
  }

  // What a pair of values of a counter of some width amounts to.
  function Judge(previous: U64, current: U64, width: U8, policy: Policy): (State, U64) {
    if current >= previous then
      if current - previous > policy.threshold then (ImplausibleDelta, 0) else (Steady, current - previous)
    else if !WidthSupported(width) then (DiscontinuityUnresolved, 0)
    else if !policy.allowWrap then (ResetDetected, 0)
    else if width == 64 then
      var wrapped := current - previous + 0x1_0000_0000_0000_0000;
      (if wrapped > policy.threshold then ImplausibleDelta else WrapDetected, wrapped)
    else
      var modulus := Modulus(width);
      // The subtraction is one of 64-bit words.
      if previous >= modulus - Band(width, policy) then
        var wrapped := (modulus - previous + current) % 0x1_0000_0000_0000_0000;
        if wrapped > policy.threshold then (ImplausibleDelta, 0) else (WrapDetected, wrapped)
      else (ResetDetected, 0)
  }

  function Comparable(a: Item, b: Item): State
    requires a.payload.CounterSample? && b.payload.CounterSample?
  {
    if a.header.sequence >= b.header.sequence then OutOfOrder
    else if b.header.observedAt < a.header.observedAt then OutOfOrder
    else if a.header.epoch != b.header.epoch then EpochChanged
    else if a.header.generation != b.header.generation then GenerationChanged
    else if BindingDiffers(a.payload, b.payload) then CounterChanged
    else Steady
  }

  function DeltaOf(a: Item, b: Item, policy: Policy): Delta
    requires a.payload.CounterSample? && b.payload.CounterSample?
  {
    var previous, current := a.payload.value, b.payload.value;
    var width := if b.payload.widthBits != 0 then b.payload.widthBits else a.payload.widthBits;
    var state := Comparable(a, b);
    var (judged, delta) := if state == Steady then Judge(previous, current, width, policy) else (state, 0);
    Delta(a.header.id, b.header.id, previous, current, delta, b.header.observedAt - a.header.observedAt, width, judged)
  }

  function Baseline(only: Item): Delta {
    var (value, width) := if only.payload.CounterSample? then (only.payload.value, only.payload.widthBits) else (0, 0);
    Delta(only.header.id, only.header.id, value, value, 0, 0, width, MissingBaseline)
  }

  // One delta for each pair of neighbours that are both counter readings.
  function Pairwise(series: seq<Item>, policy: Policy): seq<Delta>
    decreases |series|
  {
    if |series| < 2 then []
    else
      var front, a, b := Pairwise(series[..|series| - 1], policy), series[|series| - 2], series[|series| - 1];
      if a.payload.CounterSample? && b.payload.CounterSample? then front + [DeltaOf(a, b, policy)] else front
  }

  function Deltas(series: seq<Item>, policy: Policy): seq<Delta> {
    if |series| == 1 then [Baseline(series[0])] else Pairwise(series, policy)
  }

  method JudgeValues(previous: U64, current: U64, width: U8, policy: Policy) returns (state: State, delta: U64)
    ensures (state, delta) == Judge(previous, current, width, policy)
  {
    delta := 0;
    if current >= previous {
      var raw := current - previous;
      if raw > policy.threshold {
        return ImplausibleDelta, 0;
      }
      return Steady, raw;
    }
    if !policy.allowWrap || !WidthSupported(width) {
      return if !WidthSupported(width) then DiscontinuityUnresolved else ResetDetected, 0;
    }
    if width == 64 {
      var wrapped := current - previous + 0x1_0000_0000_0000_0000;
      return if wrapped > policy.threshold then ImplausibleDelta else WrapDetected, wrapped;
    }
    var modulus := Modulus(width);
    var band := Band(width, policy);
    if previous >= modulus - band {
      var wrapped := (modulus - previous + current) % 0x1_0000_0000_0000_0000;
      if wrapped > policy.threshold {
        return ImplausibleDelta, 0;
      }
      return WrapDetected, wrapped;
    }
    return ResetDetected, 0;
  }

  method DeriveCounterDeltas(series: seq<Item>, policy: Policy) returns (deltas: seq<Delta>)
    ensures deltas == Deltas(series, policy)
  {
    hide Judge, BindingDiffers;
    deltas := [];
    if |series| == 0 {
      return;
    }
    if |series| == 1 {
      return [Baseline(series[0])];
    }
    for i := 0 to |series| - 1
      invariant deltas == Pairwise(series[..i + 1], policy)
    {
      var a, b := series[i], series[i + 1];
      assert series[..i + 2][..i + 1] == series[..i + 1];
      if a.payload.CounterSample? && b.payload.CounterSample? {
        var width := if b.payload.widthBits != 0 then b.payload.widthBits else a.payload.widthBits;
        var state, delta := Steady, 0;
        var elapsed := b.header.observedAt - a.header.observedAt;
        if a.header.sequence >= b.header.sequence {
          state := OutOfOrder;
        } else if elapsed < 0 {
          state := OutOfOrder;
        } else if a.header.epoch != b.header.epoch {
          state := EpochChanged;
        } else if a.header.generation != b.header.generation {
          state := GenerationChanged;
        } else if BindingDiffers(a.payload, b.payload) {
          state := CounterChanged;
        } else {
          state, delta := JudgeValues(a.payload.value, b.payload.value, width, policy);
        }
        deltas := deltas + [Delta(a.header.id, b.header.id, a.payload.value, b.payload.value, delta, elapsed, width,
                                  state)];
      }
    }
    assert series[..|series|] == series;
  }

  // ---- exact sums across wraps ---------------------------------------------------------------

  function Range(w: U8): (m: nat)
    requires WidthSupported(w)
    ensures m > 0
  {
    if w == 64 then 0x1_0000_0000_0000_0000 else Modulus(w)
  }

  // A step that shows as it is: shorter than the whole range, plausible, and, if it
  // passes a multiple of the range, taken for a wrap: wraps are allowed, and a narrow
  // counter was within the band below the top.
  ghost predicate Readable(before: nat, after: nat, w: U8, policy: Policy)
    requires WidthSupported(w)
  {
    var m := Range(w);
    && after < before + m && after <= before + policy.threshold
    && (before / m != after / m ==>
          policy.allowWrap && (w != 64 ==> before % m >= m - Band(w, policy)))
  }

  ghost predicate Reads(item: Item, total: nat, w: U8) {
    && WidthSupported(w) && item.payload.CounterSample?
    && item.payload.widthBits == w && item.payload.value == total % Range(w)
  }

  ghost predicate Follows(a: Item, b: Item, before: nat, after: nat, w: U8, policy: Policy) {
    && a.payload.CounterSample? && b.payload.CounterSample? && WidthSupported(w)
    && Comparable(a, b) == Steady && Readable(before, after, w, policy)
  }

  // Readings of one counter whose true totals are "totals", which never fall.
  ghost predicate Readings(series: seq<Item>, totals: seq<nat>, w: U8) {
    && |series| == |totals|
    && (forall i :: 0 <= i < |series| ==> Reads(series[i], totals[i], w))
    && (forall i :: 1 <= i < |series| ==> totals[i - 1] <= totals[i])
  }

  ghost predicate AllFollow(series: seq<Item>, totals: seq<nat>, w: U8, policy: Policy)
    requires |series| == |totals|
  {
    forall i :: 1 <= i < |series| ==> Follows(series[i - 1], series[i], totals[i - 1], totals[i], w, policy)
  }

  // The delta is the true increase, and a wrap is reported exactly when the
  // total has passed a multiple of the range.
  ghost predicate Exact(d: Delta, before: nat, after: nat, w: U8) {
    && WidthSupported(w)
    && d.delta == after - before
    && d.state == (if before / Range(w) == after / Range(w) then Steady else WrapDetected)
  }

  // The delta of two readings is exact if and only if they can be compared and the
  // step between them is readable; whatever else is reported as steady or wrapped is
  // not the true increase.
  lemma {:induction false} StepIsExact(a: Item, b: Item, before: nat, after: nat, w: U8, policy: Policy)
    requires Reads(a, before, w) && Reads(b, after, w) && before <= after
    ensures Exact(DeltaOf(a, b, policy), before, after, w) <==> Follows(a, b, before, after, w, policy)
    ensures var d := DeltaOf(a, b, policy);
            (d.state == Steady || d.state == WrapDetected) && d.delta == after - before ==>
              Exact(d, before, after, w)
  {
    hide BindingDiffers, Judge, Readable;
    JudgeIsExact(before, after, w, policy);
  }

  lemma {:induction false} JudgeIsExact(before: nat, after: nat, w: U8, policy: Policy)
    requires WidthSupported(w) && before <= after
    ensures var m := Range(w);
            var (state, delta) := Judge(before % m, after % m, w, policy);
            && ((state == Steady || state == WrapDetected) && delta == after - before
                <==> Readable(before, after, w, policy))
            && (Readable(before, after, w, policy) ==>
                  state == if before / m == after / m then Steady else WrapDetected)
  {
    var m := Range(w);
    if after < before + m {
      Residues(before, after, m);
      SameTurn(before, after, m);
    } else {
      JudgedBelowRange(before % m, after % m, w, policy);
    }
  }

  lemma {:induction false} SameTurn(before: nat, after: nat, m: nat)
    requires m > 0 && before <= after < before + m
    ensures before / m == after / m <==> before % m <= after % m
  {
    Residues(before, after, m);
  }

  // What is judged steady or wrapped is less than the range.
  lemma {:induction false} JudgedBelowRange(previous: nat, current: nat, w: U8, policy: Policy)
    requires WidthSupported(w) && previous < Range(w) && current < Range(w)
    ensures var (state, delta) := Judge(previous, current, w, policy);
            state == Steady || state == WrapDetected ==> delta < Range(w)
  {
  }

  lemma {:induction false} Residues(before: nat, after: nat, m: nat)
    requires m > 0 && before <= after < before + m
    ensures before / m == after / m ==> after % m - before % m == after - before
    ensures before / m != after / m ==> after % m + m - before % m == after - before && after % m < before % m
  {
    Parts(before, m);
    Parts(after, m);
    Turns(before, after, m, before / m, after / m, before % m, after % m);
  }

  // Two places less than a range apart are on the same turn or on neighbouring ones.
  lemma {:induction false} Turns(before: nat, after: nat, m: nat, p: nat, q: nat, r: nat, t: nat)
    requires r < m && t < m && before == m * p + r && after == m * q + t && before <= after < before + m
    ensures p == q ==> t - r == after - before
    ensures p != q ==> t + m - r == after - before && t < r
  {
    NextMultiple(q, p, m);
    NextMultiple(p + 1, q, m);
    Successor(p, q, m);
  }

  lemma {:induction false} Parts(n: nat, m: nat)
    requires m > 0
    ensures n == m * (n / m) + n % m && n % m < m
  {
  }

  lemma {:induction false} Successor(p: nat, q: nat, m: nat)
    ensures m * (p + 1) == m * p + m
    ensures q == p + 1 ==> m * q == m * p + m
  {
  }

  lemma {:induction false} NextMultiple(p: nat, q: nat, m: nat)
    ensures p < q ==> m * q >= m * p + m
  {
    if p < q {
      assert m * q == m * (p + 1) + m * (q - p - 1);
      assert m * (q - p - 1) >= 0;
    }
  }

  function Total(deltas: seq<Delta>): nat {
    if deltas == [] then 0 else Total(deltas[..|deltas| - 1]) + deltas[|deltas| - 1].delta
  }

  ghost predicate AllExact(deltas: seq<Delta>, totals: seq<nat>, w: U8) {
    && |deltas| + 1 == |totals|
    && forall i :: 0 <= i < |deltas| ==> Exact(deltas[i], totals[i], totals[i + 1], w)
  }

  // Over a whole series, across any number of wraps: all deltas are exact if and only
  // if every reading follows readably on the one before, and then they add up to the
  // true increase.
  lemma {:induction false} DeltasAreExact(series: seq<Item>, totals: seq<nat>, w: U8, policy: Policy)
    requires Readings(series, totals, w) && |series| >= 1
    ensures AllExact(Pairwise(series, policy), totals, w) <==> AllFollow(series, totals, w, policy)
    ensures AllExact(Pairwise(series, policy), totals, w) ==>
              totals[0] + Total(Pairwise(series, policy)) == totals[|totals| - 1]
    ensures |Pairwise(series, policy)| == |series| - 1
    decreases |series|
  {
    hide Reads, Follows, DeltaOf, Exact;
    if |series| > 1 {
      var n := |series|;
      var front, known := series[..n - 1], totals[..n - 1];
      DeltasAreExact(front, known, w, policy);
      var a, b := series[n - 2], series[n - 1];
      assert Reads(a, totals[n - 2], w) && Reads(b, totals[n - 1], w);
      StepIsExact(a, b, totals[n - 2], totals[n - 1], w, policy);
      ReadingsAreSamples(a, totals[n - 2], w);
      ReadingsAreSamples(b, totals[n - 1], w);
      OneMoreFollows(series, totals, w, policy);
      OneMoreExact(Pairwise(front, policy), DeltaOf(a, b, policy), totals, w);
    }
  }

  lemma {:induction false} ReadingsAreSamples(item: Item, total: nat, w: U8)
    requires Reads(item, total, w)
    ensures item.payload.CounterSample?
  {
  }

  lemma {:induction false} OneMoreFollows(series: seq<Item>, totals: seq<nat>, w: U8, policy: Policy)
    requires |series| == |totals| >= 2
    ensures var n := |series|;
            (AllFollow(series, totals, w, policy)
             <==> AllFollow(series[..n - 1], totals[..n - 1], w, policy)
                  && Follows(series[n - 2], series[n - 1], totals[n - 2], totals[n - 1], w, policy))
  {
    hide Follows;
    var n := |series|;
    var front, known := series[..n - 1], totals[..n - 1];
    assert forall i :: 0 <= i < n - 1 ==> front[i] == series[i] && known[i] == totals[i];
    if AllFollow(front, known, w, policy)
       && Follows(series[n - 2], series[n - 1], totals[n - 2], totals[n - 1], w, policy) {
      forall i | 1 <= i < n
        ensures Follows(series[i - 1], series[i], totals[i - 1], totals[i], w, policy)
      {
        if i < n - 1 {
          assert Follows(front[i - 1], front[i], known[i - 1], known[i], w, policy);
        }
      }
    }
  }

  lemma {:induction false} OneMoreExact(deltas: seq<Delta>, d: Delta, totals: seq<nat>, w: U8)
    requires |totals| >= 2 && |deltas| + 2 == |totals|
    ensures AllExact(deltas + [d], totals, w)
       <==> AllExact(deltas, totals[..|totals| - 1], w) && Exact(d, totals[|totals| - 2], totals[|totals| - 1], w)
    ensures Total(deltas + [d]) == Total(deltas) + d.delta
    ensures Exact(d, totals[|totals| - 2], totals[|totals| - 1], w) ==>
              totals[|totals| - 2] + d.delta == totals[|totals| - 1]
  {
    var more, known := deltas + [d], totals[..|totals| - 1];
    assert more[..|deltas|] == deltas;
    if Exact(d, totals[|totals| - 2], totals[|totals| - 1], w) {
      LastExact(d, totals[|totals| - 2], totals[|totals| - 1], w);
    }
    hide Exact;
    assert forall i :: 0 <= i < |deltas| ==> more[i] == deltas[i];
    assert forall i :: 0 <= i < |known| ==> known[i] == totals[i];
    if AllExact(more, totals, w) {
      forall i | 0 <= i < |deltas|
        ensures Exact(deltas[i], known[i], known[i + 1], w)
      {
        assert Exact(more[i], totals[i], totals[i + 1], w);
      }
      assert Exact(more[|deltas|], totals[|deltas|], totals[|deltas| + 1], w);
    }
  }

  lemma {:induction false} LastExact(d: Delta, before: nat, after: nat, w: U8)
    requires Exact(d, before, after, w)
    ensures before + d.delta == after
  {
  }

  // A step through the whole range leaves no trace.
  lemma {:induction false} FullTurnIsLost(before: nat, w: U8, policy: Policy)
    requires WidthSupported(w)
    ensures Judge(before % Range(w), (before + Range(w)) % Range(w), w, policy) == (Steady, 0)
  {
    var m := Range(w);
    assert (before + m) % m == before % m;
  }
}
