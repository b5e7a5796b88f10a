// Sender and receiver reports of one group, compared: each sender takes the
// nearest receiver that is still free.
module Pairing {
  import opened Bytes
  import opened Evidence
  import opened Observation

  // What became of the reports, in the order in which that was decided.
  datatype Outcome = Paired(sender: nat, receiver: nat) | Unpaired(report: nat)

  type PairIds = (U64, U64) -> U64
  type OwnIds = U64 -> U64

  predicate Reports(item: Item, role: EndpointRole) {
    item.payload.EndpointReport? && item.payload.role == role
  }

  function Distance(a: Item, b: Item): nat {
    var d: int := b.header.observedAt - a.header.observedAt;
    if d < 0 then -d else d
  }

  // Two reports that may be compared: opposite ends, different nodes, close in time.
  predicate Compatible(a: Item, b: Item, window: int) {
    && Reports(a, Sender) && Reports(b, Receiver)
    && a.payload.endNode != b.payload.endNode && Distance(a, b) <= window
  }

  // ---- observations ----------------------------------------------------------------------

  function Base(item: Item, id: U64): Observation {
    var h := item.header;
    Observation(id, h.id, h.source, h.epoch, h.generation, h.revision, h.sequence, h.observedAt, h.receivedAt,
                h.subject, h.granularity, h.method_, RatioLoss, Valid, NoDiscontinuity,
                0, 0, false, false, 0, h.method_ == SyntheticInjection, h.recovered)
  }

  function Compared(a: Item, b: Item, id: U64): Observation
    requires a.payload.EndpointReport? && b.payload.EndpointReport?
  {
    var o := Base(a, id).(recovered := a.header.recovered || b.header.recovered);
    var offered, arrived := a.payload.count, b.payload.count;
    if a.payload.reset || b.payload.reset then o.(validity := Discontinuous, discontinuity := CounterReset)
    else if arrived > offered then o.(validity := Implausible)
    else
      var counted := o.(offered := offered, offeredKnown := true, lost := offered - arrived);
      if offered == 0 then counted.(validity := UndefinedRatio)
      else counted.(ratioBp := RatioBp(offered - arrived, offered), ratioDefined := true)
  }

  function Observed(group: seq<Item>, outcome: Outcome, pairId: PairIds, ownId: OwnIds): Observation
    requires Refers(outcome, group)
  {
    match outcome
    case Paired(i, j) => Compared(group[i], group[j], pairId(group[i].header.id, group[j].header.id))
    case Unpaired(i) => Base(group[i], ownId(group[i].header.id)).(validity := Insufficient)
  }

  predicate Refers(outcome: Outcome, group: seq<Item>) {
    match outcome
    case Paired(i, j) =>
      i < |group| && j < |group| && group[i].payload.EndpointReport? && group[j].payload.EndpointReport?
    case Unpaired(i) => i < |group|
  }

  // ---- what a matching must be ------------------------------------------------------------

  predicate Uses(outcome: Outcome, k: nat) {
    match outcome
    case Paired(i, j) => k == i || k == j
    case Unpaired(i) => k == i
  }

  ghost predicate UsedSomewhere(outcomes: seq<Outcome>, k: nat) {
    exists o <- outcomes :: Uses(o, k)
  }

  // No report is used twice.
  ghost predicate UsedOnce(outcomes: seq<Outcome>) {
    && (forall a, b, k: nat :: 0 <= a < b < |outcomes| && Uses(outcomes[a], k) ==> !Uses(outcomes[b], k))
    && (forall a :: 0 <= a < |outcomes| && outcomes[a].Paired? ==> outcomes[a].sender != outcomes[a].receiver)
  }

  ghost predicate PairsFit(group: seq<Item>, outcomes: seq<Outcome>, window: int) {
    && (forall o <- outcomes :: Refers(o, group))
    && (forall o <- outcomes :: o.Paired? ==> Compatible(group[o.sender], group[o.receiver], window))
  }

  // Nothing left over could have been paired.
  ghost predicate Maximal(group: seq<Item>, outcomes: seq<Outcome>, window: int) {
    forall i: nat, j: nat :: i < |group| && j < |group| && Unpaired(i) in outcomes && Unpaired(j) in outcomes ==>
      !Compatible(group[i], group[j], window)
  }

  // Nearer to a sender than another receiver; of equal ones the earlier is.
  predicate Closer(group: seq<Item>, i: nat, k: nat, j: nat)
    requires i < |group| && j < |group| && k < |group|
  {
    var mine, other := Distance(group[i], group[k]), Distance(group[i], group[j]);
    mine < other || (mine == other && k < j)
  }

  // Every receiver that would have suited the sender better was used before.
  ghost predicate Chosen(group: seq<Item>, before: seq<Outcome>, i: nat, j: nat, window: int)
    requires i < |group| && j < |group|
  {
    forall k: nat :: k < |group| && k != i && Compatible(group[i], group[k], window) && Closer(group, i, k, j) ==>
      UsedSomewhere(before, k)
  }

  // Senders below n chose in their order, each the nearest receiver that was left.
  ghost predicate Greedy(group: seq<Item>, outcomes: seq<Outcome>, window: int, n: nat) {
    && (forall a :: 0 <= a < |outcomes| && outcomes[a].Paired? ==>
          && outcomes[a].sender < n && outcomes[a].sender < |group| && outcomes[a].receiver < |group|
          && Chosen(group, outcomes[..a], outcomes[a].sender, outcomes[a].receiver, window))
    && (forall a, b :: 0 <= a < b < |outcomes| && outcomes[a].Paired? && outcomes[b].Paired? ==>
          outcomes[a].sender < outcomes[b].sender)
  }

  lemma {:induction false} GreedyUnpaired(group: seq<Item>, outcomes: seq<Outcome>, window: int, n: nat, i: nat, m: nat)
    requires Greedy(group, outcomes, window, n) && n <= m
    ensures Greedy(group, outcomes, window, m) && Greedy(group, outcomes + [Unpaired(i)], window, m)
  {
    hide Chosen;
    var more := outcomes + [Unpaired(i)];
    forall a | 0 <= a < |more| && more[a].Paired?
      ensures more[..a] == outcomes[..a] && more[a] == outcomes[a]
    {
    }
  }

  lemma {:induction false} GreedyPaired(group: seq<Item>, outcomes: seq<Outcome>, window: int, i: nat, j: nat)
    requires Greedy(group, outcomes, window, i) && i < |group| && j < |group|
    requires Chosen(group, outcomes, i, j, window)
    ensures Greedy(group, outcomes + [Paired(i, j)], window, i + 1)
  {
    hide Chosen;
    var more := outcomes + [Paired(i, j)];
    assert more[..|outcomes|] == outcomes;
    forall a | 0 <= a < |outcomes|
      ensures more[..a] == outcomes[..a] && more[a] == outcomes[a]
    {
    }
  }

  lemma {:induction false} BestIsChosen(group: seq<Item>, consumed: seq<bool>, outcomes: seq<Outcome>, window: int,
                                        i: nat, j: nat)
    requires InStep(group, consumed, outcomes, window) && i < |group| && j < |group|
    requires forall k :: 0 <= k < |group| && k != i && !consumed[k] && Compatible(group[i], group[k], window) ==>
               !Closer(group, i, k, j)
    ensures Chosen(group, outcomes, i, j, window)
  {
    hide Compatible, Closer, UsedOnce, PairsFit, UsedSomewhere;
  }

  // A matching that the observations report: complete, without overlap, maximal, and
  // the one that choosing the nearest leads to.
  ghost predicate Explains(group: seq<Item>, outcomes: seq<Outcome>, observations: seq<Observation>, window: int,
                           pairId: PairIds, ownId: OwnIds) {
    && UsedOnce(outcomes) && PairsFit(group, outcomes, window)
    && (forall k: nat :: k < |group| ==> UsedSomewhere(outcomes, k))
    && Accounted(outcomes) == |group|
    && Maximal(group, outcomes, window)
    && Greedy(group, outcomes, window, |group|)
    && Described(group, outcomes, observations, pairId, ownId)
  }

  // How many reports the outcomes account for.
  function Accounted(outcomes: seq<Outcome>): nat {
    if outcomes == [] then 0
    else Accounted(outcomes[..|outcomes| - 1]) + if outcomes[|outcomes| - 1].Paired? then 2 else 1
  }

  function CountTrue(flags: seq<bool>): nat {
    if flags == [] then 0 else (if flags[0] then 1 else 0) + CountTrue(flags[1..])
  }

  lemma {:induction false} CountSet(flags: seq<bool>, i: nat)
    requires i < |flags| && !flags[i]
    ensures CountTrue(flags[i := true]) == CountTrue(flags) + 1
  {
    if i == 0 {
      assert flags[0 := true][1..] == flags[1..];
    } else {
      CountSet(flags[1..], i - 1);
      assert flags[i := true][1..] == flags[1..][i - 1 := true];
    }
  }

  lemma {:induction false} CountAll(flags: seq<bool>)
    requires forall i :: 0 <= i < |flags| ==> flags[i]
    ensures CountTrue(flags) == |flags|
  {
    if flags != [] {
      CountAll(flags[1..]);
    }
  }

  lemma {:induction false} CountNone(n: nat)
    ensures CountTrue(seq(n, _ => false)) == 0
  {
    if n > 0 {
      CountNone(n - 1);
      assert seq<bool>(n, _ => false)[1..] == seq<bool>(n - 1, _ => false);
    }
  }

  // The state of the loops: a report is consumed exactly when it is used.
  ghost predicate InStep(group: seq<Item>, consumed: seq<bool>, outcomes: seq<Outcome>, window: int) {
    && |consumed| == |group|
    && UsedOnce(outcomes) && PairsFit(group, outcomes, window)
    && (forall k: nat :: k < |group| ==> (consumed[k] <==> UsedSomewhere(outcomes, k)))
    && Accounted(outcomes) == CountTrue(consumed)
  }

  lemma {:induction false} UnpairedStep(group: seq<Item>, consumed: seq<bool>, outcomes: seq<Outcome>, window: int,
                                        i: nat)
    requires InStep(group, consumed, outcomes, window) && i < |group| && !consumed[i]
    ensures InStep(group, consumed[i := true], outcomes + [Unpaired(i)], window)
  {
    var more := outcomes + [Unpaired(i)];
    CountSet(consumed, i);
    assert more[..|outcomes|] == outcomes;
    UsedStep(outcomes, Unpaired(i));
    assert !UsedSomewhere(outcomes, i);
    forall a | 0 <= a < |outcomes|
      ensures !Uses(outcomes[a], i)
    {
      assert outcomes[a] in outcomes;
    }
  }

  lemma {:induction false} UsedStep(outcomes: seq<Outcome>, o: Outcome)
    ensures forall k: nat :: UsedSomewhere(outcomes + [o], k) <==> UsedSomewhere(outcomes, k) || Uses(o, k)
  {
    assert o in outcomes + [o] && forall x <- outcomes :: x in outcomes + [o];
  }

  lemma {:induction false} PairedStep(group: seq<Item>, consumed: seq<bool>, outcomes: seq<Outcome>, window: int,
                                      i: nat, j: nat)
    requires InStep(group, consumed, outcomes, window)
    requires i < |group| && j < |group| && i != j && !consumed[i] && !consumed[j]
    requires Compatible(group[i], group[j], window)
    ensures InStep(group, consumed[i := true][j := true], outcomes + [Paired(i, j)], window)
  {
    var more := outcomes + [Paired(i, j)];
    CountSet(consumed, i);
    CountSet(consumed[i := true], j);
    assert more[..|outcomes|] == outcomes;
    UsedStep(outcomes, Paired(i, j));
    forall a | 0 <= a < |outcomes|
      ensures !Uses(outcomes[a], i) && !Uses(outcomes[a], j)
    {
      assert outcomes[a] in outcomes;
      assert !UsedSomewhere(outcomes, i) && !UsedSomewhere(outcomes, j);
    }
  }

  // The observations say what became of the reports.
  ghost predicate Described(group: seq<Item>, outcomes: seq<Outcome>, observations: seq<Observation>, pairId: PairIds,
                            ownId: OwnIds) {
    && |observations| == |outcomes|
    && forall a :: 0 <= a < |outcomes| ==>
         Refers(outcomes[a], group) && observations[a] == Observed(group, outcomes[a], pairId, ownId)
  }

  lemma {:induction false} DescribedStep(group: seq<Item>, outcomes: seq<Outcome>, observations: seq<Observation>,
                                         pairId: PairIds, ownId: OwnIds, outcome: Outcome)
    requires Described(group, outcomes, observations, pairId, ownId) && Refers(outcome, group)
    ensures Described(group, outcomes + [outcome], observations + [Observed(group, outcome, pairId, ownId)],
                      pairId, ownId)
  {
    hide Observed;
  }

  // ---- the procedure -----------------------------------------------------------------------

  // The best receiver for a sender among the first n; none is |group|.
  function Best(group: seq<Item>, consumed: seq<bool>, i: nat, window: int, n: nat): (best: nat)
    requires |consumed| == |group| && i < |group| && n <= |group|
    ensures best < n || best == |group|
  {
    if n == 0 then |group|
    else
      var best, j := Best(group, consumed, i, window, n - 1), n - 1;
      if j == i || consumed[j] || !Compatible(group[i], group[j], window) then best
      else if best == |group| || Distance(group[i], group[j]) < Distance(group[i], group[best]) then j
      else best
  }

  datatype Progress = Progress(outcomes: seq<Outcome>, consumed: seq<bool>)

  // After the senders among the first n chose.
  function SendersUpTo(group: seq<Item>, window: int, n: nat): (p: Progress)
    requires n <= |group|
    ensures |p.consumed| == |group|
  {
    if n == 0 then Progress([], seq(|group|, _ => false))
    else
      var p, i := SendersUpTo(group, window, n - 1), n - 1;
      if p.consumed[i] || !Reports(group[i], Sender) then p
      else
        var best := Best(group, p.consumed, i, window, |group|);
        if best == |group| then Progress(p.outcomes + [Unpaired(i)], p.consumed[i := true])
        else Progress(p.outcomes + [Paired(i, best)], p.consumed[i := true][best := true])
  }

  // What is left over among the first n goes unpaired.
  function LeftUpTo(group: seq<Item>, window: int, n: nat): (p: Progress)
    requires n <= |group|
    ensures |p.consumed| == |group|
  {
    if n == 0 then SendersUpTo(group, window, |group|)
    else
      var p, i := LeftUpTo(group, window, n - 1), n - 1;
      if p.consumed[i] then p else Progress(p.outcomes + [Unpaired(i)], p.consumed[i := true])
  }

  function Outcomes(group: seq<Item>, window: int): seq<Outcome> {
    LeftUpTo(group, window, |group|).outcomes
  }

  // The nearest free receiver for a sender; none is |group|.
  method FindBest(group: seq<Item>, consumed: seq<bool>, i: nat, window: int) returns (best: nat)
    requires |consumed| == |group| && i < |group| && Reports(group[i], Sender)
    ensures best == Best(group, consumed, i, window, |group|)
    ensures best < |group| ==> best != i && !consumed[best] && Compatible(group[i], group[best], window)
    ensures best == |group| ==>
              forall j :: 0 <= j < |group| && j != i && !consumed[j] ==> !Compatible(group[i], group[j], window)
    ensures best < |group| ==>
              forall j :: 0 <= j < |group| && j != i && !consumed[j] && Compatible(group[i], group[j], window) ==>
                !Closer(group, i, j, best)
  {
    best := |group|;
    var bestDistance := 0;
    for j := 0 to |group|
      invariant best <= |group| && (best < |group| ==> best < j)
      invariant best == Best(group, consumed, i, window, j)
      invariant best < |group| ==>
                  best != i && !consumed[best] && Compatible(group[i], group[best], window)
                  && bestDistance == Distance(group[i], group[best])
      invariant best == |group| ==>
                  forall k :: 0 <= k < j && k != i && !consumed[k] ==> !Compatible(group[i], group[k], window)
      invariant best < |group| ==>
                  forall k :: 0 <= k < j && k != i && !consumed[k] && Compatible(group[i], group[k], window) ==>
                    !Closer(group, i, k, best)
    {
      if j == i || consumed[j] {
        continue;
      }
      if !Reports(group[j], Receiver) {
        continue;
      }
      if group[j].payload.endNode == group[i].payload.endNode {
        continue;
      }
      var distance := Distance(group[i], group[j]);
      if distance > window {
        continue;
      }
      if best == |group| || distance < bestDistance {
        best, bestDistance := j, distance;
      }
    }
  }

  // After the first pass no sender is free, and each one left alone had no free
  // compatible receiver then; receivers taken since stay taken.
  ghost predicate SendersDone(group: seq<Item>, consumed: seq<bool>, outcomes: seq<Outcome>, window: int, n: nat) {
    && |consumed| == |group|
    && (forall k: nat :: k < n && k < |group| && Reports(group[k], Sender) ==> consumed[k])
    && (forall o <- outcomes :: o.Unpaired? ==>
          o.report < |group| && Reports(group[o.report], Sender)
          && forall j :: 0 <= j < |group| && Compatible(group[o.report], group[j], window) ==> consumed[j])
  }

  lemma {:induction false} SenderSkipped(group: seq<Item>, consumed: seq<bool>, outcomes: seq<Outcome>, window: int,
                                         i: nat)
    requires SendersDone(group, consumed, outcomes, window, i) && i < |group|
    requires consumed[i] || !Reports(group[i], Sender)
    ensures SendersDone(group, consumed, outcomes, window, i + 1)
  {
  }

  lemma {:induction false} SenderAlone(group: seq<Item>, consumed: seq<bool>, outcomes: seq<Outcome>, window: int,
                                       i: nat)
    requires SendersDone(group, consumed, outcomes, window, i) && i < |group| && Reports(group[i], Sender)
    requires forall j :: 0 <= j < |group| && j != i && !consumed[j] ==> !Compatible(group[i], group[j], window)
    ensures SendersDone(group, consumed[i := true], outcomes + [Unpaired(i)], window, i + 1)
  {
  }

  lemma {:induction false} SenderPaired(group: seq<Item>, consumed: seq<bool>, outcomes: seq<Outcome>, window: int,
                                        i: nat, j: nat)
    requires SendersDone(group, consumed, outcomes, window, i) && i < |group| && j < |group|
    ensures SendersDone(group, consumed[i := true][j := true], outcomes + [Paired(i, j)], window, i + 1)
  {
  }

  method PairSenders(group: seq<Item>, window: int, pairId: PairIds, ownId: OwnIds)
      returns (observations: seq<Observation>, consumed: seq<bool>, ghost outcomes: seq<Outcome>)
    requires forall item <- group :: item.payload.EndpointReport?
    ensures InStep(group, consumed, outcomes, window) && SendersDone(group, consumed, outcomes, window, |group|)
    ensures Described(group, outcomes, observations, pairId, ownId) && Greedy(group, outcomes, window, |group|)
    ensures Progress(outcomes, consumed) == SendersUpTo(group, window, |group|)
  {
    hide UsedOnce, PairsFit, UsedSomewhere, SendersDone, Described, Compared, Base, Compatible, Greedy, Chosen, Closer,
      Best;
    observations, outcomes := [], [];
    consumed := seq(|group|, _ => false);
    NothingPaired(group, window, pairId, ownId);
    for i := 0 to |group|
      invariant InStep(group, consumed, outcomes, window)
      invariant SendersDone(group, consumed, outcomes, window, i)
      invariant Described(group, outcomes, observations, pairId, ownId) && Greedy(group, outcomes, window, i)
      invariant Progress(outcomes, consumed) == SendersUpTo(group, window, i)
    {
      GreedyUnpaired(group, outcomes, window, i, i, i + 1);
      if consumed[i] || !Reports(group[i], Sender) {
        SenderSkipped(group, consumed, outcomes, window, i);
        continue;
      }
      var best := FindBest(group, consumed, i, window);
      if best == |group| {
        UnpairedStep(group, consumed, outcomes, window, i);
        SenderAlone(group, consumed, outcomes, window, i);
        DescribedStep(group, outcomes, observations, pairId, ownId, Unpaired(i));
        observations := observations + [Base(group[i], ownId(group[i].header.id)).(validity := Insufficient)];
        consumed := consumed[i := true];
        outcomes := outcomes + [Unpaired(i)];
      } else {
        BestIsChosen(group, consumed, outcomes, window, i, best);
        GreedyPaired(group, outcomes, window, i, best);
        PairedStep(group, consumed, outcomes, window, i, best);
        SenderPaired(group, consumed, outcomes, window, i, best);
        DescribedStep(group, outcomes, observations, pairId, ownId, Paired(i, best));
        observations := observations + [Compared(group[i], group[best],
                                                 pairId(group[i].header.id, group[best].header.id))];
        consumed := consumed[i := true][best := true];
        outcomes := outcomes + [Paired(i, best)];
      }
    }
  }

  lemma {:induction false} NothingPaired(group: seq<Item>, window: int, pairId: PairIds, ownId: OwnIds)
    ensures InStep(group, seq(|group|, _ => false), [], window)
    ensures SendersDone(group, seq(|group|, _ => false), [], window, 0)
    ensures Described(group, [], [], pairId, ownId) && Greedy(group, [], window, 0)
  {
    CountNone(|group|);
  }

  // The second pass only adds reports that the first pass left free.
  ghost predicate LeftOver(first: seq<Outcome>, taken: seq<bool>, outcomes: seq<Outcome>, consumed: seq<bool>, n: nat) {
    && first <= outcomes && |taken| == |consumed|
    && (forall k: nat :: k < |taken| && taken[k] ==> consumed[k])
    && (forall k: nat :: k < n && k < |consumed| ==> consumed[k])
    && (forall a :: |first| <= a < |outcomes| ==>
          outcomes[a].Unpaired? && outcomes[a].report < |taken| && !taken[outcomes[a].report])
  }

  lemma {:induction false} LeftOverStep(first: seq<Outcome>, taken: seq<bool>, outcomes: seq<Outcome>,
                                        consumed: seq<bool>, i: nat)
    requires LeftOver(first, taken, outcomes, consumed, i) && i < |consumed|
    ensures consumed[i] ==> LeftOver(first, taken, outcomes, consumed, i + 1)
    ensures !consumed[i] ==> LeftOver(first, taken, outcomes + [Unpaired(i)], consumed[i := true], i + 1)
  {
  }

  // Senders first, each with its nearest free receiver; then whatever is left.
  // Every report is used in exactly one observation, each pair joins a sender
  // and a receiver on different nodes within the window, and nothing left over
  // could have been paired.
  method PairReports(group: seq<Item>, window: int, pairId: PairIds, ownId: OwnIds)
      returns (observations: seq<Observation>)
    requires forall item <- group :: item.payload.EndpointReport?
    ensures Explains(group, Outcomes(group, window), observations, window, pairId, ownId)
  {
    hide SendersUpTo, UsedOnce, PairsFit, UsedSomewhere, SendersDone, Described, Base, Maximal, LeftOver, Greedy;
    var consumed;
    ghost var outcomes;
    observations, consumed, outcomes := PairSenders(group, window, pairId, ownId);
    ghost var first, taken := outcomes, consumed;
    FirstPassOver(first, taken);
    for i := 0 to |group|
      invariant InStep(group, consumed, outcomes, window)
      invariant LeftOver(first, taken, outcomes, consumed, i) && Greedy(group, outcomes, window, |group|)
      invariant Progress(outcomes, consumed) == LeftUpTo(group, window, i)
      invariant Described(group, outcomes, observations, pairId, ownId)
    {
      GreedyUnpaired(group, outcomes, window, |group|, i, |group|);
      LeftOverStep(first, taken, outcomes, consumed, i);
      if !consumed[i] {
        UnpairedStep(group, consumed, outcomes, window, i);
        DescribedStep(group, outcomes, observations, pairId, ownId, Unpaired(i));
        observations := observations + [Base(group[i], ownId(group[i].header.id)).(validity := Insufficient)];
        consumed := consumed[i := true];
        outcomes := outcomes + [Unpaired(i)];
      }
    }
    AllTaken(first, taken, outcomes, consumed, |group|);
    CountAll(consumed);
    NothingLeft(group, window, first, taken, outcomes, consumed);
    assert outcomes == Outcomes(group, window);
  }

  // The outcomes of any group have all those properties, and the observations are
  // theirs.
  function Reported(group: seq<Item>, outcomes: seq<Outcome>, pairId: PairIds, ownId: OwnIds): (r: seq<Observation>)
    requires forall o <- outcomes :: Refers(o, group)
  {
    if outcomes == [] then []
    else
      var last := outcomes[|outcomes| - 1];
      assert last in outcomes;
      Reported(group, outcomes[..|outcomes| - 1], pairId, ownId) + [Observed(group, last, pairId, ownId)]
  }

  lemma {:induction false} DescribedAsReported(group: seq<Item>, outcomes: seq<Outcome>, observations: seq<Observation>,
                                               pairId: PairIds, ownId: OwnIds)
    requires Described(group, outcomes, observations, pairId, ownId)
    ensures forall o <- outcomes :: Refers(o, group)
    ensures observations == Reported(group, outcomes, pairId, ownId)
  {
    hide Observed, Refers;
    if outcomes != [] {
      var n := |outcomes| - 1;
      DescribedAsReported(group, outcomes[..n], observations[..n], pairId, ownId);
      assert observations == observations[..n] + [observations[n]];
    }
  }

  lemma {:induction false} BestSuits(group: seq<Item>, consumed: seq<bool>, i: nat, window: int, n: nat)
    requires |consumed| == |group| && i < |group| && n <= |group|
    ensures var best := Best(group, consumed, i, window, n);
            best < |group| ==> best != i && !consumed[best] && Compatible(group[i], group[best], window)
  {
    hide Compatible;
    if n > 0 {
      BestSuits(group, consumed, i, window, n - 1);
    }
  }

  lemma {:induction false} SendersInStep(group: seq<Item>, window: int, n: nat)
    requires n <= |group|
    ensures var p := SendersUpTo(group, window, n);
            InStep(group, p.consumed, p.outcomes, window)
  {
    hide Best, Compatible, InStep;
    if n == 0 {
      NothingPaired(group, window, (a, b) => 0, a => 0);
    } else {
      SendersInStep(group, window, n - 1);
      var p, i := SendersUpTo(group, window, n - 1), n - 1;
      BestSuits(group, p.consumed, i, window, |group|);
      if !p.consumed[i] && Reports(group[i], Sender) {
        var best := Best(group, p.consumed, i, window, |group|);
        if best == |group| {
          UnpairedStep(group, p.consumed, p.outcomes, window, i);
        } else {
          PairedStep(group, p.consumed, p.outcomes, window, i, best);
        }
      }
    }
  }

  // Every report is used in one outcome, and every pair fits.
  lemma {:induction false} LeftInStep(group: seq<Item>, window: int, n: nat)
    requires n <= |group|
    ensures var p := LeftUpTo(group, window, n);
            && InStep(group, p.consumed, p.outcomes, window)
            && forall k :: 0 <= k < n ==> p.consumed[k]
  {
    hide InStep;
    if n == 0 {
      SendersInStep(group, window, |group|);
    } else {
      LeftInStep(group, window, n - 1);
      var p, i := LeftUpTo(group, window, n - 1), n - 1;
      if !p.consumed[i] {
        UnpairedStep(group, p.consumed, p.outcomes, window, i);
      }
    }
  }

  lemma {:induction false} OutcomesFit(group: seq<Item>, window: int)
    ensures PairsFit(group, Outcomes(group, window), window)
    ensures forall k: nat :: k < |group| ==> UsedSomewhere(Outcomes(group, window), k)
  {
    hide LeftUpTo, PairsFit, UsedOnce, UsedSomewhere;
    LeftInStep(group, window, |group|);
  }

  lemma {:induction false} FirstPassOver(first: seq<Outcome>, taken: seq<bool>)
    ensures LeftOver(first, taken, first, taken, 0)
  {
  }

  lemma {:induction false} AllTaken(first: seq<Outcome>, taken: seq<bool>, outcomes: seq<Outcome>, consumed: seq<bool>,
                                    n: nat)
    requires LeftOver(first, taken, outcomes, consumed, n) && n == |consumed|
    ensures forall k :: 0 <= k < |consumed| ==> consumed[k]
  {
  }

  lemma {:induction false} NothingLeft(group: seq<Item>, window: int, first: seq<Outcome>, taken: seq<bool>,
                                       outcomes: seq<Outcome>, consumed: seq<bool>)
    requires SendersDone(group, taken, first, window, |group|)
    requires LeftOver(first, taken, outcomes, consumed, |group|)
    ensures Maximal(group, outcomes, window)
  {
    forall i: nat, j: nat | i < |group| && j < |group| && Unpaired(i) in outcomes && Unpaired(j) in outcomes
      ensures !Compatible(group[i], group[j], window)
    {
      var a :| 0 <= a < |outcomes| && outcomes[a] == Unpaired(i);
      var b :| 0 <= b < |outcomes| && outcomes[b] == Unpaired(j);
      if a < |first| {
        assert first[a] in first;
        if b < |first| {
          assert first[b] in first;
        }
      }
    }
  }
}
