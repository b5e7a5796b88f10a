// Evidence turned into observations: counter deltas, probes and sequence
// reports.  A payload is applied to an observation that already carries the
// provenance of its item.
module Derive {
  import opened Bytes
  import opened Evidence
  import opened Observation
  import Counter

  predicate ReportsLoss(scope: CounterScope) {
    scope == DroppedPackets || scope == DiscardedPackets || scope == ErrorPackets
  }

  function Kind(state: Counter.State): Discontinuity {
    match state
    case Steady => NoDiscontinuity
    case WrapDetected => CounterWrap
    case ResetDetected => CounterReset
    case DiscontinuityUnresolved => Unresolved
    case OutOfOrder => Discontinuity.OutOfOrder
    case EpochChanged => EpochChange
    case GenerationChanged => GenerationChange
    case CounterChanged => Unresolved
    case ImplausibleDelta => ImplausibleStep
    case MissingBaseline => Discontinuity.MissingBaseline
  }

  predicate Trusted(state: Counter.State, policy: Counter.Policy) {
    state.Steady? || (state.WrapDetected? && policy.acceptWrapped)
  }

  function ValidityOf(state: Counter.State, policy: Counter.Policy): Validity {
    match state
    case Steady => Valid
    case WrapDetected => if policy.acceptWrapped then Valid else Discontinuous
    case ImplausibleDelta => Implausible
    case MissingBaseline => Insufficient
    case _ => Discontinuous
  }

  function DeltaApplied(base: Observation, delta: Counter.Delta, scope: CounterScope, policy: Counter.Policy)
      : Observation {
    var o := base.(lost := 0, offered := 0, offeredKnown := false, ratioDefined := false, ratioBp := 0,
                   discontinuity := Kind(delta.state), validity := ValidityOf(delta.state, policy));
    if !Trusted(delta.state, policy) then o
    else if ReportsLoss(scope) then o.(semantics := DirectLoss, lost := delta.delta)
    else o.(semantics := NonLoss, offered := delta.delta, offeredKnown := true)
  }

  function ProbeApplied(base: Observation, report: Payload, implemented: bool, usable: bool): Observation
    requires report.ProbeReport?
  {
    var o := base.(semantics := RatioLoss);
    if !implemented then o.(validity := UnsupportedMethod)
    else if !usable then o.(validity := UnsupportedPrecondition)
    else if report.received > report.sent then o.(validity := Implausible)
    else Counted(o, report.sent, report.sent - report.received)
  }

  function SequenceApplied(base: Observation, report: Payload): Observation
    requires report.SequenceReport?
  {
    var o := base.(semantics := RatioLoss);
    if report.restart then o.(validity := Discontinuous, discontinuity := SequenceRestart)
    else if report.highest < report.lowest || report.highest - report.lowest >= MAX64 then o.(validity := Implausible)
    else
      var span := report.highest - report.lowest + 1;
      if report.receivedCount > span then o.(validity := Implausible) else Counted(o, span, span - report.receivedCount)
  }

  // Loss out of a known number; nothing out of nothing has no ratio.
  function Counted(o: Observation, offered: U64, lost: U64): Observation {
    var counted := o.(offered := offered, offeredKnown := true, lost := lost);
    if offered == 0 then counted.(validity := UndefinedRatio, ratioDefined := false)
    else counted.(ratioBp := RatioBp(lost, offered), ratioDefined := true)
  }

  // Only a trusted delta of a loss counter is loss; everything else leaves the
  // totals at zero, apart from the traffic a throughput counter saw.
  method ApplyCounterDelta(base: Observation, delta: Counter.Delta, scope: CounterScope, policy: Counter.Policy)
      returns (o: Observation)
    requires base.validity == Valid
    ensures o == DeltaApplied(base, delta, scope, policy)
    ensures o.validity == Valid <==> Trusted(delta.state, policy)
    ensures o.discontinuity == Kind(delta.state)
    ensures o.lost == if Trusted(delta.state, policy) && ReportsLoss(scope) then delta.delta else 0
    ensures o.offered == if Trusted(delta.state, policy) && !ReportsLoss(scope) then delta.delta else 0
    ensures Trusted(delta.state, policy) ==> o.semantics == if ReportsLoss(scope) then DirectLoss else NonLoss
    ensures !o.ratioDefined && o.recovered == base.recovered && o.source == base.source && o.subject == base.subject
  {
    o := base.(lost := 0, offered := 0, offeredKnown := false, ratioDefined := false, ratioBp := 0,
               discontinuity := Kind(delta.state));
    match delta.state {
      case Steady =>
      case WrapDetected =>
        if !policy.acceptWrapped {
          o := o.(validity := Discontinuous);
        }
      case ImplausibleDelta => o := o.(validity := Implausible);
      case MissingBaseline => o := o.(validity := Insufficient);
      case _ => o := o.(validity := Discontinuous);
    }
    if o.validity != Valid {
      return;
    }
    if ReportsLoss(scope) {
      o := o.(semantics := DirectLoss, lost := delta.delta);
    } else {
      o := o.(semantics := NonLoss, offered := delta.delta, offeredKnown := true);
    }
  }

  // A probe is loss evidence exactly when its method can be used, something was
  // sent, and no more came back than was sent; then every packet is accounted for.
  method ApplyProbe(base: Observation, report: Payload, implemented: bool, usable: bool) returns (o: Observation)
    requires base.validity == Valid && report.ProbeReport?
    ensures o == ProbeApplied(base, report, implemented, usable)
    ensures o.semantics == RatioLoss && o.recovered == base.recovered
    ensures o.validity == if !implemented then UnsupportedMethod
                          else if !usable then UnsupportedPrecondition
                          else if report.received > report.sent then Implausible
                          else if report.sent == 0 then UndefinedRatio
                          else Valid
    ensures o.validity == Valid ==>
              && o.lost + report.received == report.sent == o.offered
              && o.ratioDefined && o.ratioBp == o.lost * 10000 / o.offered
  {
    o := base.(semantics := RatioLoss);
    if !implemented {
      return o.(validity := UnsupportedMethod);
    }
    if !usable {
      return o.(validity := UnsupportedPrecondition);
    }
    if report.received > report.sent {
      return o.(validity := Implausible);
    }
    var offered := report.sent;
    var lost := offered - report.received;
    o := o.(offered := offered, offeredKnown := true, lost := lost);
    if offered == 0 {
      return o.(validity := UndefinedRatio, ratioDefined := false);
    }
    RatioExact(lost, offered);
    o := o.(ratioBp := RatioBp(lost, offered), ratioDefined := true);
  }

  // A sequence report is loss evidence exactly when it spans a range that its
  // received count fits into; the range, received and lost then add up.
  method ApplySequence(base: Observation, report: Payload) returns (o: Observation)
    requires base.validity == Valid && report.SequenceReport?
    ensures o == SequenceApplied(base, report)
    ensures o.semantics == RatioLoss && o.recovered == base.recovered
    ensures o.validity == Valid <==>
              && !report.restart && report.lowest <= report.highest
              && report.highest - report.lowest < MAX64
              && report.receivedCount <= report.highest - report.lowest + 1
    ensures report.restart <==> o.validity == Discontinuous
    ensures o.validity == Valid ==>
              && o.lost + report.receivedCount == o.offered == report.highest - report.lowest + 1
              && o.ratioDefined && o.ratioBp == RatioBp(o.lost, o.offered)
  {
    o := base.(semantics := RatioLoss);
    if report.restart {
      return o.(validity := Discontinuous, discontinuity := SequenceRestart);
    }
    if report.highest < report.lowest {
      return o.(validity := Implausible);
    }
    if report.highest - report.lowest > MAX64 - 1 {
      return o.(validity := Implausible);
    }
    var span := report.highest - report.lowest + 1;
    if report.receivedCount > span {
      return o.(validity := Implausible);
    }
    var lost := span - report.receivedCount;
    o := o.(offered := span, offeredKnown := true, lost := lost, ratioBp := RatioBp(lost, span), ratioDefined := true);
  }
}
