// The normalized observation that everything after derivation works on, and the
// checked arithmetic it is made with.
module Observation {
  import opened Bytes
  import opened Evidence

  const MAX64: U64 := 0xFFFF_FFFF_FFFF_FFFF

  datatype Semantics = DirectLoss | RatioLoss | NonLoss

  datatype Validity =
    | Valid
    | Discontinuous
    | Implausible
    | Insufficient
    | UndefinedRatio
    | UnsupportedMethod
    | UnsupportedPrecondition

  datatype Discontinuity =
    | NoDiscontinuity
    | CounterWrap
    | CounterReset
    | Unresolved
    | ImplausibleStep
    | SequenceRestart
    | EpochChange
    | GenerationChange
    | OutOfOrder
    | MissingBaseline

  datatype Observation = Observation(
    id: U64, evidenceId: U64, source: U64, epoch: U64, generation: U64, revision: U64, sequence: U64,
    observedAt: I64, receivedAt: I64,
    subject: SubjectRef, granularity: Granularity, method_: Method,
    semantics: Semantics, validity: Validity, discontinuity: Discontinuity,
    lost: U64, offered: U64, offeredKnown: bool, ratioDefined: bool, ratioBp: U32,
    synthetic: bool, recovered: bool)

  datatype LossClass =
    | UnknownClass
    | AbsentEvidence
    | NoLossObserved
    | ConfirmedLoss
    | SuspectedLoss
    | DiscontinuityClass
    | StaleEvidence
    | ConflictingEvidence
    | IncompleteEvidence
    | UnsupportedClass
    | ImplausibleEvidence

  predicate AssertsLoss(k: LossClass) {
    k == ConfirmedLoss || k == SuspectedLoss
  }

  predicate AssertsAbsence(k: LossClass) {
    k == NoLossObserved
  }

  // ---- 64-bit arithmetic ----------------------------------------------------------

  // Addition that wraps around.
  function WrappedSum(a: U64, b: U64): U64 {
    (a + b) % 0x1_0000_0000_0000_0000
  }

  // A sum that wrapped is smaller than either part, and only then.
  lemma WrapShows(a: U64, b: U64)
    ensures WrappedSum(a, b) < a <==> a + b > MAX64
    ensures a + b <= MAX64 ==> WrappedSum(a, b) == a + b
  {
  }

  // Ten thousandths of a whole; the product wraps around for large numerators.
  function RatioBp(numerator: U64, denominator: U64): (r: U32)
    requires denominator > 0
    ensures r <= 10000
  {
    if numerator == 0 then 0
    else if numerator >= denominator then 10000
    else
      var bp := numerator * 10000 % 0x1_0000_0000_0000_0000 / denominator;
      if bp > 10000 then 10000 else bp
  }

  // The ratio of a part is exact exactly when the part is everything or its ten
  // thousandfold is a 64-bit word: what wraps around is always missed.
  lemma RatioExact(numerator: U64, denominator: U64)
    requires denominator > 0 && numerator <= denominator
    ensures RatioBp(numerator, denominator) == numerator * 10000 / denominator
       <==> numerator == denominator || numerator * 10000 <= MAX64
  {
    var product := numerator * 10000;
    if numerator == denominator {
      WholeIsAll(denominator);
    } else if numerator > 0 {
      PartIsLess(product, denominator);
      assert product < denominator * 10000;
      assert RatioBp(numerator, denominator) == product % 0x1_0000_0000_0000_0000 / denominator;
      if product > MAX64 {
        WrappedQuotient(product, denominator);
      }
    }
  }

  lemma WholeIsAll(denominator: U64)
    requires denominator > 0
    ensures denominator * 10000 / denominator == 10000
  {
  }

  // The quotient of a part stays below ten thousand, wrapped or not.
  lemma PartIsLess(product: nat, denominator: U64)
    requires denominator > 0
    ensures product < denominator * 10000 ==>
              product / denominator < 10000 && product % 0x1_0000_0000_0000_0000 / denominator < 10000
    ensures product <= MAX64 ==> product % 0x1_0000_0000_0000_0000 == product
  {
    if product < denominator * 10000 {
      QuotientBound(product, denominator, 10000);
      QuotientBound(product % 0x1_0000_0000_0000_0000, denominator, 10000);
    }
  }

  // A wrapped product has a smaller quotient.
  lemma WrappedQuotient(product: nat, denominator: U64)
    requires denominator > 0 && product > MAX64
    ensures product % 0x1_0000_0000_0000_0000 / denominator < product / denominator
  {
    var wrapped := product % 0x1_0000_0000_0000_0000;
    var small, large := wrapped / denominator, product / denominator;
    assert denominator * small <= wrapped <= product - denominator;
    assert product < denominator * (large + 1);
    ProductsKeepOrder(denominator, large, small);
  }

  lemma ProductsKeepOrder(d: nat, a: nat, b: nat)
    ensures d * (b + 1) == d * b + d
    ensures a <= b ==> d * (a + 1) <= d * (b + 1)
  {
  }

  lemma QuotientBound(a: nat, b: nat, c: nat)
    requires b > 0 && a < b * c
    ensures a / b < c
  {
  }

  // Above it, it can be zero for a loss of one half.
  lemma RatioWraps()
    ensures RatioBp(0x4000_0000_0000_0000, 0x8000_0000_0000_0000) == 0
  {
  }

  class SaturatingSum {
    var value: U64
    var saturated: bool

    constructor ()
      ensures value == 0 && !saturated
    {
      value, saturated := 0, false;
    }

    method Add(v: U64)
      modifies this
      ensures old(value) + v <= MAX64 ==> value == old(value) + v && saturated == old(saturated)
      ensures old(value) + v > MAX64 ==> value == MAX64 && saturated
    {
      if MAX64 - value < v {
        value, saturated := MAX64, true;
        return;
      }
      value := value + v;
    }
  }
}
