// The discrepancy classifiers.
module Discrepancy {
  import opened Common

  datatype Class = MissingSettlement | AmountMismatch | FxVariance | DuplicateCredit | LateSettlement
  datatype Severity = Low | Medium | High | Critical

  const AMOUNT_THRESHOLD_PCT := 0.005
  const FX_EXPLANATION_TOLERANCE_PCT := 0.0025

  datatype Verdict = Verdict(class_: Class, severity: Severity, exposure: real)

  function Share(delta: real, amount: real): real {
    if amount > 0.0 then delta / amount else 0.0
  }

  // `classify_amount_delta`, without the flag that repeats "no class".
  function ClassifyAmountDelta(a: real, b: real, fxVariance: Option<real>): Option<Class> {
    var pct := Share(AbsReal(a - b), a);
    if b == 0.0 then Some(MissingSettlement)
    else if pct <= AMOUNT_THRESHOLD_PCT then None
    else if fxVariance.Some? && fxVariance.value > 0.0
            && AbsReal(pct - fxVariance.value) <= FX_EXPLANATION_TOLERANCE_PCT then Some(FxVariance)
    else Some(AmountMismatch)
  }

  function FxMove(rateA: Option<real>, rateB: Option<real>): Option<real> {
    if rateA.Some? && rateB.Some? && rateA.value != 0.0 && rateB.value != 0.0 && rateA.value > 0.0 then
      Some(AbsReal(rateA.value - rateB.value) / rateA.value)
    else None
  }

  // `classify_amount_discrepancy`.
  function ClassifyAmount(a: real, b: real, rateA: Option<real>, rateB: Option<real>): Option<Verdict> {
    var delta := AbsReal(a - b);
    match ClassifyAmountDelta(a, b, FxMove(rateA, rateB))
    case None => None
    case Some(c) =>
      Some(Verdict(c, if c == FxVariance then Low else if Share(delta, a) > 0.01 then High else Medium, delta))
  }

  // `classify_missing_settlement`: None while the settlement is not due.
  function ClassifyMissing(expected: Option<int>, now: int): Option<Severity> {
    match expected
    case None => Some(High)
    case Some(t) =>
      if now - t <= 0 then None
      else if now - t > 48 * HOUR then Some(Critical)
      else if now - t > 24 * HOUR then Some(High)
      else Some(Medium)
  }

  function Rank(s: Severity): nat {
    match s
    case Low => 0
    case Medium => 1
    case High => 2
    case Critical => 3
  }

  // Both rates are known, and their relative move is within 0.25 percentage
  // points of the relative delta.
  predicate FxExplains(a: real, b: real, rateA: Option<real>, rateB: Option<real>)
    requires a > 0.0
  {
    && rateA.Some? && rateB.Some? && rateA.value > 0.0 && rateB.value != 0.0 && rateA.value != rateB.value
    && AbsReal(AbsReal(a - b) / a - AbsReal(rateA.value - rateB.value) / rateA.value) <= 0.0025
  }

  // For positive amounts: a verdict is given exactly when the relative delta
  // exceeds 0.5%, over the absolute delta. It is FX variance, of low severity,
  // exactly when the rates explain the delta, and otherwise an amount
  // mismatch, of high severity above 1% and medium up to it.
  lemma AmountVerdicts(a: real, b: real, rateA: Option<real>, rateB: Option<real>)
    requires a > 0.0 && b > 0.0
    ensures var (v, pct) := (ClassifyAmount(a, b, rateA, rateB), AbsReal(a - b) / a);
      && (v.None? <==> pct <= 0.005)
      && (v.Some? ==>
            && v.value.exposure == AbsReal(a - b) > 0.0
            && v.value.class_ == (if FxExplains(a, b, rateA, rateB) then FxVariance else AmountMismatch)
            && v.value.severity ==
                 if FxExplains(a, b, rateA, rateB) then Low else if pct > 0.01 then High else Medium)
  {
    if a == b {
      assert AbsReal(a - b) / a == 0.0;
    }
    if rateA.Some? && rateB.Some? && rateA.value > 0.0 {
      MoveIsPositive(rateA.value, rateB.value);
    }
  }

  lemma MoveIsPositive(x: real, y: real)
    requires x > 0.0
    ensures AbsReal(x - y) / x > 0.0 <==> x != y
  {
    var q := AbsReal(x - y) / x;
    assert q * x == AbsReal(x - y);
  }

  // A second amount of zero is a missing settlement; against a first amount
  // of zero nothing can be said.
  lemma ZeroAmounts(a: real, b: real, rateA: Option<real>, rateB: Option<real>)
    ensures ClassifyAmount(a, 0.0, rateA, rateB).Some?
    ensures ClassifyAmount(a, 0.0, rateA, rateB).value.class_ == MissingSettlement
    ensures a <= 0.0 && b != 0.0 ==> ClassifyAmount(a, b, rateA, rateB) == None
  {
  }

  // A missing settlement is no discrepancy until it is due, then medium for a
  // day, high for another, and critical after that; high when no due time is
  // known.
  lemma MissingVerdicts(due: int, late: int)
    ensures ClassifyMissing(None, late) == Some(High)
    ensures ClassifyMissing(Some(due), due + late) ==
            if late <= 0 then None
            else if late <= 86_400_000_000 then Some(Medium)
            else if late <= 172_800_000_000 then Some(High)
            else Some(Critical)
  {
  }
}
