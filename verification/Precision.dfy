/**
Exact alignment of a price or quantity to a tick or step, decided on scaled integers.
*/
module Precision {
  import opened Wrappers
  import opened Digits
  import opened Decimals

  datatype Fault = OutOfBounds | StepNotPositive | ScaleInconsistent | NotAligned

  /** `_validate_decimal_bounds`: bounds, and every zero becomes plain 0. */
  function Validate(d: Decimal): Option<Decimal>
    requires Valid(d)
  {
    if !BoundsOk(Analyze(d)) then None
    else if IsZero(d) then Some(Decimal(false, [0], 0))
    else Some(d)
  }

  datatype Outcome = Done(value: int) | Fault(fault: Fault)

  /** `_scaled_integer` */
  function ScaledInteger(d: Decimal, scale: nat): Outcome
    requires Valid(d)
  {
    var exact := Validate(d);
    if exact.None? then Fault(OutOfBounds)
    else if Number(exact.value.digits) == 0 then Done(0)
    else if exact.value.exponent + scale < 0 then Fault(ScaleInconsistent)
    else Done(Scaled(exact.value, scale))
  }

  /** `require_step_aligned`: None when accepted. */
  function RequireStepAligned(value: Decimal, step: Decimal): Option<Fault>
    requires Valid(value) && Valid(step)
  {
    var v, s := Validate(value), Validate(step);
    if v.None? || s.None? then Some(OutOfBounds)
    else if !IsPositive(s.value) then Some(StepNotPositive)
    else
      var scale := Max(0, Max(-v.value.exponent, -s.value.exponent));
      var vi, si := ScaledInteger(v.value, scale), ScaledInteger(s.value, scale);
      if vi.Fault? then Some(vi.fault)
      else if si.Fault? then Some(si.fault)
      else if si.value <= 0 || vi.value % si.value != 0 then Some(NotAligned)
      else None
  }

  /** The value is an exact integer multiple of the step, as rational numbers. */
  ghost predicate IsMultiple(value: Decimal, step: Decimal) {
    exists k: int :: Scaled(value, CommonScale(value, step)) == k * Scaled(step, CommonScale(value, step))
  }

  lemma MultipleAtScaleForward(value: Decimal, step: Decimal, scale: nat, k: int)
    requires CommonScale(value, step) <= scale
    ensures Scaled(value, CommonScale(value, step)) == k * Scaled(step, CommonScale(value, step))
       <==> Scaled(value, scale) == k * Scaled(step, scale)
  {
    var c := CommonScale(value, step);
    var more := scale - c;
    ScaledMore(value, c, more);
    ScaledMore(step, c, more);
    Pow10Positive(more);
    MulAssoc(k, Scaled(step, c), Pow10(more));
    CancelPower(Scaled(value, c), k * Scaled(step, c), Pow10(more));
  }

  /** Being a multiple may be tested at any common scale. */
  lemma MultipleAtScale(value: Decimal, step: Decimal, scale: nat)
    requires 0 <= value.exponent + scale && 0 <= step.exponent + scale
    ensures IsMultiple(value, step) <==> exists k: int :: Scaled(value, scale) == k * Scaled(step, scale)
  {
    var c := CommonScale(value, step);
    if IsMultiple(value, step) {
      var k: int :| Scaled(value, c) == k * Scaled(step, c);
      MultipleAtScaleForward(value, step, scale, k);
    }
    if k: int :| Scaled(value, scale) == k * Scaled(step, scale) {
      MultipleAtScaleForward(value, step, scale, k);
    }
  }

  lemma DivisibleIffMultiple(x: int, y: int)
    requires y > 0
    ensures x % y == 0 <==> exists k: int :: x == k * y
  {
    if x % y == 0 {
      assert x == (x / y) * y;
    }
    if k: int :| x == k * y {
      MultipleHasNoRemainder(k, y);
    }
  }

  lemma MultipleHasNoRemainder(k: int, y: int)
    requires y > 0
    ensures (k * y) % y == 0
  {
    var q, r := (k * y) / y, (k * y) % y;
    assert k * y == q * y + r;
    assert (k - q) * y == r;
    assert (k - q >= 1 ==> (k - q) * y >= y) && (k - q <= -1 ==> (k - q) * y <= -y);
  }

  lemma ScaledOfValidated(d: Decimal, scale: nat)
    requires Valid(d) && Validate(d).Some? && 0 <= Validate(d).value.exponent + scale
    ensures Valid(Validate(d).value) && Validate(Validate(d).value) == Validate(d)
    ensures ScaledInteger(Validate(d).value, scale) == Done(Scaled(Validate(d).value, scale))
  {
    var e := Validate(d).value;
    NumberIsZero([0]);
    if IsZero(d) {
      assert Trim(e) == Decimal(false, [0], 0);
      assert Scaled(e, scale) == 0;
    }
  }

  /** The internal "scale inconsistent" error is unreachable. */
  lemma ScaleIsAlwaysConsistent(value: Decimal, step: Decimal)
    requires Valid(value) && Valid(step)
    ensures RequireStepAligned(value, step) != Some(ScaleInconsistent)
  {
    var v, s := Validate(value), Validate(step);
    if v.Some? && s.Some? {
      var scale := Max(0, Max(-v.value.exponent, -s.value.exponent));
      ScaledOfValidated(value, scale);
      ScaledOfValidated(step, scale);
    }
  }

  /** Replacing zero by plain 0 changes neither its multiples nor what it is a multiple of. */
  lemma ValidateKeepsValue(d: Decimal)
    requires Valid(d) && Validate(d).Some?
    ensures SameValue(d, Validate(d).value)
  {
    if IsZero(d) {
      var e := Validate(d).value;
      NumberIsZero([0]);
      var s := CommonScale(d, e);
      assert Number(e.digits) * Pow10(e.exponent + s) == 0 == Number(d.digits) * Pow10(d.exponent + s);
    }
  }

  /** Multiples are a matter of value, not of coefficient and exponent. */
  lemma MultipleIsByValue(v: Decimal, v': Decimal, s: Decimal, s': Decimal)
    requires SameValue(v, v') && SameValue(s, s')
    ensures IsMultiple(v, s) <==> IsMultiple(v', s')
  {
    var scale := CommonScale(v, v') + CommonScale(s, s');
    SameValueAtScale(v, v', scale);
    SameValueAtScale(s, s', scale);
    MultipleAtScale(v, s, scale);
    MultipleAtScale(v', s', scale);
  }

  lemma RemainderTestMeans(v: Decimal, s: Decimal, scale: nat)
    requires Valid(v) && Valid(s) && 0 <= v.exponent + scale && 0 <= s.exponent + scale && IsPositive(s)
    ensures Scaled(s, scale) > 0 && (Scaled(v, scale) % Scaled(s, scale) == 0 <==> IsMultiple(v, s))
  {
    PositiveIsPositive(s, scale);
    MultipleAtScale(v, s, scale);
    DivisibleIffMultiple(Scaled(v, scale), Scaled(s, scale));
  }

  lemma ValidatedStepIsPositive(step: Decimal)
    requires Valid(step) && Validate(step).Some?
    ensures IsPositive(Validate(step).value) <==> IsPositive(step)
  {
    NumberIsZero([0]);
  }

  lemma ValidatedMultiple(value: Decimal, step: Decimal)
    requires Valid(value) && Valid(step) && Validate(value).Some? && Validate(step).Some?
    ensures IsMultiple(value, step) <==> IsMultiple(Validate(value).value, Validate(step).value)
  {
    ValidateKeepsValue(value);
    ValidateKeepsValue(step);
    MultipleIsByValue(value, Validate(value).value, step, Validate(step).value);
  }

  lemma AlignedMeans(value: Decimal, step: Decimal, v: Decimal, s: Decimal)
    requires Valid(value) && Valid(step) && Validate(value) == Some(v) && Validate(step) == Some(s) && IsPositive(s)
    ensures RequireStepAligned(value, step).None? <==> IsMultiple(v, s)
  {
    var scale := Max(0, Max(-v.exponent, -s.exponent));
    ScaledOfValidated(value, scale);
    ScaledOfValidated(step, scale);
    RemainderTestMeans(v, s, scale);
  }

  /** Within bounds and for a positive step, acceptance is exactly being an integer multiple. */
  lemma AlignedIffMultiple(value: Decimal, step: Decimal)
    requires Valid(value) && Valid(step)
    ensures RequireStepAligned(value, step).None? <==>
            && BoundsOk(Analyze(value)) && BoundsOk(Analyze(step))
            && IsPositive(step) && IsMultiple(value, step)
  {
    var v, s := Validate(value), Validate(step);
    if v.Some? && s.Some? {
      ValidatedStepIsPositive(step);
      ValidatedMultiple(value, step);
      if IsPositive(s.value) { AlignedMeans(value, step, v.value, s.value); }
    }
  }

  /** Trailing zeros and exponent form of either argument do not affect the verdict. */
  lemma AlignmentIsByValue(v: Decimal, v': Decimal, s: Decimal, s': Decimal)
    requires Valid(v) && Valid(v') && Valid(s) && Valid(s') && SameValue(v, v') && SameValue(s, s')
    ensures RequireStepAligned(v, s).None? <==> RequireStepAligned(v', s').None?
  {
    AlignedIffMultiple(v, s);
    AlignedIffMultiple(v', s');
    MultipleIsByValue(v, v', s, s');
    AcceptanceIsByValue(v, v');
    AcceptanceIsByValue(s, s');
    var scale := CommonScale(s, s');
    PositiveIsPositive(s, scale);
    PositiveIsPositive(s', scale);
  }
}
