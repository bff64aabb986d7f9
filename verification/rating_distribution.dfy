/**
 * The rating distribution radar chart: the radius domain derived from the
 * largest share, and the tooltip's label with its "Star"/"Stars" wording.
 */
module RatingDistribution {
  import opened Wrappers
  import opened Numeric
  import opened Text

  /**
   * `reduce` from 0 taking `Math.max` with every finite value; `None`
   * stands for a non-finite value, which is skipped.
   */
  function MaxValue(values: seq<Option<real>>): (m: real)
    ensures m >= 0.0
    ensures forall i :: 0 <= i < |values| && values[i].Some? ==> values[i].value <= m
    ensures m == 0.0 || exists i :: 0 <= i < |values| && values[i].Some? && m == values[i].value
  {
    if |values| == 0 then 0.0
    else
      var init := values[..|values| - 1];
      var acc := MaxValue(init);
      var last := values[|values| - 1];
      assert forall i :: 0 <= i < |init| ==> init[i] == values[i];
      if last.Some? then MaxReal(acc, last.value) else acc
  }

  /** `Math.max(10, Math.ceil((maxValue + 5) / 10) * 10)`. */
  function DomainMax(maxValue: real): int {
    MaxInt(10, Ceil((maxValue + 5.0) / 10.0) * 10)
  }

  /**
   * The radius domain ends on the smallest multiple of ten that is at least
   * 10 and leaves at least 5 points of headroom above the largest value.
   */
  lemma DomainMaxIsLeastRoundCeiling(maxValue: real, m: int)
    ensures DomainMax(maxValue) % 10 == 0
    ensures DomainMax(maxValue) >= 10
    ensures DomainMax(maxValue) as real >= maxValue + 5.0
    ensures m % 10 == 0 && m >= 10 && m as real >= maxValue + 5.0 ==> DomainMax(maxValue) <= m
  {
    var c := Ceil((maxValue + 5.0) / 10.0);
    assert (c * 10) % 10 == 0;
    if m % 10 == 0 && m >= 10 && m as real >= maxValue + 5.0 {
      var q := m / 10;
      assert m == q * 10;
      assert (maxValue + 5.0) / 10.0 <= q as real;
    }
  }

  /** A larger largest value never shrinks the domain. */
  lemma DomainMaxMonotone(a: real, b: real)
    requires a <= b
    ensures DomainMax(a) <= DomainMax(b)
  {
    DomainMaxIsLeastRoundCeiling(a, DomainMax(b));
    DomainMaxIsLeastRoundCeiling(b, DomainMax(b));
  }

  /** The tooltip's row: the hovered datum's own label. */
  datatype Datum = Datum(segment: string, value: real, caption: string)

  /** `Number.isInteger`. */
  predicate IsInteger(x: real) {
    x.Floor as real == x
  }

  /** Within 1e-8 of one star: the singular wording. */
  predicate IsSingular(x: real) {
    Abs(x - 1.0) < 0.00000001
  }

  /**
   * The tooltip label. `parsed` is `Number.parseFloat(label)` when that is
   * finite and `None` otherwise; integers print without decimals and other
   * values with `toFixed(1)`.
   */
  function LabelFor(raw: string, datum: Option<Datum>, parsed: Option<real>): string {
    if datum.Some? then datum.value.caption
    else if parsed.Some? then
      var p := parsed.value;
      (if IsInteger(p) then IntToString(p.Floor) else Fixed1(p))
      + " " + (if IsSingular(p) then "Star" else "Stars")
    else raw
  }

  /**
   * A hovered datum names itself; an unparsable label is returned as is; a
   * number is printed followed by " Star" exactly when it is within 1e-8 of
   * one and " Stars" otherwise, and the printed number reads back as the
   * integer, or as the tenths `toFixed(1)` rounds to.
   */
  lemma LabelForCases(raw: string, datum: Option<Datum>, parsed: Option<real>)
    ensures datum.Some? ==> LabelFor(raw, datum, parsed) == datum.value.caption
    ensures datum.None? && parsed.None? ==> LabelFor(raw, datum, parsed) == raw
    ensures datum.None? && parsed.Some? ==>
      var r := LabelFor(raw, datum, parsed);
      var p := parsed.value;
      exists number: string ::
        && (r == number + " Star" || r == number + " Stars")
        && (r == number + " Star" <==> IsSingular(p))
        && (IsInteger(p) ==> IsIntText(number) && ParseInt(number) as real == p)
        && (!IsInteger(p) ==> IsFixed1Text(number) && ParseFixed1(number) == SignedTenths(p))
  {
    if datum.None? && parsed.Some? {
      var p := parsed.value;
      var number := if IsInteger(p) then IntToString(p.Floor) else Fixed1(p);
      if IsInteger(p) {
        ParseIntToString(p.Floor);
      } else {
        Fixed1RoundTrip(p);
      }
      var r := LabelFor(raw, datum, parsed);
      assert r == number + " " + (if IsSingular(p) then "Star" else "Stars");
      assert |number + " Star"| != |number + " Stars"|;
    }
  }
}
