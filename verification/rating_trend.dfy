/**
 * The Y-axis domain of the rating trend chart: the smallest and largest
 * monthly average padded by 0.2, snapped outwards to tenths, kept within
 * the rating scale [0, 5], and widened when it would collapse.
 */
module RatingTrend {
  import opened Wrappers
  import opened Numeric

  const Padding: real := 0.2
  const ScaleMax: real := 5.0

  /** The monthly averages as plotted: a non-finite average (`None`) counts as 0. */
  function Averages(data: seq<Option<real>>): (r: seq<real>)
    ensures |r| == |data|
    ensures forall i :: 0 <= i < |data| ==> r[i] == data[i].GetOr(0.0)
  {
    seq(|data|, i requires 0 <= i < |data| => data[i].GetOr(0.0))
  }

  /** `Math.min(...xs)` of a non-empty list. */
  function SeqMin(xs: seq<real>): (m: real)
    requires |xs| > 0
    ensures m in xs
    ensures forall i :: 0 <= i < |xs| ==> m <= xs[i]
  {
    if |xs| == 1 then xs[0] else MinReal(xs[0], SeqMin(xs[1..]))
  }

  /** `Math.max(...xs)` of a non-empty list. */
  function SeqMax(xs: seq<real>): (m: real)
    requires |xs| > 0
    ensures m in xs
    ensures forall i :: 0 <= i < |xs| ==> xs[i] <= m
  {
    if |xs| == 1 then xs[0] else MaxReal(xs[0], SeqMax(xs[1..]))
  }

  datatype Domain = Domain(lower: real, upper: real)

  /** `x` is a whole number of tenths. */
  predicate IsTenth(x: real) {
    (x * 10.0).Floor as real == x * 10.0
  }

  /** Padded bounds snapped outwards to tenths, before the collapse checks. */
  function PaddedLower(minAverage: real): real {
    MaxReal(0.0, Floor((minAverage - Padding) * 10.0) as real / 10.0)
  }

  function PaddedUpper(maxAverage: real): real {
    MinReal(ScaleMax, Ceil((maxAverage + Padding) * 10.0) as real / 10.0)
  }

  /**
   * The domain for the given data. An empty series acts as minimum 0 and
   * maximum 5. An upper bound not above the lower one becomes
   * `min(5, lower + 1)`; bounds that still coincide are each moved half a
   * star apart, within [0, 5].
   */
  function YDomain(data: seq<Option<real>>): (d: Domain)
    ensures 0.0 <= d.lower && d.upper <= ScaleMax
    ensures 0.0 < d.upper
    ensures IsTenth(d.lower) && IsTenth(d.upper)
  {
    var averages := Averages(data);
    var minAverage := if |averages| > 0 then SeqMin(averages) else 0.0;
    var maxAverage := if |averages| > 0 then SeqMax(averages) else ScaleMax;
    var lower := PaddedLower(minAverage);
    var upper := PaddedUpper(maxAverage);
    var upper' := if upper <= lower then MinReal(ScaleMax, lower + 1.0) else upper;
    if upper' == lower then Domain(MaxReal(0.0, lower - 0.5), MinReal(ScaleMax, upper' + 0.5))
    else Domain(lower, upper')
  }

  /** Without data the axis spans the whole scale. */
  lemma EmptyDomain()
    ensures YDomain([]) == Domain(0.0, ScaleMax)
  {
  }

  /**
   * When every plotted average lies on the scale, the domain contains them
   * all, is not degenerate, and adds at most 0.3 of padding on each side
   * (0.2 of padding plus under 0.1 of snapping) unless clipped by the scale.
   */
  lemma DomainContainsAverages(data: seq<Option<real>>)
    requires forall i :: 0 <= i < |data| ==> 0.0 <= data[i].GetOr(0.0) <= ScaleMax
    ensures var d := YDomain(data);
      && d.lower < d.upper
      && (forall i :: 0 <= i < |data| ==> d.lower <= data[i].GetOr(0.0) <= d.upper)
      && (|data| > 0 ==> d.lower >= SeqMin(Averages(data)) - 0.3 && d.upper <= SeqMax(Averages(data)) + 0.3)
  {
    var averages := Averages(data);
    if |averages| > 0 {
      var mn := SeqMin(averages);
      var mx := SeqMax(averages);
      assert 0.0 <= mn <= mx <= ScaleMax;
      var lower := PaddedLower(mn);
      var upper := PaddedUpper(mx);
      assert lower <= mn;
      assert mx < upper || upper == ScaleMax;
      assert lower < upper by {
        if mn > 0.0 {
          assert Floor((mn - Padding) * 10.0) as real / 10.0 < mn;
        } else {
          assert upper > 0.0;
        }
      }
      forall i | 0 <= i < |data| ensures lower <= data[i].GetOr(0.0) <= upper {
        assert averages[i] == data[i].GetOr(0.0);
      }
    }
  }
}
