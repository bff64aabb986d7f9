/**
 * The data shaping of the recent-ratings area chart: slider bounds derived
 * from the number of ratings, the window size kept inside them, the tick
 * row under the slider with its label thinning, the visible suffix of the
 * ratings and its average.
 */
module RecentRatings {
  import opened Numeric

  /** The range the window slider offers. */
  datatype Bounds = Bounds(min: int, max: int)

  /** The default of the `minimumWindow` prop. */
  const DefaultMinimumWindow: int := 5

  /**
   * With `n` ratings the slider runs from `min(minimumWindow, n)` to `n`;
   * without ratings both ends are `minimumWindow`. Either way the range is
   * never empty.
   */
  function SliderBounds(n: nat, minimumWindow: int): (b: Bounds)
    ensures b.min <= b.max
    ensures n > 0 ==> b.max == n && b.min <= n && (b.min == minimumWindow || b.min == n)
    ensures n > 0 && minimumWindow <= n ==> b.min == minimumWindow
    ensures n == 0 ==> b.min == minimumWindow && b.max == minimumWindow
  {
    var max := if n > 0 then n else minimumWindow;
    var min := if n > 0 then MinInt(minimumWindow, max) else minimumWindow;
    Bounds(min, max)
  }

  // ---------------------------------------------------------------------------
  // Window size

  /** The effect run whenever the bounds change: a window outside them snaps to the nearer end. */
  function ClampWindow(current: int, b: Bounds): int {
    if current < b.min then b.min
    else if current > b.max then b.max
    else current
  }

  /** The lazy initial state: `max(min, min(max, minimumWindow))`. */
  function InitialWindow(b: Bounds, minimumWindow: int): int {
    MaxInt(b.min, MinInt(b.max, minimumWindow))
  }

  /** The slider's change handler: the picked value clamped the same way. */
  function OnSliderInput(b: Bounds, value: int): int {
    MaxInt(b.min, MinInt(b.max, value))
  }

  /**
   * The bounds-change effect keeps the window inside a non-empty range,
   * leaves a window already inside untouched, and is idempotent.
   */
  lemma ClampWindowInRange(current: int, b: Bounds)
    requires b.min <= b.max
    ensures b.min <= ClampWindow(current, b) <= b.max
    ensures b.min <= current <= b.max ==> ClampWindow(current, b) == current
    ensures ClampWindow(ClampWindow(current, b), b) == ClampWindow(current, b)
  {
  }

  /** The initial window is the default window put through the bounds-change clamp. */
  lemma InitialIsClamp(b: Bounds, minimumWindow: int)
    requires b.min <= b.max
    ensures InitialWindow(b, minimumWindow) == ClampWindow(minimumWindow, b)
    ensures b.min <= InitialWindow(b, minimumWindow) <= b.max
  {
  }

  /** A value picked on the slider is clamped by the same rule as the bounds-change effect. */
  lemma SliderInputIsClamp(b: Bounds, value: int)
    requires b.min <= b.max
    ensures OnSliderInput(b, value) == ClampWindow(value, b)
    ensures b.min <= OnSliderInput(b, value) <= b.max
  {
  }

  // ---------------------------------------------------------------------------
  // Ticks and label thinning

  /**
   * `[max]` for a one-point range, otherwise `Array.from` over
   * `max - min + 1` positions (a negative length counts as zero).
   */
  function Ticks(b: Bounds): seq<int> {
    if b.max == b.min then [b.max]
    else seq(MaxInt(0, b.max - b.min + 1), i => b.min + i)
  }

  /** On a non-empty range the ticks are exactly the consecutive integers from `min` to `max`. */
  lemma TicksConsecutive(b: Bounds)
    requires b.min <= b.max
    ensures var t := Ticks(b);
      && |t| == b.max - b.min + 1
      && t[0] == b.min && t[|t| - 1] == b.max
      && (forall i :: 0 <= i < |t| ==> t[i] == b.min + i)
      && (forall x :: x in t <==> b.min <= x <= b.max)
  {
    var t := Ticks(b);
    forall x | b.min <= x <= b.max ensures x in t {
      assert t[x - b.min] == x;
    }
  }

  /** `1` for up to six ticks, `ceil(len / 6)` beyond. */
  function SkipInterval(len: nat): (skip: int)
    ensures skip >= 1
    ensures len <= 6 ==> skip == 1
  {
    if len <= 6 then 1 else Ceil(len as real / 6.0)
  }

  /**
   * The skip is the smallest stride that keeps at most six strides across
   * the tick row: `6 * skip` covers `len`, and no smaller stride of at least
   * one does; up to six ticks that stride is 1.
   */
  lemma SkipIntervalMinimal(len: nat)
    ensures len <= 6 * SkipInterval(len)
    ensures SkipInterval(len) == 1 || 6 * (SkipInterval(len) - 1) < len
    ensures len <= 6 ==> SkipInterval(len) == 1
    ensures len > 6 ==> 6 * (SkipInterval(len) - 1) < len
  {
  }

  /** Whether tick `index` of `len` carries a visible label. */
  predicate ShowLabel(index: int, len: int, skip: int)
    requires skip >= 1
  {
    index % skip == 0 || index == 0 || index == len - 1
  }

  /**
   * The first and the last tick are always labelled, and the labelled ticks
   * are the multiples of the skip plus the last one; so no run of `skip`
   * consecutive ticks is left without a label.
   */
  lemma LabelledTicks(len: nat, skip: int)
    requires skip >= 1 && len >= 1
    ensures ShowLabel(0, len, skip) && ShowLabel(len - 1, len, skip)
    ensures forall i :: 0 <= i < len ==> (ShowLabel(i, len, skip) <==> i % skip == 0 || i == len - 1)
    ensures forall i :: 0 <= i < len ==> ShowLabel(i - i % skip, len, skip) && i - skip < i - i % skip <= i
  {
    forall i | 0 <= i < len ensures (i - i % skip) % skip == 0 {
      assert i - i % skip == skip * (i / skip);
      MultipleModulo(skip, i / skip);
    }
  }

  lemma MultipleModulo(skip: int, q: int)
    requires skip >= 1
    ensures (skip * q) % skip == 0
  {
    var m := skip * q;
    var k := q - m / skip;
    assert m == skip * (m / skip) + m % skip;
    assert m % skip == skip * q - skip * (m / skip);
    assert m % skip == skip * k;
  }

  // ---------------------------------------------------------------------------
  // Visible ratings and their average

  /** `s.slice(start)` for an integer `start`: a negative start counts from the end, and both are clamped. */
  function SliceFrom<T>(s: seq<T>, start: int): (r: seq<T>)
    ensures |r| <= |s|
  {
    var from := if start < 0 then MaxInt(|s| + start, 0) else MinInt(start, |s|);
    s[from..]
  }

  /** `ratings.slice(sliderMax - min(windowSize, sliderMax))`. */
  function VisibleRatings<T>(ratings: seq<T>, windowSize: int, sliderMax: int): seq<T> {
    var count := MinInt(windowSize, sliderMax);
    SliceFrom(ratings, sliderMax - count)
  }

  /**
   * With ratings present, the chart shows the last `min(windowSize, n)`
   * ratings (none for a non-positive window), in their stored order.
   */
  lemma VisibleIsSuffix<T>(ratings: seq<T>, minimumWindow: int, windowSize: int)
    requires |ratings| > 0
    ensures var b := SliderBounds(|ratings|, minimumWindow);
      var k := MaxInt(0, MinInt(windowSize, |ratings|));
      && VisibleRatings(ratings, windowSize, b.max) == ratings[|ratings| - k..]
      && |VisibleRatings(ratings, windowSize, b.max)| == k
  {
  }

  /** A window set by the slider shows exactly that many ratings when the minimum window is non-negative. */
  lemma VisibleCountIsWindow<T>(ratings: seq<T>, minimumWindow: int, current: int)
    requires |ratings| > 0 && minimumWindow >= 0
    ensures var b := SliderBounds(|ratings|, minimumWindow);
      var w := ClampWindow(current, b);
      |VisibleRatings(ratings, w, b.max)| == w
  {
    var b := SliderBounds(|ratings|, minimumWindow);
    ClampWindowInRange(current, b);
    VisibleIsSuffix(ratings, minimumWindow, ClampWindow(current, b));
  }

  /** 0 for no ratings, otherwise the arithmetic mean. */
  function AverageRating(visible: seq<real>): real {
    if |visible| == 0 then 0.0 else Sum(visible) / |visible| as real
  }

  /** No ratings average 0; otherwise the average times their number is their total. */
  lemma AverageTimesCount(visible: seq<real>)
    ensures |visible| == 0 ==> AverageRating(visible) == 0.0
    ensures AverageRating(visible) * |visible| as real == Sum(visible)
  {
  }

  /** The average of ratings within `[lo, hi]` stays within `[lo, hi]`. */
  lemma AverageWithinBounds(visible: seq<real>, lo: real, hi: real)
    requires |visible| > 0
    requires forall i :: 0 <= i < |visible| ==> lo <= visible[i] <= hi
    ensures lo <= AverageRating(visible) <= hi
  {
    SumBounds(visible, lo, hi);
    DivideBounds(Sum(visible), |visible| as real, lo, hi);
  }

  lemma DivideBounds(total: real, n: real, lo: real, hi: real)
    requires n > 0.0
    requires n * lo <= total <= n * hi
    ensures lo <= total / n <= hi
  {
    assert total / n * n == total;
  }

  // ---------------------------------------------------------------------------
  // What the component renders

  datatype RatingsView<T> =
    | NoRatingsYet
    | Chart(windowSize: int, ticks: seq<int>, visible: seq<T>, average: real)

  /** The component for the given ratings, minimum window and window state. */
  function Render(ratings: seq<real>, minimumWindow: int, windowSize: int): RatingsView<real> {
    var b := SliderBounds(|ratings|, minimumWindow);
    var visible := VisibleRatings(ratings, windowSize, b.max);
    if |ratings| == 0 then NoRatingsYet
    else Chart(windowSize, Ticks(b), visible, AverageRating(visible))
  }

  /**
   * The empty state appears exactly when there are no ratings; otherwise
   * the chart's average is the mean of the ratings it draws, and its ticks
   * run over the slider's range.
   */
  lemma RenderCases(ratings: seq<real>, minimumWindow: int, windowSize: int)
    ensures Render(ratings, minimumWindow, windowSize).NoRatingsYet? <==> |ratings| == 0
    ensures var v := Render(ratings, minimumWindow, windowSize);
      v.Chart? ==>
        && v.average * |v.visible| as real == Sum(v.visible)
        && |v.ticks| == |ratings| - MinInt(minimumWindow, |ratings|) + 1
        && v.ticks[|v.ticks| - 1] == |ratings|
  {
    var v := Render(ratings, minimumWindow, windowSize);
    if v.Chart? {
      AverageTimesCount(v.visible);
      TicksConsecutive(SliderBounds(|ratings|, minimumWindow));
    }
  }
}
