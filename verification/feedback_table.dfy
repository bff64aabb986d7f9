/**
 * The pure pieces of the recent-feedback table: the column comparators and
 * filters, the options of the rating select, the range label of the date
 * filter, the star row and the rating badge's hue.
 */
module FeedbackTable {
  import opened Wrappers
  import opened Numeric
  import opened Text

  // ---------------------------------------------------------------------------
  // Sorting

  /**
   * `a === b ? 0 : a > b ? 1 : -1` over JavaScript numbers, with `None`
   * standing for NaN (an unparsable date), which equals nothing and is
   * greater than nothing.
   */
  function Compare(a: Option<real>, b: Option<real>): (r: int)
    ensures r == -1 || r == 0 || r == 1
  {
    if a.Some? && b.Some? && a.value == b.value then 0
    else if a.Some? && b.Some? && a.value > b.value then 1
    else -1
  }

  /** The date column compares the rows' `getTime()` values. */
  function CompareDates(a: Option<int>, b: Option<int>): int {
    Compare(if a.Some? then Some(a.value as real) else None,
            if b.Some? then Some(b.value as real) else None)
  }

  /** The rating column compares the ratings. */
  function CompareRatings(a: real, b: real): int {
    Compare(Some(a), Some(b))
  }

  /**
   * On numbers the comparator is a three-way comparison: 0 exactly on equal
   * keys, 1 exactly when the first is larger, and swapping the arguments
   * negates it.
   */
  lemma CompareIsThreeWay(a: real, b: real)
    ensures Compare(Some(a), Some(b)) == 0 <==> a == b
    ensures Compare(Some(a), Some(b)) == 1 <==> a > b
    ensures Compare(Some(a), Some(b)) == -1 <==> a < b
    ensures Compare(Some(a), Some(b)) == -Compare(Some(b), Some(a))
  {
  }

  /** Dates compare by their instants, in the same three-way fashion. */
  lemma CompareDatesByInstant(a: int, b: int)
    ensures CompareDates(Some(a), Some(b)) == 0 <==> a == b
    ensures CompareDates(Some(a), Some(b)) == 1 <==> a > b
    ensures CompareDates(Some(b), Some(a)) == -CompareDates(Some(a), Some(b))
  {
    CompareIsThreeWay(a as real, b as real);
  }

  /**
   * An invalid date compares as -1 against every row in both argument
   * orders, so the comparator is not antisymmetric on such rows.
   */
  lemma InvalidDateComparesLess(b: Option<int>)
    ensures CompareDates(None, b) == -1
    ensures CompareDates(b, None) == -1
  {
  }

  /** One entry of the table's sorting state. */
  datatype ColumnSort = ColumnSort(id: string, desc: bool)

  /** The table opens sorted by rating, highest first. */
  const InitialSorting: seq<ColumnSort> := [ColumnSort("rating", true)]

  // ---------------------------------------------------------------------------
  // Filtering

  /** A picked date range; either end may still be unset. */
  datatype DateRange<D> = DateRange(start: Option<D>, end: Option<D>)

  /**
   * The date column's filter. `toDate` is the calendar date's conversion to
   * an instant in the viewer's time zone and `endOfDay` the instant's
   * `setHours(23, 59, 59, 999)`; `row` is the row's instant, `None` for an
   * unparsable date, which fails every comparison.
   */
  function DateFilter<D>(range: Option<DateRange<D>>, row: Option<int>,
                         toDate: D -> int, endOfDay: int -> int): bool {
    if range.None? || range.value.start.None? then true
    else
      var start := range.value.start.value;
      var last := if range.value.end.Some? then range.value.end.value else start;
      row.Some? && toDate(start) <= row.value && row.value <= endOfDay(toDate(last))
  }

  /**
   * Without a range or a start every row passes; with a start, a row passes
   * exactly when its instant lies between the start and the end of the
   * last day (the start's own day when the end is unset).
   */
  lemma DateFilterWindow<D>(range: Option<DateRange<D>>, row: Option<int>,
                            toDate: D -> int, endOfDay: int -> int)
    ensures range.None? || range.value.start.None? ==> DateFilter(range, row, toDate, endOfDay)
    ensures range.Some? && range.value.start.Some? && range.value.end.None? ==>
      (DateFilter(range, row, toDate, endOfDay) <==>
        row.Some? && toDate(range.value.start.value) <= row.value <= endOfDay(toDate(range.value.start.value)))
    ensures range.Some? && range.value.start.Some? && range.value.end.Some? ==>
      (DateFilter(range, row, toDate, endOfDay) <==>
        row.Some? && toDate(range.value.start.value) <= row.value <= endOfDay(toDate(range.value.end.value)))
    ensures range.Some? && range.value.start.Some? && row.None? ==> !DateFilter(range, row, toDate, endOfDay)
  {
  }

  /**
   * A start-only range and the range from that start to itself select the
   * same rows; and when `endOfDay` never moves an instant backwards, the
   * start instant itself always passes.
   */
  lemma DateFilterSingleDay<D>(start: D, row: Option<int>, toDate: D -> int, endOfDay: int -> int)
    ensures DateFilter(Some(DateRange(Some(start), None)), row, toDate, endOfDay)
         == DateFilter(Some(DateRange(Some(start), Some(start))), row, toDate, endOfDay)
    ensures endOfDay(toDate(start)) >= toDate(start) ==>
      DateFilter(Some(DateRange(Some(start), None)), Some(toDate(start)), toDate, endOfDay)
  {
  }

  /** The rating column's filter; `None` or `""` (falsy) passes every row. */
  function RatingFilter(value: Option<string>, rating: real): bool {
    if value.None? || value.value == "" then true
    else Fixed1(rating) == value.value
  }

  /**
   * A set filter keeps exactly the rows whose rating rounds to the same
   * tenth and has the same sign as the option's; a row always passes the
   * option made from its own rating.
   */
  lemma RatingFilterByTenths(value: string, rating: real, x: real)
    requires value == Fixed1(x)
    ensures RatingFilter(None, rating) && RatingFilter(Some(""), rating)
    ensures RatingFilter(Some(value), rating)
    <==> (rating < 0.0 <==> x < 0.0) && TenthsOf(rating) == TenthsOf(x)
    ensures RatingFilter(Some(Fixed1(rating)), rating)
  {
    if Fixed1(rating) == Fixed1(x) {
      Fixed1RoundTrip(rating);
      Fixed1RoundTrip(x);
      Fixed1Sign(rating);
      Fixed1Sign(x);
    }
  }

  /** A `toFixed(1)` text starts with '-' exactly when the number is negative. */
  lemma Fixed1Sign(x: real)
    ensures |Fixed1(x)| > 0 && (Fixed1(x)[0] == '-' <==> x < 0.0)
  {
    var digits := NatToString(TenthsOf(x) / 10);
    assert IsDigit(digits[0]);
    if x >= 0.0 {
      assert Fixed1(x)[0] == digits[0];
    }
  }

  // ---------------------------------------------------------------------------
  // Select options

  /** The numeric value of an option text (`Number(s)` in tenths); every option is a `toFixed(1)` text. */
  function OptionKey(s: string): int {
    if IsFixed1Text(s) then ParseFixed1(s) else 0
  }

  /** `value.toFixed(1)` of every finite facet value; `None` stands for a non-finite one. */
  function OptionTexts(values: seq<Option<real>>): (r: seq<string>)
    ensures forall j :: 0 <= j < |r| ==> IsFixed1Text(r[j])
    ensures forall j :: 0 <= j < |r| ==>
      exists i :: 0 <= i < |values| && values[i].Some? && r[j] == Fixed1(values[i].value)
    ensures forall i :: 0 <= i < |values| && values[i].Some? ==> Fixed1(values[i].value) in r
  {
    if |values| == 0 then []
    else
      var init := values[..|values| - 1];
      var rest := OptionTexts(init);
      var last := values[|values| - 1];
      assert forall i :: 0 <= i < |init| ==> init[i] == values[i];
      if last.Some? then
        Fixed1RoundTrip(last.value);
        rest + [Fixed1(last.value)]
      else rest
  }

  predicate NoDuplicates(s: seq<string>) {
    forall j, k :: 0 <= j < k < |s| ==> s[j] != s[k]
  }

  /** `new Set(texts)` read back in insertion order: first occurrences only. */
  function Distinct(texts: seq<string>): (r: seq<string>)
    ensures NoDuplicates(r)
    ensures forall s :: s in r <==> s in texts
  {
    if |texts| == 0 then []
    else
      var rest := Distinct(texts[..|texts| - 1]);
      var last := texts[|texts| - 1];
      assert forall s :: s in texts <==> s in texts[..|texts| - 1] || s == last;
      if last in rest then rest else rest + [last]
  }

  predicate SortedByKey(s: seq<string>) {
    forall j, k :: 0 <= j < k < |s| ==> OptionKey(s[j]) <= OptionKey(s[k])
  }

  /** Stable insertion: `x` goes after every element whose key is not larger. */
  function InsertByKey(x: string, s: seq<string>): seq<string> {
    if |s| == 0 then [x]
    else if OptionKey(x) < OptionKey(s[0]) then [x] + s
    else [s[0]] + InsertByKey(x, s[1..])
  }

  lemma {:induction false} InsertByKeySorted(x: string, s: seq<string>)
    requires SortedByKey(s)
    ensures SortedByKey(InsertByKey(x, s))
    ensures multiset(InsertByKey(x, s)) == multiset(s) + multiset{x}
  {
    InsertByKeyElements(x, s);
    if |s| > 0 && OptionKey(x) >= OptionKey(s[0]) {
      var tail := s[1..];
      assert SortedByKey(tail) by {
        forall j, k | 0 <= j < k < |tail| ensures OptionKey(tail[j]) <= OptionKey(tail[k]) {
          assert tail[j] == s[j + 1] && tail[k] == s[k + 1];
        }
      }
      InsertByKeySorted(x, tail);
      InsertByKeyElements(x, tail);
      SortedHead(s);
      ConsSorted(s[0], InsertByKey(x, tail));
    }
  }

  /** Insertion adds `x` to the elements and keeps everything else. */
  lemma {:induction false} InsertByKeyElements(x: string, s: seq<string>)
    ensures multiset(InsertByKey(x, s)) == multiset(s) + multiset{x}
    ensures forall e :: e in InsertByKey(x, s) <==> e == x || e in s
  {
    if |s| > 0 && OptionKey(x) >= OptionKey(s[0]) {
      InsertByKeyElements(x, s[1..]);
      assert s == [s[0]] + s[1..];
    }
  }

  /** The head of a sorted sequence has the least key. */
  lemma SortedHead(s: seq<string>)
    requires SortedByKey(s) && |s| > 0
    ensures forall e :: e in s ==> OptionKey(s[0]) <= OptionKey(e)
  {
    forall e | e in s ensures OptionKey(s[0]) <= OptionKey(e) {
      var j :| 0 <= j < |s| && s[j] == e;
      assert j == 0 || OptionKey(s[0]) <= OptionKey(s[j]);
    }
  }

  /** Putting an element no larger than every one in front of a sorted sequence keeps it sorted. */
  lemma ConsSorted(h: string, t: seq<string>)
    requires SortedByKey(t)
    requires forall e :: e in t ==> OptionKey(h) <= OptionKey(e)
    ensures SortedByKey([h] + t)
  {
    var u := [h] + t;
    forall j, k | 0 <= j < k < |u| ensures OptionKey(u[j]) <= OptionKey(u[k]) {
      assert u[k] == t[k - 1];
      if j > 0 {
        assert u[j] == t[j - 1];
      } else {
        assert u[k] in t;
      }
    }
  }

  /** `Array.prototype.sort` with the comparator `Number(a) - Number(b)` (a stable sort). */
  function SortByKey(s: seq<string>): (r: seq<string>)
    ensures SortedByKey(r)
    ensures multiset(r) == multiset(s)
  {
    if |s| == 0 then []
    else
      var init := s[..|s| - 1];
      assert s == init + [s[|s| - 1]];
      InsertByKeySorted(s[|s| - 1], SortByKey(init));
      InsertByKey(s[|s| - 1], SortByKey(init))
  }

  /** `sortedUniqueValues`: only a select-filter column gets options. */
  function FacetOptions(isSelect: bool, values: seq<Option<real>>): seq<string> {
    if !isSelect then [] else SortByKey(Distinct(OptionTexts(values)))
  }

  /**
   * The options of the rating select are the one-decimal texts of the
   * finite facet values, each exactly once, in ascending numeric order; a
   * column without a select filter gets none.
   */
  lemma FacetOptionsSpec(isSelect: bool, values: seq<Option<real>>)
    ensures !isSelect ==> FacetOptions(isSelect, values) == []
    ensures isSelect ==> var r := FacetOptions(isSelect, values);
      && NoDuplicates(r)
      && SortedByKey(r)
      && (forall i :: 0 <= i < |values| && values[i].Some? ==> Fixed1(values[i].value) in r)
      && (forall j :: 0 <= j < |r| ==>
            exists i :: 0 <= i < |values| && values[i].Some? && r[j] == Fixed1(values[i].value))
  {
    if isSelect {
      var texts := OptionTexts(values);
      var d := Distinct(texts);
      SortKeepsDistinctElements(d);
      var r := SortByKey(d);
      assert r == FacetOptions(isSelect, values);
      forall i | 0 <= i < |values| && values[i].Some? ensures Fixed1(values[i].value) in r {
        assert Fixed1(values[i].value) in texts;
      }
      forall j | 0 <= j < |r|
        ensures exists i :: 0 <= i < |values| && values[i].Some? && r[j] == Fixed1(values[i].value)
      {
        assert r[j] in d;
        var m :| 0 <= m < |texts| && texts[m] == r[j];
      }
    }
  }

  /** Sorting a list without duplicates keeps exactly its elements, each once. */
  lemma SortKeepsDistinctElements(d: seq<string>)
    requires NoDuplicates(d)
    ensures forall x :: x in SortByKey(d) <==> x in d
    ensures NoDuplicates(SortByKey(d))
  {
    var r := SortByKey(d);
    forall x ensures x in r <==> x in d {
      assert x in r <==> x in multiset(r);
      assert x in d <==> x in multiset(d);
    }
    forall j, k | 0 <= j < k < |r| ensures r[j] != r[k] {
      if r[j] == r[k] {
        TwiceInMultiset(r, j, k);
        DistinctOnce(d, r[j]);
      }
    }
  }

  lemma TwiceInMultiset(r: seq<string>, j: int, k: int)
    requires 0 <= j < k < |r| && r[j] == r[k]
    ensures multiset(r)[r[j]] >= 2
  {
    assert r == r[..j] + [r[j]] + r[j + 1..k] + [r[k]] + r[k + 1..];
  }

  lemma DistinctOnce(d: seq<string>, x: string)
    requires NoDuplicates(d)
    ensures multiset(d)[x] <= 1
  {
    if |d| > 0 {
      var init := d[..|d| - 1];
      assert d == init + [d[|d| - 1]];
      DistinctOnce(init, x);
      if d[|d| - 1] == x {
        assert x !in init;
      }
    }
  }

  /** An option's sort key is the signed tenths its rating rounds to. */
  lemma OptionKeyOfRating(x: real)
    ensures OptionKey(Fixed1(x)) == SignedTenths(x)
  {
    Fixed1RoundTrip(x);
  }

  // ---------------------------------------------------------------------------
  // Range label

  /**
   * The date filter's button label. `format` stands for the range label's
   * `Intl.DateTimeFormat` and `dayOf` for `toDateString`.
   */
  function RangeLabel<D>(range: Option<DateRange<D>>, toDate: D -> int,
                         format: int -> string, dayOf: int -> string): string {
    if range.None? || range.value.start.None? then "Select dates"
    else
      var startDate := toDate(range.value.start.value);
      if range.value.end.None? then "From " + format(startDate)
      else
        var endDate := toDate(range.value.end.value);
        if dayOf(startDate) == dayOf(endDate) then format(startDate)
        else format(startDate) + " – " + format(endDate)
  }

  /**
   * "Select dates" without a start, "From <start>" without an end, a single
   * date when both ends fall on one day, and "<start> – <end>" otherwise;
   * a range from a date to itself reads as that date.
   */
  lemma RangeLabelCases<D>(range: Option<DateRange<D>>, toDate: D -> int,
                           format: int -> string, dayOf: int -> string)
    ensures range.None? || range.value.start.None? ==> RangeLabel(range, toDate, format, dayOf) == "Select dates"
    ensures range.Some? && range.value.start.Some? && range.value.end.None? ==>
      RangeLabel(range, toDate, format, dayOf) == "From " + format(toDate(range.value.start.value))
    ensures range.Some? && range.value.start.Some? && range.value.end.Some? ==>
      var s := toDate(range.value.start.value);
      var e := toDate(range.value.end.value);
      RangeLabel(range, toDate, format, dayOf)
      == if dayOf(s) == dayOf(e) then format(s) else format(s) + " – " + format(e)
    ensures forall d: D :: RangeLabel(Some(DateRange(Some(d), Some(d))), toDate, format, dayOf) == format(toDate(d))
  {
  }

  // ---------------------------------------------------------------------------
  // Stars and badge

  /** One star of the five: filled, filled to `fill` percent, or outlined. */
  datatype Star = Full | Partial(fill: int) | Empty

  /** Star `index` of the row for `rating`. */
  function StarAt(rating: real, index: int): Star {
    var full := Floor(rating);
    var fractional := rating - full as real;
    if index < full then Full
    else if index == full && 0.0 < fractional < 1.0 then Partial(Round(fractional * 100.0))
    else Empty
  }

  /** `StarRating`: always five stars. */
  function Stars(rating: real): (r: seq<Star>)
    ensures |r| == 5
  {
    seq(5, i => StarAt(rating, i))
  }

  /**
   * The first `floor(rating)` stars (at most five) are full; the next one is
   * partial exactly when the rating has a fractional part, filled to
   * `round(fraction * 100)` percent, which lies in 0..100; the rest are
   * outlined.
   */
  lemma StarsLayout(rating: real, i: int)
    requires 0 <= i < 5
    ensures Stars(rating)[i].Full? <==> i < Floor(rating)
    ensures Stars(rating)[i].Partial? <==> i == Floor(rating) && rating != Floor(rating) as real
    ensures Stars(rating)[i].Partial? ==>
      Stars(rating)[i].fill == Round((rating - Floor(rating) as real) * 100.0)
      && 0 <= Stars(rating)[i].fill <= 100
  {
  }

  /** Percent of one star that is drawn filled. */
  function Filled(s: Star): int {
    match s
    case Full => 100
    case Partial(fill) => fill
    case Empty => 0
  }

  function TotalFill(stars: seq<Star>): int {
    if |stars| == 0 then 0 else Filled(stars[0]) + TotalFill(stars[1..])
  }

  /**
   * For a rating in [0, 5] the drawn stars add up to the rating: the total
   * filled percentage is within half a percent of `rating * 100`.
   */
  lemma StarsShowRating(rating: real)
    requires 0.0 <= rating <= 5.0
    ensures rating * 100.0 - 0.5 < TotalFill(Stars(rating)) as real <= rating * 100.0 + 0.5
  {
    var s := Stars(rating);
    var full := Floor(rating);
    assert TotalFill(s[4..]) == Filled(s[4]) by {
      assert s[4..][1..] == [];
    }
    assert TotalFill(s[3..]) == Filled(s[3]) + TotalFill(s[4..]) by {
      assert s[3..][1..] == s[4..];
    }
    assert TotalFill(s[2..]) == Filled(s[2]) + TotalFill(s[3..]) by {
      assert s[2..][1..] == s[3..];
    }
    assert TotalFill(s[1..]) == Filled(s[1]) + TotalFill(s[2..]) by {
      assert s[1..][1..] == s[2..];
    }
    var frac := rating - full as real;
    if rating == full as real {
      assert TotalFill(s) == 100 * full;
    } else {
      assert TotalFill(s) == 100 * full + Round(frac * 100.0);
    }
  }

  /** The badge's hue: the rating clamped to [0, 5], scaled to 0..120 (red to green). */
  function BadgeHue(rating: real): (hue: real)
    ensures 0.0 <= hue <= 120.0
  {
    ClampReal(rating, 0.0, 5.0) / 5.0 * 120.0
  }

  /** Within [0, 5] the hue is 24 degrees per star, and it never decreases as the rating grows. */
  lemma BadgeHueScale(a: real, b: real)
    ensures 0.0 <= a <= 5.0 ==> BadgeHue(a) == a * 24.0
    ensures a <= b ==> BadgeHue(a) <= BadgeHue(b)
  {
  }
}
