/**
 * The stats grid: one card per metric with an arrow and tone chosen by the
 * sign of the month-over-month difference, its magnitude as the badge
 * text, and column counts that never exceed the number of cards.
 */
module StatsGrid {
  import opened Numeric

  datatype IconKey = RatingIcon | VolumeIcon | PromotersIcon | TrendsIcon

  datatype Metric = Metric(title: string, icon: IconKey, value: string, diff: real)

  datatype Arrow = UpRight | DownRight

  datatype Tone = Positive | Negative

  /** What one card shows besides its title, icon and value. */
  datatype Card = Card(title: string, icon: IconKey, value: string, arrow: Arrow, tone: Tone, percent: real)

  /** `SimpleGrid` column counts per breakpoint. */
  datatype Columns = Columns(base: int, xs: int, md: int, lg: int)

  datatype GridView = EmptyCard | Grid(cards: seq<Card>, cols: Columns)

  function CardFor(m: Metric): Card {
    var up := m.diff >= 0.0;
    Card(m.title, m.icon, m.value,
         if up then UpRight else DownRight,
         if up then Positive else Negative,
         Abs(m.diff))
  }

  function ColumnsFor(n: int): Columns {
    Columns(1, MinInt(2, n), MinInt(3, n), MinInt(4, n))
  }

  /** The component: the empty-state card without metrics, otherwise the grid. */
  function Render(metrics: seq<Metric>): GridView {
    if |metrics| == 0 then EmptyCard
    else Grid(seq(|metrics|, i requires 0 <= i < |metrics| => CardFor(metrics[i])), ColumnsFor(|metrics|))
  }

  /**
   * The empty state shows exactly when there are no metrics; otherwise there
   * is one card per metric, in order, carrying its title, icon and value.
   */
  lemma RenderCards(metrics: seq<Metric>)
    ensures Render(metrics).EmptyCard? <==> |metrics| == 0
    ensures Render(metrics).Grid? ==>
      && |Render(metrics).cards| == |metrics|
      && forall i :: 0 <= i < |metrics| ==>
           var c := Render(metrics).cards[i];
           c.title == metrics[i].title && c.icon == metrics[i].icon && c.value == metrics[i].value
  {
  }

  /**
   * A card's arrow points up exactly when its tone is positive, exactly
   * when the difference is not negative; its badge shows a non-negative
   * percentage from which, with the arrow, the signed difference is
   * recovered.
   */
  lemma CardSign(m: Metric)
    ensures CardFor(m).arrow == UpRight <==> m.diff >= 0.0
    ensures CardFor(m).arrow == UpRight <==> CardFor(m).tone == Positive
    ensures CardFor(m).percent >= 0.0
    ensures m.diff == if CardFor(m).arrow == UpRight then CardFor(m).percent else -CardFor(m).percent
  {
  }

  /**
   * With at least one metric every breakpoint shows at least one and at
   * most `n` columns, and wider breakpoints never show fewer.
   */
  lemma ColumnsBounded(n: int)
    requires n >= 1
    ensures var c := ColumnsFor(n);
      && c.base == 1
      && 1 <= c.xs <= c.md <= c.lg <= n
      && c.xs <= 2 && c.md <= 3 && c.lg <= 4
      && (n >= 4 ==> c == Columns(1, 2, 3, 4))
  {
  }
}
