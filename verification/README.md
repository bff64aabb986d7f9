# Syncback feedback core in Dafny

Syncback collects star ratings and written feedback for a business. It rolls
the ratings up per day and shows them on a dashboard. This project models
three parts of it as pure Dafny functions over immutable data, and proves
what each part promises:

- **Feedback ingestion** (`Feedbacks`, with `Calendar` and `Text`).
  - `feedbacks.submit` first validates the rating range, the half-star step
    and the trimmed message.
  - It then resolves the business by slug and inserts one feedback row.
  - Finally it inserts or patches the business's `aggregates_daily` row for
    the UTC day of the submission. That row keeps `avgRating` as a running
    mean over `count` ratings.
  - `Calendar` gives the UTC `YYYY-MM-DD` day key, using the calendar
    arithmetic of section 21.4.1 of ECMA-262.
- **Tenant provisioning** (`Businesses`, `Users`, over the tables of
  `Schema`).
  - `businesses.save` runs the slug collision probe `base`, `base-1`,
    `base-2`, …, builds the feedback URL, and upserts the owner's business.
  - `businesses.forClerkUser` looks up the user, then the business, and
    reports an optional URL.
  - `users.ensure` upserts by Clerk user id; `users.byClerkId` looks up and
    projects.
  - The store is a `Db` record with one map from id to record per table,
    plus the next id the store hands out.
  - A mutation is a function from `Db` to `Result<(Db, …), Error>`. A thrown
    error is a `Failure`, and the caller keeps the old state, as the
    transaction is rolled back.
  - `Schema.Valid` is the invariant of the declared unique indexes
    (`by_clerkUserId`, `by_organisationID`, `by_slug`,
    `by_businessId_date`), plus fresh ids and positive counts.
  - Every mutation is proved to keep `Schema.Valid`.
- **Dashboard shaping and UI state** (`RecentRatings`, `FeedbackTable`,
  `RatingTrend`, `RatingDistribution`, `StatsGrid`, `Slider`, `Theme`).
  These cover:
  - the recent-ratings window, slider ticks and label thinning;
  - the table's comparators, filters, select options, star decomposition,
    badge hue and range label;
  - the trend chart's Y domain;
  - the radar chart's radius domain and tooltip wording;
  - the stats grid's cards and columns;
  - the range slider's props, clamp and change handling;
  - the colour-scheme provider.

**Time, NaN, formatting and ratings.**
- `Date.now()` is a parameter `now`.
- A JavaScript value that may be NaN or non-finite is an `Option`, with
  `None` for NaN. A comparison against `None` is false, as in JavaScript.
- Locale-dependent formatting and time-zone conversion are function
  parameters.
- Ratings are exact `real`s.

**Daily aggregates.** `convex/feedbacks.ts` stores only `count` and a
running `avgRating` per (business, day). There is no stored sum, so the
model proves that `avgRating * count` equals the sum of the folded ratings
(`Feedbacks.DailyRunningTotals`).

## Model

| member | source | states |
|---|---|---|
| Feedbacks.Validate | syncback/convex/feedbacks.ts:21-31 | A submission is accepted exactly when its rating is within [0.5, 5], twice the rating is within 1e-8 of an integer, and the message is not blank after trimming. Otherwise the result is one of the three validation errors. |
| Feedbacks.AcceptedRatings | syncback/convex/feedbacks.ts:21-27 | The accepted ratings are exactly those in [0.5, 5] that lie within the 1e-8 tolerance of one of the half-steps 0.5, 1.0, …, 5.0. |
| Feedbacks.HalfStepsAccepted | syncback/convex/feedbacks.ts:21-27 | Every exact half-step from 0.5 to 5.0 passes both rating checks. |
| Feedbacks.SubmitRejects | syncback/convex/feedbacks.ts:21-40 | The errors come in the source's order: range, then half-step, then blank message, then an unknown slug giving "Business not found.". |
| Feedbacks.ValidationPrecedesWrites | syncback/convex/feedbacks.ts:21-31 | A submission that fails validation fails identically on every store at every time, so nothing is written. |
| Feedbacks.SubmitInsertsOneFeedback | syncback/convex/feedbacks.ts:42-51 | A successful submit inserts exactly one new feedback row. That row has the business id, the rating, the trimmed message, createdAt = now, status "new" and source defaulting to "qr". Users and businesses are untouched. |
| Feedbacks.FoldRating | syncback/convex/feedbacks.ts:61-70 | The patch raises count by one and raises avgRating·count by exactly the new rating. The key and createdAt are kept. |
| Feedbacks.UpsertInserts | syncback/convex/feedbacks.ts:71-79 | With no row for (business, date), the upsert adds one row under a fresh id, with count 1 and avgRating = rating. Nothing else changes. |
| Feedbacks.UpsertPatches | syncback/convex/feedbacks.ts:61-70 | With a row for (business, date), the upsert replaces only that row, by the folded one. |
| Feedbacks.UpsertDailyKeepsValid | syncback/convex/feedbacks.ts:53-79 | The upsert keeps at most one row per (business, date), keeps every count positive, and adds no id other than the fresh one. |
| Feedbacks.UpsertDailyFolds | syncback/convex/feedbacks.ts:53-79 | The (count, avg·count) totals of the written key grow by (1, rating). |
| Feedbacks.UpsertDailyFrame | syncback/convex/feedbacks.ts:53-79 | The totals of every other (business, date) key are unchanged. |
| Feedbacks.UpsertDailyRowsFrame | syncback/convex/feedbacks.ts:53-79 | Every row under another (business, date) key is still present and unchanged. |
| Feedbacks.SubmitShape | syncback/convex/feedbacks.ts:20-81 | A successful submit passed validation and found the business. The new state is the old one with the new feedback row under the next id and the aggregate upsert applied under the id after it; the returned id is the feedback's. |
| Feedbacks.SubmitPreservesValid | syncback/convex/feedbacks.ts:42-79 | A successful submit keeps ids fresh, every unique index unique and every count positive. |
| Feedbacks.SubmitSucceeds | syncback/convex/feedbacks.ts:33-79 | On a consistent store, a valid submission for an existing slug always succeeds, keeps the store consistent and leaves the businesses table as it was. |
| Feedbacks.SubmitFoldsDay | syncback/convex/feedbacks.ts:53-79 | A successful submit raises that day's (count, avg·count) for the business by (1, rating). |
| Feedbacks.SubmitKeepsOtherDays | syncback/convex/feedbacks.ts:53-79 | A successful submit leaves the totals of every other (business, day) unchanged. |
| Feedbacks.SubmitStep | syncback/convex/feedbacks.ts:20-81 | One more valid submission succeeds, keeps the store valid and folds its rating into its day. |
| Feedbacks.SubmitAllOnStep | syncback/convex/feedbacks.ts:20-81 | Running a sequence of submissions one by one equals running its prefix and then the last submission. |
| Feedbacks.SubmitAllOnDay | syncback/convex/feedbacks.ts:53-57 | Submissions whose timestamps all have day key `date` write under that key. |
| Feedbacks.DailyRunningTotals | syncback/convex/feedbacks.ts:61-78 | Any run of valid submissions for one business on one day succeeds and keeps the store valid. Afterwards the day's count has grown by their number, and avgRating·count by their rating sum. |
| Feedbacks.DailyMeanOn | syncback/convex/feedbacks.ts:61-78 | Starting from a day with no row, after n ≥ 1 valid submissions the row has count n. Its avgRating is the arithmetic mean of their ratings. |
| Feedbacks.DailyMean | syncback/convex/feedbacks.ts:4-78 | The same mean holds for submissions whose timestamps fall in one UTC day, through the real day key. |
| Calendar.CivilFromDay | syncback/convex/feedbacks.ts:5-8 | The UTC year, month and date of a day number form a valid calendar date whose day number is that day. |
| Calendar.CivilRoundTrip | syncback/convex/feedbacks.ts:5-8 | Every valid calendar date is recovered from its own day number. |
| Calendar.YearFromDayIsLargest | syncback/convex/feedbacks.ts:6 | getUTCFullYear is the largest year starting no later than the timestamp. |
| Calendar.MonthFromDayWithinYear | syncback/convex/feedbacks.ts:7 | getUTCMonth is the month whose start-of-month range contains the day within the year. |
| Calendar.KeyOfInjective | syncback/convex/feedbacks.ts:9 | Different valid dates print different `year-MM-DD` keys. |
| Calendar.DateKeySameDay | syncback/convex/feedbacks.ts:4-10 | Two valid timestamps get equal keys exactly when they fall on the same UTC day. |
| Calendar.ValidKeyIsNotInvalid | syncback/convex/feedbacks.ts:4-10 | A valid timestamp never yields the key an invalid Date prints. |
| Calendar.DateKeyFields | syncback/convex/feedbacks.ts:4-10 | A key reads back field by field: the decimal year, then the two-digit month and day of the timestamp's UTC date. |
| Text.Pad2 | syncback/convex/feedbacks.ts:7-8 | `padStart(2, "0")` of a number below 100 is two digits that read back as that number. |
| Text.Pad2Injective | syncback/convex/feedbacks.ts:7-8 | Different numbers below 100 pad to different texts. |
| Text.ParseIntToString | syncback/convex/feedbacks.ts:9 | The decimal text of an integer is an optional '-' and digits, and reads back as that integer. |
| Text.TrimSpec | syncback/convex/feedbacks.ts:29-31 | The trimmed text is a contiguous piece of the input, between two whitespace runs, with no whitespace at either end. It is empty exactly when the input is all whitespace. |
| Text.TrimUntouched | syncback/convex/feedbacks.ts:46 | Text that neither starts nor ends with whitespace is stored unchanged. |
| Text.TrimIdempotent | syncback/convex/feedbacks.ts:46 | Trimming the stored, already trimmed message changes nothing. |
| Text.StripTrailingSlash | syncback/convex/businesses.ts:39 | The input is the result plus one '/', or it is the result itself and does not end in '/'. |
| Text.Fixed1RoundTrip | syncback/components/dashboard/RecentFeedbackTable.tsx:165 | `toFixed(1)` prints a sign, digits, '.' and one digit, which read back as the signed number of tenths the value rounds to. |
| Text.Fixed1SameText | syncback/components/dashboard/RecentFeedbackTable.tsx:165 | Two non-negative numbers print alike under `toFixed(1)` exactly when they round to the same tenth. |
| Schema.Unique | syncback/convex/feedbacks.ts:33-36 | A `.unique()` lookup reports missing for no match, found with the single id for one match, and ambiguous (a throw) for two or more. |
| Schema.UniqueIndexNeverAmbiguous | syncback/convex/schema.ts:13-54 | On a consistent store the lookups on the unique indexes by_clerkUserId, by_slug and by_businessId_date never throw. |
| Businesses.CandidateInjective | syncback/convex/businesses.ts:35-36 | Different probe steps try different slugs. |
| Businesses.Probe | syncback/convex/businesses.ts:25-37 | The probe stops at the first candidate, from step k on, that is free or held only by the caller's business. It takes no more steps than there are holders of later candidates. It throws only when some candidate is held twice. |
| Businesses.ProbeSucceeds | syncback/convex/businesses.ts:25-37 | With unique slugs the probe always terminates with a slug. |
| Businesses.ProbeBound | syncback/convex/businesses.ts:25-37 | The suffix number k never exceeds the number of businesses. |
| Businesses.FeedbackUrlShape | syncback/convex/businesses.ts:39-40 | The URL is the app URL with at most one trailing '/' removed, followed by "/", the slug and "/feedback". |
| Businesses.SaveSlugIsFirstAvailable | syncback/convex/businesses.ts:25-37 | The stored slug is `base` or `base-k` for the smallest k whose slug is free or caller-owned, with k at most the number of businesses. |
| Businesses.SaveKeepsAvailableSlug | syncback/convex/businesses.ts:25-33 | A requested slug that is free, or held only by the caller's business, is kept unchanged. |
| Businesses.SaveFailure | syncback/convex/businesses.ts:14-37 | On a consistent store save fails exactly when the owner already has two or more businesses, so the non-unique owner lookup throws. |
| Businesses.SaveFeedbackUrl | syncback/convex/businesses.ts:39-50 | The returned URL is built from the app URL and the stored slug. |
| Businesses.SaveExisting | syncback/convex/businesses.ts:42-51 | An owner with one business gets it patched. The id is returned; only name, email, slug, qrSvg and updatedAt change; no row is inserted and no other row is touched. |
| Businesses.SaveNew | syncback/convex/businesses.ts:53-64 | An owner without a business gets exactly one new row under a fresh id, with phone "" and createdAt = updatedAt = now. |
| Businesses.SavePreservesValid | syncback/convex/businesses.ts:25-64 | No other business holds the stored slug, so save keeps slugs unique and the store consistent. |
| Businesses.SaveKeepsOwnersUnique | syncback/convex/businesses.ts:14-64 | Save never gives an owner a second business: at most one business per owner stays true. |
| Businesses.OptionalFeedbackUrlCases | syncback/convex/businesses.ts:89-90 | The reported URL is null exactly when the app URL is absent, empty or a lone "/". Otherwise it is the URL save builds. |
| Businesses.ForClerkUserAnswers | syncback/convex/businesses.ts:71-101 | When the owner lookup does not throw, the query answers null exactly when the Clerk user is unknown or owns no business. Otherwise it returns the id, name, email, slug, QR SVG, createdAt and updatedAt of a business that user owns, with the optional feedback URL built from its slug. |
| Users.EnsureExisting | syncback/convex/users.ts:12-28 | For a known Clerk user, ensure returns the existing id and rewrites only email, organisation name, organisation id and lastSeenAt = now. clerkUserId, createdAt and every other row and table are kept. |
| Users.EnsureNew | syncback/convex/users.ts:30-37 | For an unknown Clerk user, ensure inserts exactly one row under a new id, with createdAt = lastSeenAt = now. Nothing else changes. |
| Users.EnsureFailure | syncback/convex/users.ts:19-37 | On a consistent store, ensure fails exactly when another user already holds the organisation id, and the write would break the unique by_organisationID index. |
| Users.EnsurePreservesValid | syncback/convex/users.ts:12-37 | A successful ensure keeps ids fresh and both user indexes unique. |
| Users.EnsureTwice | syncback/convex/users.ts:12-28 | Two ensures for the same Clerk user return the same id and leave exactly one row for that user. |
| Users.EnsureRepeatable | syncback/convex/users.ts:12-28 | Repeating a successful ensure always succeeds. |
| Users.ByClerkIdAnswers | syncback/convex/users.ts:41-62 | byClerkId answers null exactly for an unknown Clerk user. Otherwise it returns that user's stored fields, with an unset lastSeenAt as null. |
| Users.EnsureThenByClerkId | syncback/convex/users.ts:53-60 | Reading a user right after ensure returns what ensure wrote. |
| RecentRatings.SliderBounds | syncback/components/dashboard/RecentRatingsAreaChart.tsx:49-53 | With n > 0 ratings the bounds are [min(minimumWindow, n), n]. With none, both bounds are minimumWindow. Always min ≤ max. |
| RecentRatings.ClampWindowInRange | syncback/components/dashboard/RecentRatingsAreaChart.tsx:59-69 | The bounds-change clamp lands in [min, max], keeps an in-range window and is idempotent. |
| RecentRatings.InitialIsClamp | syncback/components/dashboard/RecentRatingsAreaChart.tsx:55-57 | The initial window is the default window clamped by the same rule, so it lies within the bounds. |
| RecentRatings.SliderInputIsClamp | syncback/components/dashboard/RecentRatingsAreaChart.tsx:128-130 | A slider value is clamped by the same rule, so the window stays within the bounds. |
| RecentRatings.TicksConsecutive | syncback/components/dashboard/RecentRatingsAreaChart.tsx:71-76 | The ticks are the consecutive integers min..max, max − min + 1 of them. |
| RecentRatings.SkipInterval | syncback/components/dashboard/RecentRatingsAreaChart.tsx:78-83 | The skip interval is at least 1, and exactly 1 for at most six ticks. |
| RecentRatings.SkipIntervalMinimal | syncback/components/dashboard/RecentRatingsAreaChart.tsx:78-83 | The skip interval is the least k ≥ 1 with 6·k ≥ the tick count: 1 for at most six ticks, the ceiling of a sixth of the count beyond, so at most about six labels remain. |
| RecentRatings.LabelledTicks | syncback/components/dashboard/RecentRatingsAreaChart.tsx:137-139 | The first and last ticks are labelled. A tick is labelled exactly when its index is a multiple of the interval or it is last. Every tick has a labelled tick less than one interval before it. |
| RecentRatings.VisibleIsSuffix | syncback/components/dashboard/RecentRatingsAreaChart.tsx:85-88 | The visible ratings are the last min(window, n) ratings, in their original order. |
| RecentRatings.VisibleCountIsWindow | syncback/components/dashboard/RecentRatingsAreaChart.tsx:85-88 | With ratings present, any window value put through the clamp makes exactly that many ratings visible. |
| RecentRatings.AverageTimesCount | syncback/components/dashboard/RecentRatingsAreaChart.tsx:99-105 | The average is 0 for an empty window. Otherwise average·count is the sum of the visible ratings. |
| RecentRatings.AverageWithinBounds | syncback/components/dashboard/RecentRatingsAreaChart.tsx:99-105 | The average of a non-empty window lies between any lower and upper bound of its ratings. |
| RecentRatings.RenderCases | syncback/components/dashboard/RecentRatingsAreaChart.tsx:107-113 | Only the empty state is shown exactly when there are no ratings. Otherwise the chart's average times the visible count is their sum, there are n − min(minimumWindow, n) + 1 ticks, and the last tick is n. |
| FeedbackTable.Compare | syncback/components/dashboard/RecentFeedbackTable.tsx:154-158 | The comparator returns only −1, 0 or 1. |
| FeedbackTable.CompareIsThreeWay | syncback/components/dashboard/RecentFeedbackTable.tsx:154-158 | On numbers the comparator is 0 exactly on equal keys, 1 exactly on a greater key, and antisymmetric. |
| FeedbackTable.CompareDatesByInstant | syncback/components/dashboard/RecentFeedbackTable.tsx:117-121 | Valid dates compare by their millisecond instants, with 0 exactly on equal instants and antisymmetrically. |
| FeedbackTable.InvalidDateComparesLess | syncback/components/dashboard/RecentFeedbackTable.tsx:117-121 | An invalid date compares as −1 against every date in both argument orders, so antisymmetry fails there. |
| FeedbackTable.DateFilterWindow | syncback/components/dashboard/RecentFeedbackTable.tsx:102-116 | With no range or no start every row passes. Otherwise a row passes exactly when it is a valid date between start and the end of day of (end ?? start). |
| FeedbackTable.DateFilterSingleDay | syncback/components/dashboard/RecentFeedbackTable.tsx:102-116 | A range without an end keeps exactly the rows from start to the end of that day. |
| FeedbackTable.RatingFilterByTenths | syncback/components/dashboard/RecentFeedbackTable.tsx:159-166 | An empty filter passes every row. Otherwise a row passes exactly when its rating has the same sign and rounds to the same tenth as the selected text, and every row passes its own option. |
| FeedbackTable.OptionTexts | syncback/components/dashboard/RecentFeedbackTable.tsx:349-359 | The candidate options are the `toFixed(1)` texts of the finite facet values, one per finite value. |
| FeedbackTable.Distinct | syncback/components/dashboard/RecentFeedbackTable.tsx:350-360 | The de-duplicated options have no repeats and the same elements as the input. |
| FeedbackTable.SortByKey | syncback/components/dashboard/RecentFeedbackTable.tsx:362 | The options are sorted ascending by numeric value and are a permutation of the input. |
| FeedbackTable.FacetOptionsSpec | syncback/components/dashboard/RecentFeedbackTable.tsx:344-363 | Non-select columns get no options. A select column gets the texts of the finite values, each once, in ascending numeric order, covering every finite value. |
| FeedbackTable.OptionKeyOfRating | syncback/components/dashboard/RecentFeedbackTable.tsx:362 | An option's sort key is the signed tenths its rating rounds to. |
| FeedbackTable.RangeLabelCases | syncback/components/dashboard/RecentFeedbackTable.tsx:485-506 | The label is "Select dates" without a start, and "From ⟨start⟩" without an end. It is one date when both fall on the same day, and "⟨start⟩ – ⟨end⟩" otherwise. |
| FeedbackTable.Stars | syncback/components/dashboard/RecentFeedbackTable.tsx:584-614 | The rating always renders exactly five stars. |
| FeedbackTable.StarsLayout | syncback/components/dashboard/RecentFeedbackTable.tsx:574-613 | The stars before index ⌊rating⌋ are full. The star at ⌊rating⌋ is partial exactly when the rating is not whole, filled round(fraction·100)%, between 0 and 100. The rest are empty. |
| FeedbackTable.StarsShowRating | syncback/components/dashboard/RecentFeedbackTable.tsx:574-613 | For a rating in [0, 5], the five stars' fill percentages add up to rating·100, to within 0.5. |
| FeedbackTable.BadgeHue | syncback/components/dashboard/RecentFeedbackTable.tsx:79-81 | The badge hue lies in [0, 120]. |
| FeedbackTable.BadgeHueScale | syncback/components/dashboard/RecentFeedbackTable.tsx:79-81 | The hue is rating·24 on [0, 5], and it never decreases as the rating grows. |
| RatingTrend.Averages | syncback/components/dashboard/RatingTrendChart.tsx:33-35 | One plotted value per datum: its average, or 0 for a non-finite one. |
| RatingTrend.SeqMin | syncback/components/dashboard/RatingTrendChart.tsx:36 | `Math.min` of the averages is one of them and no greater than any. |
| RatingTrend.SeqMax | syncback/components/dashboard/RatingTrendChart.tsx:37 | `Math.max` of the averages is one of them and no smaller than any. |
| RatingTrend.YDomain | syncback/components/dashboard/RatingTrendChart.tsx:36-51 | The domain lies within [0, 5], has a positive upper bound, and both ends are whole tenths. |
| RatingTrend.EmptyDomain | syncback/components/dashboard/RatingTrendChart.tsx:36-40 | Without data the domain is [0, 5]. |
| RatingTrend.DomainContainsAverages | syncback/components/dashboard/RatingTrendChart.tsx:33-51 | With every average in [0, 5], lower < upper and every average lies between them. Each end pads by at most 0.3 beyond the extreme averages. |
| RatingDistribution.MaxValue | syncback/components/dashboard/RatingDistributionChart.tsx:34-38 | The largest share is at least 0 and at least every finite value. It is either 0 or one of the finite values. |
| RatingDistribution.DomainMaxIsLeastRoundCeiling | syncback/components/dashboard/RatingDistributionChart.tsx:39 | The radius domain is the least multiple of 10 that is at least 10 and at least the largest share plus 5. |
| RatingDistribution.DomainMaxMonotone | syncback/components/dashboard/RatingDistributionChart.tsx:39 | A larger largest share never gives a smaller domain. |
| RatingDistribution.LabelForCases | syncback/components/dashboard/RatingDistributionChart.tsx:70-83 | A hovered datum shows its own label, and an unparsable label is returned unchanged. A number prints as "n Star" exactly when within 1e-8 of one, else "n Stars". An integer prints with no decimals, other values with one, each reading back to the number. |
| StatsGrid.RenderCards | syncback/components/dashboard/StatsGrid.tsx:44-56 | The empty-state card shows exactly when there are no metrics. Otherwise there is one card per metric, in order, with its title, icon and value. |
| StatsGrid.CardSign | syncback/components/dashboard/StatsGrid.tsx:58-84 | The arrow is up exactly when the tone is positive, exactly when diff ≥ 0. The shown percentage is \|diff\|, from which the arrow recovers the signed diff. |
| StatsGrid.ColumnsBounded | syncback/components/dashboard/StatsGrid.tsx:97-102 | With n ≥ 1 metrics the column counts satisfy 1 = base ≤ xs ≤ md ≤ lg ≤ n, capped at 2, 3 and 4. |
| Slider.Defaults | syncback/components/ui/slider.tsx:26-28 | Omitted min, max and step are 0, 100 and 1; given ones are used as they are. |
| Slider.InitialChoice | syncback/components/ui/slider.tsx:37-45 | The initial value is value[0] when value is non-empty. Otherwise it is defaultValue[0] when that is non-empty. Otherwise it is min. |
| Slider.ControlledFollowsParent | syncback/components/ui/slider.tsx:49-70 | A controlled slider shows value[0] ?? min whatever its internal state, and the re-sync copies value[0] into it. |
| Slider.ClampInRange | syncback/components/ui/slider.tsx:55-61 | On a non-empty range the clamp lands inside it, keeps an in-range value, leaves an undefined value alone, and is idempotent. |
| Slider.ClampEmptyRangeNotIdempotent | syncback/components/ui/slider.tsx:55-61 | With min > max, a value below min is raised to min, which the next clamp lowers to max. |
| Slider.ChangeHandling | syncback/components/ui/slider.tsx:71-77 | `onValueChange` always receives [next]. The internal value follows only when uncontrolled; a controlled slider keeps its state. |
| Slider.MountUncontrolled | syncback/components/ui/slider.tsx:37-61 | An uncontrolled slider mounts showing a value inside a non-empty range. A default already in range is kept. |
| Theme.ParseScheme | syncback/lib/theme-context.tsx:34-35 | A stored string is adopted only when it is exactly the name of a scheme. |
| Theme.MountResolution | syncback/lib/theme-context.tsx:25-43 | Mounting always marks the provider mounted. A stored "dark"/"light" wins; otherwise a dark system preference gives dark; otherwise, or without a window, the scheme stays light. |
| Theme.PersistMirrorsScheme | syncback/lib/theme-context.tsx:45-61 | Before mount nothing is written. After mount the root and body carry "dark" exactly when the scheme is dark, the attribute is the scheme name, and storage holds it. |
| Theme.PersistThenMountRestores | syncback/lib/theme-context.tsx:34-61 | The next mount restores what was persisted, whatever the system preference. |
| Theme.SetAndToggle | syncback/lib/theme-context.tsx:63-69 | Setting a scheme makes it current and is idempotent. Toggling always changes the scheme, and toggling twice restores the state. |
| Theme.UseThemeGuard | syncback/lib/theme-context.tsx:89-94 | useTheme throws exactly outside a provider, with its fixed message. Inside one it returns the provider's value. |

Two facts have no member of their own:
- The feedback `status` and `source` literals are the enumerations
  `Schema.Status` and `Schema.Source`.
- The table's initial sort, rating descending, is the constant
  `FeedbackTable.InitialSorting`.

## Left out

- IEEE-754 arithmetic. Ratings, averages and shares are exact reals, so
  the float drift of the running mean, of `toFixed` and of the hue is not
  modelled.
  - NaN is `None` where the code tests for it: an unparsable date, a
    non-finite facet value or average, or `parseFloat` failing.
  - Infinity is not modelled.
- `toFixed(1)` for magnitudes of 1e21 and more, which JavaScript prints in
  exponent form.
- `Intl.DateTimeFormat` output, time-zone conversion (`toDate(timeZone)`),
  `setHours(23, 59, 59, 999)` and `toDateString`. These are function
  parameters of `FeedbackTable.DateFilter` and `FeedbackTable.RangeLabel`.
- `Number.parseFloat` and `Number(...)` on arbitrary strings. Their results
  are parameters, except that an option text of the `toFixed(1)` shape is
  read back exactly.
- `Date.now()`. It is the parameter `now`.
- Convex's transaction machinery and concurrency. A mutation is one
  sequential state transition, and a thrown error leaves the old state.
- Feedbacks.MeanOfTotal: it has no row, because it is the one-line
  division step used by `Feedbacks.DailyMeanOn`.
- Users.EnsureFailure: the source has no check of its own for
  `organisationID`. The model treats the schema's `{ unique: true }` flag
  as a store-enforced constraint, so the conflicting write aborts with
  `UniqueIndexViolation`.
- Any sum, bucket, five-star or period-over-period aggregation.
  `convex/feedbacks.ts` writes no such field; it stores only `count` and
  `avgRating`.
- Chart drawing, markup, CSS classes, icons, the tooltip's share
  formatter, the chart data's date labels and the `Average … ★` text with
  two decimals.
- React scheduling. Effects are modelled as the state transitions they
  request, in the order React runs them on mount.
- The `MantineProvider` wrapper and the DOM `classList` API beyond the
  "dark" flag.
- The slider's `step` snapping. `step` is passed through to the input
  element, and the browser does the snapping.
