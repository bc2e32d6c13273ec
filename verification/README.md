# Energy-consumption dashboard: billing-period analytics

A Dafny model of the analytics core of a small dashboard that tracks the
water, heating and cooling bills of one home. Each billing record carries
a receipt number, a start and an end date written `dd/MM/yyyy`
("Periodo Inicio", "Periodo Fin"), and ten numeric fields: three
consumptions, three metered costs, two fixed boiler charges, a service fee
and the reported total cost.

The model covers:

- the charts page (`Charts`): monthly passthrough or yearly grouping of the
  records keyed by the year of "Periodo Fin", the cost-distribution pie,
  the consumption / cost / efficiency series and the monthly tick label;
- the home page (`Home`): the current and comparison periods, the
  percentage-change text, the per-field cards with their colours and
  visibility, the efficiency card, and the crash when fewer than two
  records exist;
- the enlarged chart (`ChartModal`): its own single-value yearly grouping
  and the "last year" window, applied in that order;
- the new-entry form (`NewEntryForm`): the record the submit handler emits
  and the cleared form afterwards.

Both views group by year with the same find-or-push reduce; the module
`YearGrouping` states it once for any key, opening and merging rule, and
each view instantiates it with its own rule.

Supporting modules: `Text` (split, join, reverse, decimal digits),
`Dates` (the `dd/MM/yyyy` text, its rewrite to `yyyy-mm-dd`, the year read
back, one year before "now"), `JsNumber` (JavaScript numbers with the
infinities and NaN, `toFixed(2)`), `Seqs` (filter, subsequence, first
index), `Billing` (the record and its numeric fields) and
`FirstAppearance` (the positions whose year has not occurred before).

Two facts shape the grouping. First, an end date that does not parse
gives the year NaN, and JavaScript's `===` never equates NaN with
anything, so each such record opens a bucket of its own. Second, the
grouping is a left fold; it is proved equal to a reference definition
that does not fold: one bucket per position whose year has not occurred
earlier, in that order. Each view then proves that such a bucket holds
its year's total, a plain sum over the input, or, for a NaN year, the
record alone. Distinct years, coverage and first-appearance order are
proved once against the reference; preservation of the totals is proved
per view.

## Model

| member | source | states |
|---|---|---|
| Charts.ProcessData | components/Charts.tsx:42-60 | Monthly returns the records unchanged; yearly returns one bucket per first occurrence of a year, in order, holding the year's summed numeric fields and the first record's other fields |
| YearGrouping.MatchesReference | components/Charts.tsx:45-58 | for any key, opening and merging rule, the find-or-push reduce equals one bucket per position whose year occurred nowhere earlier, in input order, each holding its opener with every later item of that year merged in |
| YearGrouping.YearsDistinct | components/Charts.tsx:46-48 | no two buckets have `===` years |
| YearGrouping.CoversEveryYear | components/Charts.tsx:46-56 | every item with a parseable year has a bucket of that year |
| YearGrouping.OpenedBy | components/Charts.tsx:54-56 | each bucket was opened by an item sharing its year with no earlier item |
| YearGrouping.FirstAppearanceOrder | components/Charts.tsx:54-56 | earlier buckets were opened by earlier items |
| Charts.CollectedIsYearTotal | components/Charts.tsx:48-56 | the bucket a record opens ends up as that record holding its year's totals (itself alone for a NaN year) |
| Charts.YearlyMatchesReference | components/Charts.tsx:45-58 | the charts' reduce equals one bucket per first record of a year, holding that year's totals |
| Charts.YearlyPreservesTotals | components/Charts.tsx:48-56 | the yearly buckets' numeric fields sum, field by field, to the records' sums |
| Charts.YearlyKeepsFirstRecordFields | components/Charts.tsx:47-56 | a bucket keeps the receipt and dates of the first record of its year and holds the whole year's totals |
| Charts.SumFieldIsTotal | components/Charts.tsx:112-123 | summing one field with reduce gives that field of the records' total |
| Charts.Distribution | components/Charts.tsx:111-124 | six slices named Agua … Cuota Servicio, each the total of its cost field over the rows |
| Charts.DistributionSameInBothFrames | components/Charts.tsx:111-124 | the pie is the same in the monthly and the yearly frame |
| Charts.ConsumptionEvolution | components/Charts.tsx:126-132 | one point per row, labelled by end date or year, valued water + heat + cold consumption |
| Charts.CostEvolution | components/Charts.tsx:134-137 | one point per row, labelled likewise, valued the row's total cost |
| Charts.EvolutionTotalsSameInBothFrames | components/Charts.tsx:126-137 | both evolution series sum to the same value monthly and yearly |
| Charts.Efficiency | components/Charts.tsx:139-145 | with positive consumption, efficiency times consumption is the total cost; otherwise 0 |
| Charts.EfficiencySeries | components/Charts.tsx:147-150 | one point per row with that row's efficiency |
| Charts.MonthlyTick | components/Charts.tsx:163-164 | a label without '/' gives "undefined/undefined" |
| Charts.TickDropsDay | components/Charts.tsx:163-164 | the monthly tick of `dd/mm/yyyy` is `mm/yyyy` |
| Home.CurrentPeriod | app/page.tsx:9 | the last record, present exactly when there is one |
| Home.PreviousIndex | app/page.tsx:10-18 | the first record ending in the same month one year earlier, else the one before last, never the current one |
| Home.PreviousPeriod | app/page.tsx:10-18 | a comparison period exists exactly when there are at least two records |
| Home.SameMonthYearBefore | app/page.tsx:14-17 | a match has a known end year exactly one below the current one, the year the charts read from the same text, and a different end date |
| Home.NeverComparedWithItself | app/page.tsx:14-17 | a record never matches itself as its year-earlier counterpart |
| Home.Efficiency | app/page.tsx:25-31 | same relation as the charts' efficiency |
| Home.EfficiencyAgreesWithCharts | app/page.tsx:25-31 | the home page and the charts compute the same efficiency |
| Home.EfficiencyChange | app/page.tsx:33-35 | change times previous is 100 × the difference; positive iff the value moved away from 0 in the previous value's direction; a previous value of 0 gives +Infinity, -Infinity or NaN |
| Home.FormatChange | app/page.tsx:20-23 | ends in '%' and starts with '+' exactly when the change is positive |
| Home.ChangeColour | app/page.tsx:44-51 | red exactly when a consumption rises or a cost does not rise |
| Home.ColoursOpposite | app/page.tsx:45-51 | the same change is coloured oppositely for a consumption and a cost |
| Home.RenderCard | app/page.tsx:37-51 | a card exactly when the field has a change entry, with its title, unit, direction, colour and change text |
| Home.Cards | app/page.tsx:93-106 | no more cards than listed fields, and a first listed field with a change entry renders the first card |
| Home.CardsFollowListedFields | app/page.tsx:93-106 | the cards are exactly the listed fields that have a change entry, in list order |
| Home.HomePage | app/page.tsx:6-35 | renders exactly when there are at least two records, comparing the last with the chosen previous period, else fails reading undefined |
| ChartModal.ProcessData | components/ChartModal.tsx:33-47 | monthly passthrough; yearly one `{year, value}` per first occurrence of a year, holding the year's total |
| ChartModal.CollectedIsYearTotal | components/ChartModal.tsx:39-43 | the bucket a point opens ends up holding its year's total |
| ChartModal.YearlyMatchesReference | components/ChartModal.tsx:36-45 | the modal's reduce equals one `{year, value}` per first point of a year, holding that year's total |
| ChartModal.YearlyPreservesSum | components/ChartModal.tsx:39-43 | the buckets' values sum to the points' values |
| ChartModal.FilterData | components/ChartModal.tsx:49-59 | unchanged for "all" or yearly; otherwise a subsequence keeping exactly the points whose date at midnight is not before the same instant one year earlier |
| ChartModal.WithinLastYear | components/ChartModal.tsx:52-57 | a kept point has a valid date on or after the day one year back; every valid date after that day is kept |
| ChartModal.TodayInWindow | components/ChartModal.tsx:52-57 | a point dated today is always kept |
| ChartModal.CutoffDayOnlyAtMidnight | components/ChartModal.tsx:52-57 | a point dated exactly one year back is kept exactly when the clock reads midnight |
| ChartModal.FilterIdempotentForFixedNow | components/ChartModal.tsx:49-59 | windowing twice equals windowing once |
| ChartModal.Displayed | components/ChartModal.tsx:49-61 | yearly: the grouped whole series whatever the range; monthly: a subsequence of the points, all of them for "all", only points in the window for "last year" |
| ChartModal.YearlyIgnoresRange | components/ChartModal.tsx:49-61 | in the yearly frame the range is ignored and the total is preserved |
| ChartModal.MonthlyShowsWindow | components/ChartModal.tsx:55-61 | in the monthly frame with "last year" the chart shows exactly the windowed points |
| NewEntryForm.HandleFormSubmit | components/NewEntryForm.tsx:27-36 | emits every submitted value except that the two period keys are overwritten by the formatted dates ("" when unset), then clears the form and both dates |
| NewEntryForm.EmittedDateShape | components/NewEntryForm.tsx:31 | a chosen end date is emitted as two digits, '/', two digits, '/', at least four digits |
| NewEntryForm.EmittedEndDateRoundTrip | components/NewEntryForm.tsx:30-31 | an emitted end date rewrites to `yyyy-MM-dd` and parses back to the chosen date and year; an unset one has no year |
| NewEntryForm.SecondSubmitIsEmpty | components/NewEntryForm.tsx:33-35 | the handler called again on the cleared form emits only two empty dates (the browser itself blocks that submit, the inputs being required) |
| Dates.ParseDayMonthYear | components/Charts.tsx:46 | a date comes only from one to three '/'-separated parts, with a month in 1..12 and a day in 1..31; the one- and two-part forms give the first day of a year or month below 10000 |
| Dates.ShortFormsParse | components/Charts.tsx:46 | four year digits parse as 1 January of that year, and `MM/yyyy` as the first of that month |
| Dates.FormatDayMonthYear | components/NewEntryForm.tsx:30-31 | two day digits, '/', two month digits, '/', at least four year digits; exactly ten characters for a year up to 9999 |
| Dates.YearOf | components/Charts.tsx:46 | a year exactly when the rewritten text parses, and then the parsed year |
| Dates.EmptyDateHasNoYear | components/Charts.tsx:46 | an empty end date has no year |
| Dates.IsoTextOfFormat | components/Charts.tsx:46 | reversing a formatted `dd/MM/yyyy` gives `yyyy-MM-dd` |
| Dates.ParseFormatRoundTrip | components/NewEntryForm.tsx:30-31 | parsing a formatted date of a positive year gives the date back |
| Dates.OneYearBefore | components/ChartModal.tsx:52-53 | one year earlier, same day when it exists, 1 March for a lost 29 February; strictly before now |
| Text.SplitJoin | components/Charts.tsx:46 | splitting a join of separator-free parts gives the parts back |
| Text.JoinSplit | components/Charts.tsx:46 | joining a split gives the text back |
| JsNumber.Divide | app/page.tsx:35 | a finite quotient for a nonzero divisor; ±Infinity or NaN for 0 by sign of the dividend |
| JsNumber.ToFixed2 | app/page.tsx:20-23 | a non-negative value prints as its rounded count of hundredths, a negative one as '-' and the text of its magnitude, the infinities and NaN by name; never a leading '+' |
| JsNumber.RoundCentsNearest | app/page.tsx:22 | the count of hundredths printed is within half a hundredth of the value, ties upward |
| JsNumber.CentsTextReadsBack | app/page.tsx:22 | c hundredths print as digits reading c / 100, a '.', and two digits reading c % 100 |
| JsNumber.ToFixed2ReadsBack | app/page.tsx:22 | the printed whole part and two decimals of a non-negative value read back within half a hundredth of it |
| Billing.TotalAppend | components/Charts.tsx:49-53 | the total of two runs of records is the sum of their totals |
| Billing.TotalUpdate | components/Charts.tsx:49-53 | adding a record into one bucket adds it to the total |

## Left out

- Rendering: cards, charts, colours as CSS classes, icons, tooltips, the
  tab and select widgets; only the data each one is given is modelled.
- Data loading: the records and the home page's `changes` map come from a
  loader that is not part of this model; `changes` is a parameter.
- Record fields: every record is assumed to hold all ten numeric fields
  as numbers. JavaScript coercions of other values (`Number("")`,
  string concatenation in `+`, `undefined + n`) are not modelled.
- Charts.ProcessData: the source adds every key whose value is a number;
  the model adds exactly the ten numeric fields, and the receipt number
  and the two dates are assumed to be text. The entry form's inputs,
  number inputs included, submit strings; what the stored records hold is
  decided by the loader, which is not part of this model.
  The in-place mutation of the first record's copy is modelled as a
  functional update.
- Numbers are exact reals: IEEE-754 rounding of sums and quotients is not
  modelled; division by zero is modelled only where the source leaves it
  unguarded (the efficiency change).
- JsNumber.ToFixed2: the exponent form JavaScript prints from 1e21 on is
  not modelled; rounding picks the nearest hundredth of the exact real,
  ties upward, as `Number.prototype.toFixed` specifies, without the binary
  representation of the value.
- Dates.ParseDayMonthYear: the model reads only texts written with '/'
  (`dd/MM/yyyy`, `MM/yyyy`) and a bare four-digit year. A text with no '/'
  that is already in ISO form, such as "2023-05-15", "2023-05" or a
  date-time like "2023-05-15T10:00", passes through the rewrite unchanged
  and JavaScript reads its year, but the model gives no date (year NaN).
  The three-part case matches the standard date-only form only for a
  four-digit year with a two-digit month and day; other digit runs, such
  as "15/05/23" read as year 23, are implementation-defined in JavaScript
  and the model reads them literally. Also not modelled: the expanded
  six-digit years of the standard, the rollover of days such as
  30 February, time of day and time zones.
- Dates.ParseFormatRoundTrip: the model promises the round trip for every
  positive year, including years of 10000 and more, whose text
  `10000-01-01` is not a standard form, so JavaScript gives no such
  promise for them. For year 0 and earlier the `yyyy` token prints the era
  year, which parses back as a different year, so those years are
  excluded.
- ChartModal.FilterData: the wall clock (`new Date()`) is the parameter
  `now`, a day and a time of day in one time zone; the parsed item date
  is midnight of that same zone, so time-zone offsets between the two are
  not modelled.
- The yearly x-axis tick prints the year unchanged and is not modelled.
- NewEntryForm: the form inputs, the date pickers and react-hook-form's
  registration are not modelled; the submitted values are a map.
- The data-entry page, the data table, the generic chart component and
  the layout are outside this model.
- The home page performs no check that the previous value of a change is
  nonzero and has no error for a malformed date; the model follows the
  code (an infinite or NaN change; a NaN year).
