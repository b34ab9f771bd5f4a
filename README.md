# Bitcoin logarithmic spiral: statistics and chart geometry

This Dafny project models the computational core of a web page. The page shows Bitcoin's price history as a logarithmic spiral, with a small panel of statistics beside it. Both parts start from the stored price samples: a `BitcoinPrice` row has a `dateAdd` timestamp and a `price`.

- **Statistics engine** (`calculate_statistics`, module `Statistics`). It keeps the samples with a positive price and sorts them stably by date. From them it reports:
  - the latest price and date;
  - the all-time high (ATH) price and date;
  - the whole days since the ATH;
  - the mean price;
  - the 50- and 200-sample simple moving averages;
  - the 365-day performance, measured against the sample nearest to one year before the latest;
  - the percent change from the ATH.

  It returns an empty result for fewer than two samples, or when no price is positive.
- **Spiral geometry** (the computational part of `create_logarithmic_spiral_chart`, module `SpiralChart`):
  - the "no data" and "insufficient data" sentinels;
  - one clamped price per sample, which feeds the logarithmic radius;
  - the day offset of every sample from the earliest date, and its angle: a full turn every 1461 days, never reduced modulo 360;
  - the four halvings and seven historical events, each matched to the first nearest sample when that sample lies within one day;
  - the ATH marker, found by running the statistics engine and scanning the input for its `(date, price)` pair;
  - the radial ticks (1, 10, ..., 1,000,000 dollars, up to 1.5 times the largest clamped price) with their thousands-separated labels, and the fixed angular ticks.

Shared vocabulary lives in module `Series`: time, samples, whole days, first minimum, maximum and first index. The stable sort by date lives in module `DateSort`.

Representation choices:
- Time is an integer count of microseconds, the resolution of Python's `datetime`. `timedelta.days` is the day count rounded toward minus infinity (`Series.Days`).
- The statistics engine finds its nearest sample by the exact time difference. The chart matches markers by the absolute value of the rounded-down day count. These are two different distances, and the model keeps both.
- Prices are exact reals, and means are exact real division.
- The halving and event loops, which append to a list, are one method (`MatchReferences`) proved equal to a specification function (`Hits`). The ATH scan, which stops with `break`, is a method (`ScanForSample`) proved equal to `FirstIndex`. Behind the guard on the statistics record, it gives `FindAthIndex`, proved equal to `AthIndexOf`.

Behaviour worth noting:
- The empty-result guard of the statistics engine tests the raw number of samples (fewer than two). It does not test the number of positive samples. Two samples of which only one is positive give a full record (`Statistics.SinglePositiveSample`).
- The radial tick list is not forced to be non-empty. It is empty exactly when 1.5 times the largest clamped price is below one dollar (`SpiralChart.RadialTicksFacts`).
- The angular tick labels are the constant list `2025, 2022, 2023, 2024`. They are not derived from the data.
- Angles are never reduced modulo 360 (`SpiralChart.AngleNotWrapped`).

## Model

| member | source | states |
|---|---|---|
| Series.Days | app/services/statistics.py:28 | `timedelta.days` is the whole number of days d with d days <= delta < d+1 days, so it rounds toward minus infinity |
| Series.DaysMonotone | app/services/chart_generator.py:44 | a larger time difference never has fewer whole days |
| Series.DatesOf | app/services/chart_generator.py:16 | one date per sample, in input order |
| Series.PricesOf | app/services/statistics.py:19 | one price per sample, in input order |
| Series.FirstArgMin | app/services/chart_generator.py:51 | `keys.index(min(keys))` is a valid position whose key is <= every key and < every key before it |
| Series.MinOf | app/services/chart_generator.py:42 | `min` returns an element that is <= every element |
| Series.MaxOf | app/services/statistics.py:26 | `max` returns an element that is >= every element |
| Series.IndexOf | app/services/statistics.py:27 | `index` returns the first position that holds the value |
| DateSort.InsertByDate | app/services/statistics.py:14 | inserting one sample adds exactly that sample to the multiset of samples |
| DateSort.InsertByDateSorted | app/services/statistics.py:14 | inserting into a date-sorted list keeps it sorted |
| DateSort.SortByDate | app/services/statistics.py:14 | the sort returns a permutation of its input sorted by date |
| DateSort.WithDate | app/services/statistics.py:14 | the samples picked for a date all carry that date, and there are no more of them than samples |
| DateSort.WithDateInsert | app/services/statistics.py:14 | an inserted sample goes in front of the samples that share its date |
| DateSort.SortByDateStable | app/services/statistics.py:14 | the sort is stable: for every date, the samples with that date keep their input order |
| DateSort.SortByDateKeepsSorted | app/services/statistics.py:14 | input already in date order (the order the database query returns, app/db/crud.py:14) comes out unchanged |
| Statistics.PositiveSamples | app/services/statistics.py:14 | the filter keeps no more samples than it is given |
| Statistics.InPositiveSamples | app/services/statistics.py:14 | a sample survives the filter exactly when it is in the input with a positive price |
| Statistics.PositiveSamplesCount | app/services/statistics.py:14 | the filter keeps every copy of a positive sample, duplicates included, and no copy of any other |
| Statistics.PositiveSamplesAppend | app/services/statistics.py:14 | the filter keeps input order: filtering a concatenation gives the concatenation of the filtered parts |
| Statistics.PriceDataCount | app/services/statistics.py:14 | `price_data` holds each positive input sample as many times as the input does, and nothing else |
| Statistics.PriceDataEmpty | app/services/statistics.py:14-17 | `price_data` is empty exactly when no input price is positive |
| Statistics.NearestIndex | app/services/statistics.py:41 | `min(..., key=abs(date - target))` picks a sample at the smallest exact distance, strictly closer than every sample before it |
| Statistics.PriceData | app/services/statistics.py:14 | `price_data` is as long as the filter's output (that it holds every copy of each positive input sample is `PriceDataCount`) |
| Statistics.Mean | app/services/statistics.py:31 | `np.mean` lies between the smallest and the largest value |
| Statistics.MovingAverage | app/services/statistics.py:34-35 | a moving average is present exactly when there are at least `window` values, and then lies between the smallest and the largest of the last `window` values |
| Statistics.NearestSample | app/services/statistics.py:41 | the sample `min` picks is a data sample whose date is no farther from the target than any other, and every earlier sample is strictly farther, so a tie goes to the first |
| Statistics.Performance | app/services/statistics.py:38-46 | the performance is absent exactly when the nearest sample's price is not positive |
| Statistics.StatsOf | app/services/statistics.py:19-61 | the record's latest price and date are the last sorted sample; the ATH is a data sample with no larger price in the data; `days_since_ath` is the whole days between the ATH and the latest date; the mean is the mean of the prices and at most the ATH; each moving average is present exactly when there are at least 50 or 200 samples; the performance is that of the data over 365 days; the change from a positive ATH is the percent change from the ATH to the latest price |
| Statistics.AverageBounds | app/services/statistics.py:31 | the total divided by the count lies between any bounds of the values |
| Statistics.AverageWithin | app/services/statistics.py:31 | the total divided by the count lies between the smallest and the largest value |
| Statistics.PriceDataConstant | app/services/statistics.py:14 | when every input price is the same, so is every price the statistics use |
| Statistics.ConstantMeans | app/services/statistics.py:31-35 | the mean of a constant list, and of its last 50 or 200 values, is that constant |
| Statistics.CalculateStatistics | app/services/statistics.py:6-61 | the result is empty exactly when there are fewer than two samples or no positive price; otherwise it is the record of the sorted positive samples |
| Statistics.SumBounds | app/services/statistics.py:31 | a sum of values between lo and hi lies between n*lo and n*hi |
| Statistics.DivideBounds | app/services/statistics.py:31 | dividing a total between n*lo and n*hi by n gives a value between lo and hi |
| Statistics.MeanBounds | app/services/statistics.py:31 | the mean of values between lo and hi lies between lo and hi |
| Statistics.MeanOfConstant | app/services/statistics.py:31 | the mean of a constant list is that constant |
| Statistics.InPriceData | app/services/statistics.py:14 | a sample is in `price_data` exactly when it is in the input with a positive price |
| Statistics.PriceDataPositive | app/services/statistics.py:14 | every price in `price_data` is positive |
| Statistics.WithDateLast | app/services/statistics.py:22-23 | the last sample of a list is the last one of its date |
| Statistics.ComputedFromPriceData | app/services/statistics.py:14-19 | a computed record comes from non-empty, date-sorted, positive data |
| Statistics.StatsOfLatest | app/services/statistics.py:22-23 | the latest price and date are those of the last sorted sample, and no sample is later |
| Statistics.StatsOfAth | app/services/statistics.py:26-28 | the ATH is a positive data sample with the largest price, dated at the earliest sample with that price, and never after the latest date |
| Statistics.WindowMeanBounds | app/services/statistics.py:31-35 | the mean of any tail of the sorted prices is positive and at most the ATH |
| Statistics.MovingAverageFacts | app/services/statistics.py:34-35 | a moving average is present exactly when there are at least `window` samples; it is then the mean of the last `window` sorted prices and lies in (0, ATH] |
| Statistics.PercentChange | app/services/statistics.py:44-48 | from a positive base, the percent change is positive exactly when the price rose and zero exactly when it stayed the same; between two positive prices it is above -100 |
| Statistics.PerformanceFacts | app/services/statistics.py:38-46 | with positive data the performance is present and is the percent change from the first nearest sample to the latest price |
| Statistics.StatsOfPerformance | app/services/statistics.py:38-46 | the record's `performance_365d` is the percent change from the first sorted sample nearest to one year before the latest, and is above -100 |
| Statistics.StatsOfChange | app/services/statistics.py:48 | the change from the ATH is the percent change from the ATH to the latest price, lies in (-100, 0], and is 0 exactly when the latest price is the ATH |
| Statistics.LatestSample | app/services/statistics.py:22-23 | the latest price and date belong to a positive input sample, and no positive input sample is later |
| Statistics.LatestIsLastAtItsDate | app/services/statistics.py:14-23 | among positive samples that share the latest date, the reported one is the last in input order, because the sort is stable |
| Statistics.LatestIsLastSorted | app/services/statistics.py:14-23 | the reported latest sample is the last of the sorted positive samples |
| Statistics.LastOfSortedAtItsDate | app/services/statistics.py:14-23 | the last sorted sample is the last in input order among the samples of its date |
| Statistics.AthIsFirstMaximum | app/services/statistics.py:26-28 | the ATH is a positive input sample with the largest positive price, dated no later than any sample with that price and no later than the latest sample; `days_since_ath` is the whole days from the ATH date to the latest date, so it is >= 0 |
| Statistics.Averages | app/services/statistics.py:31-35 | the mean is the mean of the sorted positive prices and lies in (0, ATH]; `sma_50` and `sma_200` are present exactly when there are at least 50 and 200 positive samples, and are then the mean of the last 50 and 200 sorted prices, in (0, ATH] |
| Statistics.NearestPositiveSample | app/services/statistics.py:40-42 | the nearest sample is a positive input sample no farther from the target than any other positive sample |
| Statistics.PerformanceAlwaysPresent | app/services/statistics.py:38-46 | `performance_365d` is always present (the `past_price > 0` test always passes), equals the percent change from a positive input sample to the latest price, and is above -100 |
| Statistics.ChangeFromAthBounds | app/services/statistics.py:48 | the `ath_price > 0` test always passes; the change from the ATH lies in (-100, 0] and is 0 exactly when the latest price is the ATH |
| Statistics.OnlyPositive | app/services/statistics.py:14 | when only one sample has a positive price, the filter keeps exactly that sample |
| Statistics.NonePositive | app/services/statistics.py:14 | when no price is positive, the filter keeps nothing |
| Statistics.StatsOfSingle | app/services/statistics.py:19-61 | the record of one sample: that sample is both the latest and the ATH, the mean is its price, there are no moving averages, and the performance and the change from the ATH are 0 |
| Statistics.SinglePositiveSample | app/services/statistics.py:10-61 | two or more samples of which exactly one is positive give the full single-sample record |
| Statistics.AllPositive | app/services/statistics.py:14 | when every price is positive, the filter keeps the input as it is |
| Statistics.ConstantPrice | app/services/statistics.py:22-48 | at a constant positive price every reported price is that price, the ATH is dated at the earliest sample, a moving average is present exactly from 50 or 200 samples on and equals the price, and the performance and the change from the ATH are 0 |
| Statistics.ConstantWindows | app/services/statistics.py:31-35 | at a constant price the mean and the moving averages equal that price |
| Statistics.ThreeSamplesData | app/services/statistics.py:14 | three positive samples in date order are the sorted data as they are |
| Statistics.ThreeSamplesStats | app/services/statistics.py:22-48 | the record of 100, 200 and 50 on three consecutive New Year's days has ATH 200, latest 50, change from the ATH -75, 365 days since the ATH and performance -75 |
| Statistics.ThreeSamples | app/services/statistics.py:6-61 | `calculate_statistics` on those three samples gives that record |
| SpiralChart.ClampedPrices | app/services/chart_generator.py:38-39 | one clamped price per sample, in input order, always positive: the price when it is positive, otherwise 0.01 |
| SpiralChart.StartDate | app/services/chart_generator.py:42 | `start_date` is the earliest date of the input, wherever it sits in the list |
| SpiralChart.DayOffsets | app/services/chart_generator.py:44 | one day offset per sample: the whole days from the earliest date to that sample's date, never negative |
| SpiralChart.EarliestOffsetZero | app/services/chart_generator.py:42-44 | a sample that carries the earliest date has offset 0 |
| SpiralChart.SortedOffsetsNonDecreasing | app/services/chart_generator.py:42-44 | for input sorted by date, the offsets never decrease |
| SpiralChart.Angle | app/services/chart_generator.py:46 | the angle is offset * 360 / 1461 degrees, and is non-negative exactly when the offset is |
| SpiralChart.AngleNotWrapped | app/services/chart_generator.py:46 | the angle grows by a full 360 degrees every 1461 days; it is not reduced modulo 360 and is never negative for a non-negative offset |
| SpiralChart.Angles | app/services/chart_generator.py:46 | one angle per sample, the `Angle` of that sample's day offset, never negative |
| SpiralChart.SortedAnglesNonDecreasing | app/services/chart_generator.py:44-46 | for input sorted by date, the angles never decrease |
| SpiralChart.DayDistance | app/services/chart_generator.py:50 | the day distance is 0 exactly when the date lies in the 24 hours that start at the reference |
| SpiralChart.WithinOneDay | app/services/chart_generator.py:50-52 | the tolerance "at most 1 whole day" accepts exactly the dates from one day before the reference up to, but excluding, two days after it |
| SpiralChart.DayDistances | app/services/chart_generator.py:50 | `date_differences` has one day distance per sample |
| SpiralChart.NearestByDays | app/services/chart_generator.py:50-51 | `min_diff_index` is a sample at the smallest day distance, strictly closer than every sample before it |
| SpiralChart.MatchOne | app/services/chart_generator.py:50-57 | a match is a valid sample position within one day of the reference |
| SpiralChart.MatchOneFacts | app/services/chart_generator.py:50-57 | a reference is matched exactly when some sample lies within one day of it, and then to the first nearest sample |
| SpiralChart.Outcomes | app/services/chart_generator.py:49-52 | one matching outcome per reference |
| SpiralChart.Hits | app/services/chart_generator.py:48-57 | every hit built from the first n references has a reference position below n |
| SpiralChart.HitsStep | app/services/chart_generator.py:52-57 | one more iteration appends that reference's hit, if any |
| SpiralChart.MatchReferences | app/services/chart_generator.py:48-68 | the halving loop and the event loop build exactly the hit list `Hits` |
| SpiralChart.HitsSound | app/services/chart_generator.py:48-57 | each hit carries its reference's outcome, and hits follow the reference order, each reference at most once |
| SpiralChart.HitsComplete | app/services/chart_generator.py:52-57 | a reference has a hit exactly when its outcome is a match |
| SpiralChart.HalvingMarkersOf | app/services/chart_generator.py:53-57 | one marker per hit, on the hit's sample, numbered 1 to 4 and carrying the date of the halving with that number |
| SpiralChart.EventMarkersOf | app/services/chart_generator.py:64-68 | one marker per hit, on the hit's sample, carrying the name and date of a listed event |
| SpiralChart.HalvingMarkers | app/services/chart_generator.py:48-57 | `halving_indices` holds at most four markers, each numbered 1 to 4 and carrying the date of the halving with that number (that the numbers strictly increase, so no halving is marked twice, is `HalvingMarkersMatched`) |
| SpiralChart.EventMarkers | app/services/chart_generator.py:59-68 | `event_indices` holds at most seven markers, each carrying a listed event's name and date (that the dates strictly increase, so no event is marked twice, is `EventMarkersMatched`) |
| SpiralChart.EventDates | app/services/chart_generator.py:28-36 | the event dates, one per event, in list order |
| SpiralChart.FirstIndex | app/services/chart_generator.py:77-80 | the scan finds a position exactly when the sample occurs; the position holds it and no earlier one does |
| SpiralChart.AthIndexOf | app/services/chart_generator.py:70-80 | a found ATH index points at the input sample whose date and price are the ATH of a computed statistics record, and no earlier position holds that sample |
| SpiralChart.FindAthIndex | app/services/chart_generator.py:70-80 | the guard on the statistics record followed by the scan computes `AthIndexOf` |
| SpiralChart.ScanForSample | app/services/chart_generator.py:76-80 | the loop with `break` finds the first position holding the sample, or nothing when there is none |
| SpiralChart.AthIndexFound | app/services/chart_generator.py:71-80 | the ATH marker is found exactly when there are at least two samples and one positive price; it then sits on the input sample equal to the reported ATH, whose price is the largest |
| SpiralChart.MaxClamped | app/services/chart_generator.py:83 | `price_for_log.max()` is one of the clamped prices and at least every other, so it is positive and at least every input price |
| SpiralChart.RadialTicks | app/services/chart_generator.py:83 | `r_ticks` is a prefix of the candidate ticks, each at most 1.5 times the largest clamped price |
| SpiralChart.TicksUpTo | app/services/chart_generator.py:83 | the filter keeps no more ticks than it is given |
| SpiralChart.TicksUpToPrefix | app/services/chart_generator.py:83-84 | from an ascending list the kept ticks are a prefix, and a tick is kept exactly when it is not above the limit |
| SpiralChart.DigitChar | app/services/chart_generator.py:84 | a digit value becomes a decimal digit character |
| SpiralChart.Decimal | app/services/chart_generator.py:84 | the plain decimal rendering is a non-empty string of digits |
| SpiralChart.Grouped | app/services/chart_generator.py:84 | `f"{v:,}"` is a non-empty string of digits and commas that starts with a digit |
| SpiralChart.RadialTickLabels | app/services/chart_generator.py:84 | `r_tick_labels` has as many labels as radial ticks (at most seven), and they are the formatted first candidates |
| SpiralChart.UsdTicksFormatted | app/services/chart_generator.py:84 | `f"{v:,}"` renders the seven candidate ticks as 1, 10, 100, 1,000, 10,000, 100,000 and 1,000,000 |
| SpiralChart.RadialTickLabelsRead | app/services/chart_generator.py:84 | the labels are the formatted first candidates, as many as there are ticks |
| SpiralChart.RadialTicksKept | app/services/chart_generator.py:83 | a candidate is kept exactly when it is at most 1.5 times the largest clamped price; no tick is kept exactly when that bound is below 1 |
| SpiralChart.RadialTicksFacts | app/services/chart_generator.py:82-84 | the radial ticks are a prefix of the candidates; each label is its tick formatted; a candidate is kept exactly when it is at most 1.5 times the largest clamped price; the list is empty exactly when that bound is below 1 |
| SpiralChart.GeometryOf | app/services/chart_generator.py:12-87 | the radii are the clamped prices, the angles those of the day offsets, the markers the halving and event markers, the ATH index `AthIndexOf` and the radial ticks `RadialTicks`; one radius and one angle per sample; at most four halving and seven event markers; an ATH index exactly when some price is positive, and then a valid position; the radial ticks are a prefix of the candidates and the labels are those ticks formatted; the angular ticks are always 0, 90, 180 and 270 with the labels 2025, 2022, 2023 and 2024 |
| SpiralChart.CreateSpiralChart | app/services/chart_generator.py:10-87 | no samples give the "No data available" sentinel, one sample gives "Insufficient data for chart", and otherwise the result is the chart geometry of the input (`GeometryOf`) |
| SpiralChart.HalvingMarkersMatched | app/services/chart_generator.py:48-57 | every halving marker is numbered 1 to 4, carries that halving's date, and sits on the first nearest sample within one day of it; the numbers increase along the markers |
| SpiralChart.HalvingMarkersOfEntries | app/services/chart_generator.py:53-57 | each halving marker carries its hit's sample index, the halving date at the hit's list position, and that position plus one as its number; the numbers increase along the markers |
| SpiralChart.SampleHitsMatched | app/services/chart_generator.py:48-68 | every hit sits on the first nearest sample within one day of its reference, in reference order |
| SpiralChart.MatchedIff | app/services/chart_generator.py:50-57 | a reference gets a hit exactly when some date lies within one day of it |
| SpiralChart.HalvingMarkedIff | app/services/chart_generator.py:48-57 | a halving is marked exactly when some sample lies within one day of it |
| SpiralChart.HalvingNumbers | app/services/chart_generator.py:53-57 | a marker numbered j+1 exists exactly when the halving at position j has a hit |
| SpiralChart.SampleMatchedIff | app/services/chart_generator.py:50-57 | over the samples, a reference gets a hit exactly when some sample lies within one day of it |
| SpiralChart.SampleWithinIff | app/services/chart_generator.py:50 | a sample lies within one day exactly when its date does |
| SpiralChart.EventMarkersMatched | app/services/chart_generator.py:59-68 | every event marker carries the name and date of a listed event and sits on the first nearest sample within one day of it; markers follow the event list, which is in date order |
| SpiralChart.EventMarkersOfEntries | app/services/chart_generator.py:59-68 | event markers carry their event's entry and keep the order of the list |
| SpiralChart.EventDatesAscending | app/services/chart_generator.py:28-36 | the events are listed in date order |
| SpiralChart.EventMarkedIff | app/services/chart_generator.py:59-68 | an event is marked exactly when some sample lies within one day of it |
| SpiralChart.EventNames | app/services/chart_generator.py:64-68 | a marker with an event's name exists exactly when that event has a hit |

## Left out

- Figure building with plotly, `to_html`, and the embedded CSS and JavaScript (app/services/chart_generator.py:89-300): presentation through a library that is not part of this model.
- The hover texts and marker names built with `strftime` and number formatting: presentation only.
- `np.log10`: the radius is kept as the clamped price that the logarithm is taken of, and radial ticks are kept as dollar values rather than their logarithms.
- Floating point: prices, means and angles are exact reals. Rounding in `np.mean`, in the division by 1461 and in percent changes is not modelled.
- The catch-all exception handler that returns an error page (app/services/chart_generator.py:301-303). The exceptions that lead there are not modelled. These are a `TypeError` from comparing time-zone-aware stored dates with the naive halving and event dates, and the `OverflowError` described next. Time zones are not modelled: every date is one integer timeline.
- The `datetime` range, years 1 to 9999, is not modelled. `Time` is an unbounded integer. When the latest positive sample lies within 365 days of 0001-01-01, `latest_date - timedelta(days=365)` raises `OverflowError` (app/services/statistics.py:40), and inside the chart that becomes the error page (app/services/chart_generator.py:71, 301-303). The model instead returns a full record and a chart.
- `end_date` (app/services/chart_generator.py:43) is computed but never used, so it is not modelled.
- Statistics.PositiveSamples: its own contract only bounds the length. What it keeps is stated by lemmas instead. Statistics.InPositiveSamples says which samples survive. Statistics.PositiveSamplesCount says how many copies survive. Statistics.PositiveSamplesAppend says that input order is kept.
- The web layer is not part of this model: app/api/endpoints/main_page.py, app/api/endpoints/meta.py, app/core/security.py, app/main.py and app/core/config.py.
- Database access is not part of this model (app/db/crud.py, app/db/session.py). The ascending date order of the query (app/db/crud.py:14) appears only as a precondition: of `DateSort.SortByDateKeepsSorted` and of the offset and angle monotonicity lemmas.
- The browser code in app/static/js/main.js is not part of this model.
