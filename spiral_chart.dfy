/**
 * The geometry behind the logarithmic spiral chart
 * (`create_logarithmic_spiral_chart`): the two early sentinels, the price
 * that feeds the logarithmic radius, the angle of every sample (a full
 * turn every 1461 days), the halving and event markers matched to the
 * nearest sample, the all-time-high marker found through the statistics
 * engine, and the tick values and labels of both axes.
 *
 * Unlike the statistics engine, the chart works on the samples exactly as
 * given: every sample is drawn, in input order, whatever its price.
 */
module SpiralChart {
  import opened Series
  import opened DateSort
  import opened Statistics

  // ---------------------------------------------------------------------
  // Fixed reference data

  /** The four halvings, at midnight of their day. */
  const HalvingDates: seq<Time> :=
    [DaysSpan(15672), DaysSpan(16991), DaysSpan(18393), DaysSpan(19833)]

  datatype HistoricalEvent = HistoricalEvent(date: Time, name: string)

  /** The seven historical events, at midnight of their day, in the order they are listed. */
  const HistoricalEvents: seq<HistoricalEvent> := [
    HistoricalEvent(DaysSpan(14751), "Bitcoin Pizza Day"),
    HistoricalEvent(DaysSpan(14955), "Satoshi Nakamoto Disappearance"),
    HistoricalEvent(DaysSpan(16129), "Mt. Gox crash"),
    HistoricalEvent(DaysSpan(17379), "Bitcoin Cash hard fork"),
    HistoricalEvent(DaysSpan(19121), "The Fall of Terra"),
    HistoricalEvent(DaysSpan(19306), "FTX collapse"),
    HistoricalEvent(DaysSpan(19732), "ETF Bitcoin approval")
  ]

  /** The price drawn for a sample whose price is zero or negative. */
  const Epsilon: real := 0.01

  /** The candidate radial ticks, in US dollars. */
  const UsdTicks: seq<int> := [1, 10, 100, 1_000, 10_000, 100_000, 1_000_000]

  /** How the candidate radial ticks read once formatted, one per entry of UsdTicks. */
  const UsdTickLabels: seq<string> := ["1", "10", "100", "1,000", "10,000", "100,000", "1,000,000"]

  const YearAngles: seq<int> := [0, 90, 180, 270]
  const YearTickLabels: seq<string> := ["2025", "2022", "2023", "2024"]

  // ---------------------------------------------------------------------
  // Radius input: the clamped prices

  /** `price_for_log`: one value per sample, in input order; non-positive prices become Epsilon. */
  function ClampedPrices(prices: seq<Sample>): (r: seq<real>)
    ensures |r| == |prices|
    ensures forall i :: 0 <= i < |prices| ==> r[i] > 0.0
    ensures forall i :: 0 <= i < |prices| && prices[i].price > 0.0 ==> r[i] == prices[i].price
    ensures forall i :: 0 <= i < |prices| && prices[i].price <= 0.0 ==> r[i] == Epsilon
  {
    seq(|prices|, i requires 0 <= i < |prices| => if prices[i].price > 0.0 then prices[i].price else Epsilon)
  }

  // ---------------------------------------------------------------------
  // Day offsets and angles

  /** `start_date`: the earliest date of the input, wherever it sits in the list. */
  function StartDate(prices: seq<Sample>): (m: Time)
    requires |prices| > 0
    ensures exists i :: 0 <= i < |prices| && prices[i].date == m
    ensures forall i :: 0 <= i < |prices| ==> m <= prices[i].date
  {
    MinOf(DatesOf(prices))
  }

  /** `days_since_start`: the whole days from the start date to each sample's date. */
  function DayOffsets(prices: seq<Sample>): (r: seq<int>)
    requires |prices| > 0
    ensures |r| == |prices|
    ensures forall i :: 0 <= i < |prices| ==> r[i] >= 0
    ensures forall i :: 0 <= i < |prices| ==> r[i] == Days(prices[i].date - StartDate(prices))
  {
    var start := StartDate(prices);
    seq(|prices|, i requires 0 <= i < |prices| => Days(prices[i].date - start))
  }

  /** The offsets are taken from the earliest date: a sample carrying it sits at offset 0. */
  lemma EarliestOffsetZero(prices: seq<Sample>, i: nat)
    requires i < |prices| && forall j :: 0 <= j < |prices| ==> prices[i].date <= prices[j].date
    ensures DayOffsets(prices)[i] == 0
  {
    var start := StartDate(prices);
    var w :| 0 <= w < |prices| && prices[w].date == start;
    assert prices[i].date == start;
  }

  /** For input sorted by date, as the database query delivers it, the offsets never decrease. */
  lemma SortedOffsetsNonDecreasing(prices: seq<Sample>)
    requires |prices| > 0 && SortedByDate(prices)
    ensures forall i, j :: 0 <= i <= j < |prices| ==> DayOffsets(prices)[i] <= DayOffsets(prices)[j]
  {
    var start := StartDate(prices);
    forall i, j | 0 <= i <= j < |prices|
      ensures DayOffsets(prices)[i] <= DayOffsets(prices)[j]
    {
      DaysMonotone(prices[i].date - start, prices[j].date - start);
    }
  }

  /** `theta`: the angle in degrees for a day offset, a full turn every 1461 days. */
  function Angle(offset: int): (a: real)
    ensures a * 1461.0 == (offset as real) * 360.0
    ensures a >= 0.0 <==> offset >= 0
  {
    (offset as real) * (360.0 / 1461.0)
  }

  /**
   * The angle is not reduced modulo 360: one 1461-day cycle later the
   * angle is a full turn larger, and it grows with the offset.
   */
  lemma AngleNotWrapped(offset: int)
    ensures Angle(offset + 1461) == Angle(offset) + 360.0
    ensures offset >= 0 ==> Angle(offset) >= 0.0
    ensures offset >= 1461 ==> Angle(offset) >= 360.0
  {
  }

  function Angles(prices: seq<Sample>): (r: seq<real>)
    requires |prices| > 0
    ensures |r| == |prices|
    ensures forall i :: 0 <= i < |prices| ==> r[i] >= 0.0
    ensures forall i :: 0 <= i < |prices| ==> r[i] == Angle(DayOffsets(prices)[i])
  {
    var offsets := DayOffsets(prices);
    seq(|prices|, i requires 0 <= i < |prices| => Angle(offsets[i]))
  }

  /** For input sorted by date the spiral winds one way: the angles never decrease. */
  lemma SortedAnglesNonDecreasing(prices: seq<Sample>)
    requires |prices| > 0 && SortedByDate(prices)
    ensures forall i, j :: 0 <= i <= j < |prices| ==> Angles(prices)[i] <= Angles(prices)[j]
  {
    SortedOffsetsNonDecreasing(prices);
  }

  // ---------------------------------------------------------------------
  // Nearest-sample matching of halvings and events

  /** `abs((d - ref).days)`: the distance in whole days, the day count rounded toward minus infinity first. */
  function DayDistance(d: Time, ref: Time): (r: nat)
    ensures r == 0 <==> ref <= d < ref + DaysSpan(1)
  {
    Abs(Days(d - ref))
  }

  /**
   * The tolerance `<= 1` accepts exactly the dates from one day before
   * the reference up to, but excluding, two days after it: rounding the
   * difference down makes the window lopsided.
   */
  lemma WithinOneDay(d: Time, ref: Time)
    ensures DayDistance(d, ref) <= 1 <==> ref - DaysSpan(1) <= d < ref + DaysSpan(2)
  {
    var k := Days(d - ref);
    assert DaysSpan(k) <= d - ref < DaysSpan(k + 1);
  }

  /** `date_differences`: the day distance of every sample date to the reference. */
  function DayDistances(dates: seq<Time>, ref: Time): (ds: seq<int>)
    ensures |ds| == |dates|
    ensures forall i :: 0 <= i < |dates| ==> ds[i] == DayDistance(dates[i], ref)
  {
    seq(|dates|, i requires 0 <= i < |dates| => DayDistance(dates[i], ref))
  }

  /** `date_differences.index(min(date_differences))`: the first sample at the smallest day distance. */
  function NearestByDays(dates: seq<Time>, ref: Time): (k: nat)
    requires |dates| > 0
    ensures k < |dates|
    ensures forall j :: 0 <= j < |dates| ==> DayDistance(dates[k], ref) <= DayDistance(dates[j], ref)
    ensures forall j :: 0 <= j < k ==> DayDistance(dates[k], ref) < DayDistance(dates[j], ref)
  {
    FirstArgMin(DayDistances(dates, ref))
  }

  /**
   * One iteration of the halving or event loop: the first nearest sample,
   * kept only when it lies within one day of the reference.
   */
  function MatchOne(dates: seq<Time>, ref: Time): (r: Option<nat>)
    requires |dates| > 0
    ensures r.Some? ==> r.value < |dates| && DayDistance(dates[r.value], ref) <= 1
  {
    var k := NearestByDays(dates, ref);
    if DayDistance(dates[k], ref) <= 1 then Some(k) else None
  }

  /** A reference is matched exactly when some sample lies within one day of it, and then to the first nearest sample. */
  lemma MatchOneFacts(dates: seq<Time>, ref: Time)
    requires |dates| > 0
    ensures MatchOne(dates, ref).Some? <==> exists i :: 0 <= i < |dates| && DayDistance(dates[i], ref) <= 1
    ensures MatchOne(dates, ref).Some? ==>
      && MatchOne(dates, ref).value == NearestByDays(dates, ref)
      && DayDistance(dates[MatchOne(dates, ref).value], ref) <= 1
  {
    var k := NearestByDays(dates, ref);
    if i :| 0 <= i < |dates| && DayDistance(dates[i], ref) <= 1 {
      assert DayDistance(dates[k], ref) <= DayDistance(dates[i], ref);
    }
  }

  /** The outcome of matching each reference on its own. */
  function Outcomes(dates: seq<Time>, refs: seq<Time>): (os: seq<Option<nat>>)
    requires |dates| > 0
    ensures |os| == |refs|
    ensures forall j :: 0 <= j < |refs| ==> os[j] == MatchOne(dates, refs[j])
  {
    seq(|refs|, j requires 0 <= j < |refs| => MatchOne(dates, refs[j]))
  }

  /** A matched reference: the sample index and the reference's position in its fixed list. */
  datatype Hit = Hit(index: nat, refPos: nat)

  /** The list the matching loop has built after its first `n` references. */
  function Hits(outcomes: seq<Option<nat>>, n: nat): (hs: seq<Hit>)
    requires n <= |outcomes|
    ensures |hs| <= n
    ensures forall m :: 0 <= m < |hs| ==> hs[m].refPos < n
  {
    if n == 0 then []
    else
      Hits(outcomes, n - 1)
        + (if outcomes[n - 1].Some? then [Hit(outcomes[n - 1].value, n - 1)] else [])
  }

  /** One more reference extends the list by its hit, if any. */
  lemma HitsStep(outcomes: seq<Option<nat>>, j: nat)
    requires j < |outcomes|
    ensures Hits(outcomes, j + 1) ==
      Hits(outcomes, j) + (if outcomes[j].Some? then [Hit(outcomes[j].value, j)] else [])
  {
  }

  /** The halving loop and the event loop: each reference is matched on its own, in list order. */
  method MatchReferences(dates: seq<Time>, refs: seq<Time>) returns (hits: seq<Hit>)
    requires |dates| > 0
    ensures hits == Hits(Outcomes(dates, refs), |refs|)
  {
    ghost var outcomes := Outcomes(dates, refs);
    hits := [];
    for j := 0 to |refs|
      invariant hits == Hits(outcomes, j)
    {
      var outcome := MatchOne(dates, refs[j]);
      HitsStep(outcomes, j);
      if outcome.Some? {
        hits := hits + [Hit(outcome.value, j)];
      }
    }
  }

  /** Every hit carries its reference's outcome, and hits come in the order of the reference list, each reference at most once. */
  lemma {:induction false} HitsSound(outcomes: seq<Option<nat>>, n: nat)
    requires n <= |outcomes|
    ensures forall m :: 0 <= m < |Hits(outcomes, n)| ==>
      outcomes[Hits(outcomes, n)[m].refPos] == Some(Hits(outcomes, n)[m].index)
    ensures forall a, b :: 0 <= a < b < |Hits(outcomes, n)| ==>
      Hits(outcomes, n)[a].refPos < Hits(outcomes, n)[b].refPos
  {
    if n > 0 {
      HitsSound(outcomes, n - 1);
      HitsStep(outcomes, n - 1);
      var prev := Hits(outcomes, n - 1);
      var hs := Hits(outcomes, n);
      forall m | 0 <= m < |hs|
        ensures outcomes[hs[m].refPos] == Some(hs[m].index)
      {
        if m < |prev| {
          assert hs[m] == prev[m];
        }
      }
      forall a, b | 0 <= a < b < |hs|
        ensures hs[a].refPos < hs[b].refPos
      {
        assert hs[a] == prev[a];
        if b < |prev| {
          assert hs[b] == prev[b];
        }
      }
    }
  }

  /** A reference has a hit exactly when its outcome is a match. */
  lemma {:induction false} HitsComplete(outcomes: seq<Option<nat>>, n: nat, j: nat)
    requires j < n <= |outcomes|
    ensures (exists m :: 0 <= m < |Hits(outcomes, n)| && Hits(outcomes, n)[m].refPos == j)
      <==> outcomes[j].Some?
  {
    var prev := Hits(outcomes, n - 1);
    var hs := Hits(outcomes, n);
    HitsStep(outcomes, n - 1);
    if j == n - 1 {
      if m :| 0 <= m < |hs| && hs[m].refPos == j {
        if m < |prev| {
          assert false;
        }
      }
      if outcomes[j].Some? {
        assert hs[|prev|].refPos == j;
      }
    } else {
      HitsComplete(outcomes, n - 1, j);
      if m :| 0 <= m < |hs| && hs[m].refPos == j {
        assert m < |prev| && prev[m] == hs[m];
      }
      if m :| 0 <= m < |prev| && prev[m].refPos == j {
        assert hs[m] == prev[m];
        assert 0 <= m < |hs| && hs[m].refPos == j;
      }
    }
  }

  // ---------------------------------------------------------------------
  // Markers

  datatype HalvingMarker = HalvingMarker(index: nat, date: Time, number: nat)
  datatype EventMarker = EventMarker(index: nat, name: string, date: Time)

  /** One marker per hit, on the hit's sample, numbered after the halving's position. */
  function HalvingMarkersOf(hits: seq<Hit>): (hs: seq<HalvingMarker>)
    requires forall m :: 0 <= m < |hits| ==> hits[m].refPos < |HalvingDates|
    ensures |hs| == |hits|
    ensures forall m :: 0 <= m < |hs| ==>
      && hs[m].index == hits[m].index
      && 1 <= hs[m].number <= |HalvingDates|
      && hs[m].date == HalvingDates[hs[m].number - 1]
  {
    seq(|hits|, m requires 0 <= m < |hits| =>
      HalvingMarker(hits[m].index, HalvingDates[hits[m].refPos], hits[m].refPos + 1))
  }

  /** One marker per hit, on the hit's sample, carrying the listed event's name and date. */
  function EventMarkersOf(hits: seq<Hit>): (es: seq<EventMarker>)
    requires forall m :: 0 <= m < |hits| ==> hits[m].refPos < |HistoricalEvents|
    ensures |es| == |hits|
    ensures forall m :: 0 <= m < |es| ==>
      es[m].index == hits[m].index && HistoricalEvent(es[m].date, es[m].name) in HistoricalEvents
  {
    seq(|hits|, m requires 0 <= m < |hits| =>
      EventMarker(hits[m].index, HistoricalEvents[hits[m].refPos].name, HistoricalEvents[hits[m].refPos].date))
  }

  /** `halving_indices`: at most one marker per halving. */
  function HalvingMarkers(prices: seq<Sample>): (hs: seq<HalvingMarker>)
    requires |prices| > 0
    ensures |hs| <= |HalvingDates|
    ensures forall m :: 0 <= m < |hs| ==>
      1 <= hs[m].number <= |HalvingDates| && hs[m].date == HalvingDates[hs[m].number - 1]
  {
    HalvingMarkersOf(Hits(Outcomes(DatesOf(prices), HalvingDates), |HalvingDates|))
  }

  /** `event_indices`: at most one marker per listed event. */
  function EventMarkers(prices: seq<Sample>): (es: seq<EventMarker>)
    requires |prices| > 0
    ensures |es| <= |HistoricalEvents|
    ensures forall m :: 0 <= m < |es| ==> HistoricalEvent(es[m].date, es[m].name) in HistoricalEvents
  {
    EventMarkersOf(Hits(Outcomes(DatesOf(prices), EventDates()), |HistoricalEvents|))
  }

  function EventDates(): (ds: seq<Time>)
    ensures |ds| == |HistoricalEvents|
    ensures forall j :: 0 <= j < |HistoricalEvents| ==> ds[j] == HistoricalEvents[j].date
  {
    seq(|HistoricalEvents|, j requires 0 <= j < |HistoricalEvents| => HistoricalEvents[j].date)
  }

  // ---------------------------------------------------------------------
  // The all-time-high marker

  /** The first position holding `x`, or None. */
  function FirstIndex(xs: seq<Sample>, x: Sample): (r: Option<nat>)
    ensures r.Some? <==> x in xs
    ensures r.Some? ==> r.value < |xs| && xs[r.value] == x
    ensures r.Some? ==> forall j :: 0 <= j < r.value ==> xs[j] != x
  {
    if xs == [] then None
    else if xs[0] == x then Some(0)
    else
      match FirstIndex(xs[1..], x)
      case None => None
      case Some(i) => Some(i + 1)
  }

  /**
   * `ath_index`: the first input position whose date and price both equal
   * those the statistics engine reports for the ATH; None when the engine
   * reports nothing (or a zero ATH price, which it never does).
   */
  function AthIndexOf(prices: seq<Sample>): (r: Option<nat>)
    ensures r.Some? ==>
      && CalculateStatistics(prices).Computed?
      && r.value < |prices|
      && prices[r.value] == Sample(CalculateStatistics(prices).stats.athDate, CalculateStatistics(prices).stats.athPrice)
    ensures r.Some? ==> forall j :: 0 <= j < r.value ==> prices[j] != prices[r.value]
  {
    match CalculateStatistics(prices)
    case NoStats => None
    case Computed(s) => if s.athPrice != 0.0 then FirstIndex(prices, Sample(s.athDate, s.athPrice)) else None
  }

  /** The guard on the statistics engine's ATH, then the scan for its sample. */
  method FindAthIndex(prices: seq<Sample>) returns (athIndex: Option<nat>)
    ensures athIndex == AthIndexOf(prices)
  {
    var stats := CalculateStatistics(prices);
    athIndex := None;
    if stats.Computed? && stats.stats.athPrice != 0.0 {
      athIndex := ScanForSample(prices, Sample(stats.stats.athDate, stats.stats.athPrice));
    }
  }

  /** The loop with `break` that looks for a sample with the given date and price. */
  method ScanForSample(prices: seq<Sample>, target: Sample) returns (found: Option<nat>)
    ensures found == FirstIndex(prices, target)
  {
    found := None;
    var i := 0;
    while i < |prices|
      invariant 0 <= i <= |prices|
      invariant found == None
      invariant forall j :: 0 <= j < i ==> prices[j] != target
    {
      if prices[i] == target {
        found := Some(i);
        break;
      }
      i := i + 1;
    }
    if found == None {
      assert target !in prices;
    }
  }

  /**
   * The ATH marker is present exactly when the statistics engine produces
   * a record, that is, for at least two samples of which one has a
   * positive price; it then sits on an input sample with the highest
   * positive price.
   */
  lemma AthIndexFound(prices: seq<Sample>)
    ensures AthIndexOf(prices).Some? <==>
      (|prices| >= 2 && exists i :: 0 <= i < |prices| && prices[i].price > 0.0)
    ensures AthIndexOf(prices).Some? ==>
      var i := AthIndexOf(prices).value;
      && CalculateStatistics(prices).Computed?
      && i < |prices|
      && prices[i] == Sample(CalculateStatistics(prices).stats.athDate, CalculateStatistics(prices).stats.athPrice)
      && prices[i].price > 0.0
      && forall j :: 0 <= j < |prices| ==> prices[j].price <= prices[i].price
  {
    var r := CalculateStatistics(prices);
    if r.Computed? {
      AthIsFirstMaximum(prices, r.stats);
    }
  }

  // ---------------------------------------------------------------------
  // Axis ticks

  /** The ticks not above `limit`, in list order. */
  function TicksUpTo(ticks: seq<int>, limit: real): (r: seq<int>)
    ensures |r| <= |ticks|
  {
    if ticks == [] then []
    else (if ticks[0] as real <= limit then [ticks[0]] else []) + TicksUpTo(ticks[1..], limit)
  }

  ghost predicate Ascending(xs: seq<int>)
  {
    forall i, j :: 0 <= i < j < |xs| ==> xs[i] < xs[j]
  }

  /**
   * From an ascending list, the ticks not above a limit form a prefix: a
   * tick is kept exactly when its position is below the count kept.
   */
  lemma {:induction false} TicksUpToPrefix(ticks: seq<int>, limit: real)
    requires Ascending(ticks)
    ensures TicksUpTo(ticks, limit) == ticks[..|TicksUpTo(ticks, limit)|]
    ensures forall i :: 0 <= i < |ticks| ==> (i < |TicksUpTo(ticks, limit)| <==> ticks[i] as real <= limit)
  {
    if ticks != [] {
      var rest := ticks[1..];
      TicksUpToPrefix(rest, limit);
      var n := |TicksUpTo(rest, limit)|;
      if ticks[0] as real <= limit {
        assert TicksUpTo(ticks, limit) == [ticks[0]] + rest[..n];
        assert [ticks[0]] + rest[..n] == ticks[..n + 1];
        forall i | 1 <= i < |ticks|
          ensures i < n + 1 <==> ticks[i] as real <= limit
        {
          assert ticks[i] == rest[i - 1];
        }
      } else {
        forall i | 1 <= i < |ticks|
          ensures ticks[i] as real > limit
        {
          assert ticks[0] < ticks[i];
        }
      }
    }
  }

  /** `price_for_log.max()`. */
  function MaxClamped(prices: seq<Sample>): (m: real)
    requires |prices| > 0
    ensures m > 0.0
    ensures forall i :: 0 <= i < |prices| ==> prices[i].price <= m
    ensures m in ClampedPrices(prices)
    ensures forall i :: 0 <= i < |prices| ==> ClampedPrices(prices)[i] <= m
  {
    MaxOf(ClampedPrices(prices))
  }

  /** `r_ticks`, kept as dollar values: the candidate ticks not above 1.5 times the largest clamped price. */
  function RadialTicks(prices: seq<Sample>): (r: seq<int>)
    requires |prices| > 0
    ensures |r| <= |UsdTicks| && r == UsdTicks[..|r|]
    ensures forall i :: 0 <= i < |r| ==> r[i] as real <= MaxClamped(prices) * 1.5
  {
    assert Ascending(UsdTicks);
    TicksUpToPrefix(UsdTicks, MaxClamped(prices) * 1.5);
    TicksUpTo(UsdTicks, MaxClamped(prices) * 1.5)
  }

  function DigitChar(d: int): (c: char)
    requires 0 <= d < 10
    ensures '0' <= c <= '9'
  {
    "0123456789"[d]
  }

  /** The decimal digits of `n`, without separators. */
  function Decimal(n: nat): (r: string)
    ensures |r| > 0
    ensures forall i :: 0 <= i < |r| ==> '0' <= r[i] <= '9'
  {
    if n < 10 then [DigitChar(n)] else Decimal(n / 10) + [DigitChar(n % 10)]
  }

  function ThreeDigits(n: nat): string
    requires n < 1000
  {
    [DigitChar(n / 100), DigitChar(n / 10 % 10), DigitChar(n % 10)]
  }

  /** `f"{v:,}"`: the decimal digits of `v`, a comma between groups of three. */
  function Grouped(n: nat): (g: string)
    ensures |g| > 0 && '0' <= g[0] <= '9'
    ensures forall i :: 0 <= i < |g| ==> g[i] == ',' || '0' <= g[i] <= '9'
  {
    if n < 1000 then Decimal(n) else Grouped(n / 1000) + "," + ThreeDigits(n % 1000)
  }

  /** The candidate ticks format to the strings the chart shows. */
  lemma UsdTicksFormatted()
    ensures forall i :: 0 <= i < |UsdTicks| ==> Grouped(UsdTicks[i]) == UsdTickLabels[i]
  {
    SmallTicksFormatted();
    LargeTicksFormatted();
  }

  lemma SmallTicksFormatted()
    ensures Grouped(1) == "1" && Grouped(10) == "10" && Grouped(100) == "100"
  {
    assert Grouped(1) == "1";
    assert Grouped(10) == "10";
    assert Grouped(100) == "100";
  }

  lemma LargeTicksFormatted()
    ensures Grouped(1_000) == "1,000" && Grouped(10_000) == "10,000"
    ensures Grouped(100_000) == "100,000" && Grouped(1_000_000) == "1,000,000"
  {
    ThousandsFormatted();
    MillionFormatted();
  }

  lemma ThousandsFormatted()
    ensures Grouped(1_000) == "1,000" && Grouped(10_000) == "10,000" && Grouped(100_000) == "100,000"
  {
    assert ThreeDigits(0) == "000";
    assert Grouped(1) == "1" && Grouped(10) == "10" && Grouped(100) == "100";
  }

  lemma MillionFormatted()
    ensures Grouped(1_000_000) == "1,000,000"
  {
    assert ThreeDigits(0) == "000";
    assert Grouped(1) == "1";
    assert Grouped(1_000) == "1,000";
  }

  /** `r_tick_labels`: the formatted candidates whose position is below the number of radial ticks. */
  function RadialTickLabels(count: nat): (r: seq<string>)
    ensures |r| == if count <= |UsdTicks| then count else |UsdTicks|
    ensures r == UsdTickLabels[..|r|]
  {
    UsdTicksFormatted();
    var n := if count <= |UsdTicks| then count else |UsdTicks|;
    seq(n, i requires 0 <= i < n => Grouped(UsdTicks[i]))
  }

  /**
   * The radial ticks are the first candidates, each label belongs to the
   * tick at its position, and no tick is left when 1.5 times the largest
   * clamped price is below one dollar.
   */
  lemma RadialTicksFacts(prices: seq<Sample>)
    requires |prices| > 0
    ensures var ticks := RadialTicks(prices);
      && ticks == UsdTicks[..|ticks|]
      && |RadialTickLabels(|ticks|)| == |ticks|
      && (forall i :: 0 <= i < |ticks| ==> RadialTickLabels(|ticks|)[i] == Grouped(ticks[i]))
      && RadialTickLabels(|ticks|) == UsdTickLabels[..|ticks|]
      && (forall i :: 0 <= i < |UsdTicks| ==> (UsdTicks[i] in ticks <==> UsdTicks[i] as real <= MaxClamped(prices) * 1.5))
      && (ticks == [] <==> MaxClamped(prices) * 1.5 < 1.0)
  {
    RadialTicksKept(prices);
    RadialTickLabelsRead(|RadialTicks(prices)|);
  }

  /** A candidate is kept exactly when it is at most 1.5 times the largest clamped price. */
  lemma RadialTicksKept(prices: seq<Sample>)
    requires |prices| > 0
    ensures var ticks := RadialTicks(prices);
      && (forall i :: 0 <= i < |UsdTicks| ==> (UsdTicks[i] in ticks <==> UsdTicks[i] as real <= MaxClamped(prices) * 1.5))
      && (ticks == [] <==> MaxClamped(prices) * 1.5 < 1.0)
  {
    var limit := MaxClamped(prices) * 1.5;
    assert Ascending(UsdTicks);
    TicksUpToPrefix(UsdTicks, limit);
    var ticks := RadialTicks(prices);
    forall i | 0 <= i < |UsdTicks|
      ensures UsdTicks[i] in ticks <==> UsdTicks[i] as real <= limit
    {
      if UsdTicks[i] in ticks {
        var w :| 0 <= w < |ticks| && ticks[w] == UsdTicks[i];
        assert UsdTicks[w] == UsdTicks[i];
      }
      if UsdTicks[i] as real <= limit {
        assert ticks[i] == UsdTicks[i];
      }
    }
    if ticks != [] {
      assert UsdTicks[0] as real <= limit;
    }
  }

  /** The labels are the formatted first candidates, as many as asked for. */
  lemma RadialTickLabelsRead(count: nat)
    requires count <= |UsdTicks|
    ensures |RadialTickLabels(count)| == count
    ensures forall i :: 0 <= i < count ==> RadialTickLabels(count)[i] == Grouped(UsdTicks[i])
    ensures RadialTickLabels(count) == UsdTickLabels[..count]
  {
    UsdTicksFormatted();
  }

  // ---------------------------------------------------------------------
  // The whole chart

  datatype Geometry = Geometry(
    radii: seq<real>,
    angles: seq<real>,
    halvings: seq<HalvingMarker>,
    events: seq<EventMarker>,
    athIndex: Option<nat>,
    radialTicks: seq<int>,
    radialTickLabels: seq<string>,
    angularTicks: seq<int>,
    angularTickLabels: seq<string>)

  /** The two sentinel pages, or the chart. */
  datatype ChartResult = NoData | InsufficientData | Chart(geometry: Geometry)

  /** The chart geometry of at least two samples. */
  function GeometryOf(prices: seq<Sample>): (g: Geometry)
    requires |prices| >= 2
    ensures |g.radii| == |prices| && |g.angles| == |prices|
    ensures |g.halvings| <= |HalvingDates| && |g.events| <= |HistoricalEvents|
    ensures g.athIndex.Some? <==> exists i :: 0 <= i < |prices| && prices[i].price > 0.0
    ensures g.athIndex.Some? ==> g.athIndex.value < |prices|
    ensures |g.radialTicks| <= |UsdTicks| && g.radialTicks == UsdTicks[..|g.radialTicks|]
    ensures g.radialTickLabels == UsdTickLabels[..|g.radialTicks|]
    ensures g.radii == ClampedPrices(prices) && g.angles == Angles(prices)
    ensures g.halvings == HalvingMarkers(prices) && g.events == EventMarkers(prices)
    ensures g.athIndex == AthIndexOf(prices) && g.radialTicks == RadialTicks(prices)
    ensures g.angularTicks == [0, 90, 180, 270] && g.angularTickLabels == ["2025", "2022", "2023", "2024"]
  {
    AthIndexFound(prices);
    var ticks := RadialTicks(prices);
    Geometry(
      ClampedPrices(prices),
      Angles(prices),
      HalvingMarkers(prices),
      EventMarkers(prices),
      AthIndexOf(prices),
      ticks,
      RadialTickLabels(|ticks|),
      YearAngles,
      YearTickLabels)
  }

  /**
   * `create_logarithmic_spiral_chart` up to the figure: no samples give
   * the "No data available" page, one sample the "Insufficient data"
   * page, and otherwise the geometry is computed.
   */
  method CreateSpiralChart(prices: seq<Sample>) returns (r: ChartResult)
    ensures r == NoData <==> |prices| == 0
    ensures r == InsufficientData <==> |prices| == 1
    ensures r.Chart? ==> |prices| >= 2 && r.geometry == GeometryOf(prices)
  {
    if |prices| == 0 {
      return NoData;
    }
    if |prices| < 2 {
      return InsufficientData;
    }
    var dates := DatesOf(prices);
    var halvingHits := MatchReferences(dates, HalvingDates);
    var eventHits := MatchReferences(dates, EventDates());
    var athIndex := FindAthIndex(prices);
    var ticks := RadialTicks(prices);
    var g := Geometry(
      ClampedPrices(prices),
      Angles(prices),
      HalvingMarkersOf(halvingHits),
      EventMarkersOf(eventHits),
      athIndex,
      ticks,
      RadialTickLabels(|ticks|),
      YearAngles,
      YearTickLabels);
    return Chart(g);
  }

  /**
   * Halving markers: each is the first nearest sample to its halving,
   * within one day; `number` is the halving's position in the list plus
   * one, and numbers increase along the markers.
   */
  lemma HalvingMarkersMatched(prices: seq<Sample>)
    requires |prices| >= 2
    ensures var hs := HalvingMarkers(prices);
      && (forall m :: 0 <= m < |hs| ==>
            && 1 <= hs[m].number <= |HalvingDates|
            && hs[m].date == HalvingDates[hs[m].number - 1]
            && hs[m].index == NearestByDays(DatesOf(prices), hs[m].date)
            && DayDistance(prices[hs[m].index].date, hs[m].date) <= 1)
      && (forall a, b :: 0 <= a < b < |hs| ==> hs[a].number < hs[b].number)
  {
    HalvingMarkersUnfold(prices);
    SampleHitsMatched(prices, HalvingDates);
    HalvingMarkersOfEntries(Hits(Outcomes(DatesOf(prices), HalvingDates), |HalvingDates|));
  }

  lemma HalvingMarkersOfEntries(hits: seq<Hit>)
    requires forall m :: 0 <= m < |hits| ==> hits[m].refPos < |HalvingDates|
    requires forall a, b :: 0 <= a < b < |hits| ==> hits[a].refPos < hits[b].refPos
    ensures var hs := HalvingMarkersOf(hits);
      && (forall m :: 0 <= m < |hs| ==>
            && hs[m].number == hits[m].refPos + 1
            && hs[m].date == HalvingDates[hits[m].refPos]
            && hs[m].index == hits[m].index)
      && (forall a, b :: 0 <= a < b < |hs| ==> hs[a].number < hs[b].number)
  {
  }

  /** Every hit on the samples is the first nearest sample to its reference, within one day, in reference order. */
  lemma SampleHitsMatched(prices: seq<Sample>, refs: seq<Time>)
    requires |prices| > 0
    ensures var hits := Hits(Outcomes(DatesOf(prices), refs), |refs|);
      && (forall m :: 0 <= m < |hits| ==>
            && hits[m].index == NearestByDays(DatesOf(prices), refs[hits[m].refPos])
            && DayDistance(prices[hits[m].index].date, refs[hits[m].refPos]) <= 1)
      && (forall a, b :: 0 <= a < b < |hits| ==> hits[a].refPos < hits[b].refPos)
  {
    var dates := DatesOf(prices);
    var outcomes := Outcomes(dates, refs);
    var hits := Hits(outcomes, |refs|);
    HitsSound(outcomes, |refs|);
    forall m | 0 <= m < |hits|
      ensures hits[m].index == NearestByDays(dates, refs[hits[m].refPos])
      ensures DayDistance(prices[hits[m].index].date, refs[hits[m].refPos]) <= 1
    {
      MatchOneFacts(dates, refs[hits[m].refPos]);
    }
  }

  /** A reference of the list is matched exactly when some sample lies within one day of it. */
  lemma MatchedIff(dates: seq<Time>, refs: seq<Time>, j: nat)
    requires |dates| > 0 && j < |refs|
    ensures var hits := Hits(Outcomes(dates, refs), |refs|);
      (exists m :: 0 <= m < |hits| && hits[m].refPos == j)
      <==> (exists i :: 0 <= i < |dates| && DayDistance(dates[i], refs[j]) <= 1)
  {
    HitsComplete(Outcomes(dates, refs), |refs|, j);
    MatchOneFacts(dates, refs[j]);
  }

  lemma HalvingMarkersUnfold(prices: seq<Sample>)
    requires |prices| > 0
    ensures HalvingMarkers(prices) == HalvingMarkersOf(Hits(Outcomes(DatesOf(prices), HalvingDates), |HalvingDates|))
  {
  }

  lemma EventMarkersUnfold(prices: seq<Sample>)
    requires |prices| > 0
    ensures EventMarkers(prices) == EventMarkersOf(Hits(Outcomes(DatesOf(prices), EventDates()), |HistoricalEvents|))
  {
  }

  /** A halving is marked exactly when some sample lies within one day of it. */
  lemma HalvingMarkedIff(prices: seq<Sample>, j: nat)
    requires |prices| >= 2 && j < |HalvingDates|
    ensures var hs := HalvingMarkers(prices);
      (exists m :: 0 <= m < |hs| && hs[m].number == j + 1)
      <==> (exists i :: 0 <= i < |prices| && DayDistance(prices[i].date, HalvingDates[j]) <= 1)
  {
    var hits := Hits(Outcomes(DatesOf(prices), HalvingDates), |HalvingDates|);
    HalvingMarkersUnfold(prices);
    HalvingNumbers(hits, j);
    SampleMatchedIff(prices, HalvingDates, j);
  }

  lemma HalvingNumbers(hits: seq<Hit>, j: nat)
    requires forall m :: 0 <= m < |hits| ==> hits[m].refPos < |HalvingDates|
    ensures (exists m :: 0 <= m < |HalvingMarkersOf(hits)| && HalvingMarkersOf(hits)[m].number == j + 1)
      <==> (exists m :: 0 <= m < |hits| && hits[m].refPos == j)
  {
    var hs := HalvingMarkersOf(hits);
    if m :| 0 <= m < |hs| && hs[m].number == j + 1 {
      assert hits[m].refPos == j;
    }
    if m :| 0 <= m < |hits| && hits[m].refPos == j {
      assert hs[m].number == j + 1;
    }
  }

  lemma SampleMatchedIff(prices: seq<Sample>, refs: seq<Time>, j: nat)
    requires |prices| > 0 && j < |refs|
    ensures var hits := Hits(Outcomes(DatesOf(prices), refs), |refs|);
      (exists m :: 0 <= m < |hits| && hits[m].refPos == j)
      <==> (exists i :: 0 <= i < |prices| && DayDistance(prices[i].date, refs[j]) <= 1)
  {
    MatchedIff(DatesOf(prices), refs, j);
    SampleWithinIff(prices, refs[j]);
  }

  lemma SampleWithinIff(prices: seq<Sample>, ref: Time)
    ensures (exists i :: 0 <= i < |prices| && DayDistance(prices[i].date, ref) <= 1)
      <==> (exists i :: 0 <= i < |DatesOf(prices)| && DayDistance(DatesOf(prices)[i], ref) <= 1)
  {
    var dates := DatesOf(prices);
    if i :| 0 <= i < |prices| && DayDistance(prices[i].date, ref) <= 1 {
      assert DayDistance(dates[i], ref) <= 1;
    }
    if i :| 0 <= i < |dates| && DayDistance(dates[i], ref) <= 1 {
      assert DayDistance(prices[i].date, ref) <= 1;
    }
  }

  /**
   * Event markers follow the halving rule, each event on its own: the
   * first nearest sample within one day, carrying the name and date of
   * its event, in the order of the event list (which is date order).
   */
  lemma EventMarkersMatched(prices: seq<Sample>)
    requires |prices| >= 2
    ensures var es := EventMarkers(prices);
      && (forall m :: 0 <= m < |es| ==>
            && HistoricalEvent(es[m].date, es[m].name) in HistoricalEvents
            && es[m].index == NearestByDays(DatesOf(prices), es[m].date)
            && DayDistance(prices[es[m].index].date, es[m].date) <= 1)
      && (forall a, b :: 0 <= a < b < |es| ==> es[a].date < es[b].date)
  {
    EventMarkersUnfold(prices);
    SampleHitsMatched(prices, EventDates());
    EventMarkersOfEntries(Hits(Outcomes(DatesOf(prices), EventDates()), |HistoricalEvents|));
  }

  lemma EventMarkersOfEntries(hits: seq<Hit>)
    requires forall m :: 0 <= m < |hits| ==> hits[m].refPos < |HistoricalEvents|
    requires forall a, b :: 0 <= a < b < |hits| ==> hits[a].refPos < hits[b].refPos
    ensures var es := EventMarkersOf(hits);
      && (forall m :: 0 <= m < |es| ==>
            && HistoricalEvent(es[m].date, es[m].name) in HistoricalEvents
            && es[m].date == EventDates()[hits[m].refPos]
            && es[m].index == hits[m].index)
      && (forall a, b :: 0 <= a < b < |es| ==> es[a].date < es[b].date)
  {
    EventDatesAscending();
    var es := EventMarkersOf(hits);
    forall m | 0 <= m < |es|
      ensures HistoricalEvent(es[m].date, es[m].name) in HistoricalEvents
    {
      assert HistoricalEvents[hits[m].refPos] == HistoricalEvent(es[m].date, es[m].name);
    }
  }

  /** The events are listed in date order. */
  lemma EventDatesAscending()
    ensures forall i, j :: 0 <= i < j < |HistoricalEvents| ==> HistoricalEvents[i].date < HistoricalEvents[j].date
  {
  }

  /** An event is marked exactly when some sample lies within one day of it. */
  lemma EventMarkedIff(prices: seq<Sample>, j: nat)
    requires |prices| >= 2 && j < |HistoricalEvents|
    ensures var es := EventMarkers(prices);
      (exists m :: 0 <= m < |es| && es[m].name == HistoricalEvents[j].name)
      <==> (exists i :: 0 <= i < |prices| && DayDistance(prices[i].date, HistoricalEvents[j].date) <= 1)
  {
    EventMarkersUnfold(prices);
    EventNames(Hits(Outcomes(DatesOf(prices), EventDates()), |HistoricalEvents|), j);
    SampleMatchedIff(prices, EventDates(), j);
  }

  lemma EventNames(hits: seq<Hit>, j: nat)
    requires j < |HistoricalEvents|
    requires forall m :: 0 <= m < |hits| ==> hits[m].refPos < |HistoricalEvents|
    ensures (exists m :: 0 <= m < |EventMarkersOf(hits)| && EventMarkersOf(hits)[m].name == HistoricalEvents[j].name)
      <==> (exists m :: 0 <= m < |hits| && hits[m].refPos == j)
  {
    var es := EventMarkersOf(hits);
    if m :| 0 <= m < |es| && es[m].name == HistoricalEvents[j].name {
      assert HistoricalEvents[hits[m].refPos].name == HistoricalEvents[j].name;
      assert hits[m].refPos == j;
    }
    if m :| 0 <= m < |hits| && hits[m].refPos == j {
      assert es[m].name == HistoricalEvents[j].name;
    }
  }
}
