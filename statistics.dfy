/**
 * The statistics engine (`calculate_statistics`): from the stored samples it
 * keeps those with a positive price, sorts them stably by date, and reports
 * the latest price, the all-time high (ATH), the days since the ATH, the
 * mean price, the 50- and 200-sample simple moving averages, the 365-day
 * performance and the percent change from the ATH, or an empty record.
 */
module Statistics {
  import opened Series
  import opened DateSort

  /** The ten keys of the dictionary `calculate_statistics` returns. */
  datatype Stats = Stats(
    latestPrice: real,
    latestDate: Time,
    athPrice: real,
    athDate: Time,
    daysSinceAth: int,
    averagePrice: real,
    sma50: Option<real>,
    sma200: Option<real>,
    performance365d: Option<real>,
    changeFromAthPercent: real)

  /** Either the empty dictionary `{}` or the full record. */
  datatype StatsResult = NoStats | Computed(stats: Stats)

  /** The samples with a positive price, in input order. */
  function PositiveSamples(prices: seq<Sample>): (r: seq<Sample>)
    ensures |r| <= |prices|
  {
    if prices == [] then []
    else (if prices[0].price > 0.0 then [prices[0]] else []) + PositiveSamples(prices[1..])
  }

  lemma {:induction false} InPositiveSamples(prices: seq<Sample>, x: Sample)
    ensures x in PositiveSamples(prices) <==> x in prices && x.price > 0.0
  {
    if prices != [] {
      InPositiveSamples(prices[1..], x);
      assert prices == [prices[0]] + prices[1..];
    }
  }

  /** The filter keeps every copy of a positive sample and no copy of any other. */
  lemma {:induction false} PositiveSamplesCount(prices: seq<Sample>, x: Sample)
    ensures multiset(PositiveSamples(prices))[x] == if x.price > 0.0 then multiset(prices)[x] else 0
  {
    if prices != [] {
      PositiveSamplesCount(prices[1..], x);
      assert prices == [prices[0]] + prices[1..];
    }
  }

  /** The filter keeps input order: filtering a concatenation concatenates the filtered parts. */
  lemma {:induction false} PositiveSamplesAppend(a: seq<Sample>, b: seq<Sample>)
    ensures PositiveSamples(a + b) == PositiveSamples(a) + PositiveSamples(b)
  {
    if a == [] {
      assert a + b == b;
    } else {
      var head := if a[0].price > 0.0 then [a[0]] else [];
      assert (a + b)[0] == a[0] && (a + b)[1..] == a[1..] + b;
      PositiveSamplesAppend(a[1..], b);
      calc {
        PositiveSamples(a + b);
        head + PositiveSamples(a[1..] + b);
        head + (PositiveSamples(a[1..]) + PositiveSamples(b));
        (head + PositiveSamples(a[1..])) + PositiveSamples(b);
        PositiveSamples(a) + PositiveSamples(b);
      }
    }
  }

  /** `price_data` holds every copy of each positive input sample, and nothing else. */
  lemma PriceDataCount(prices: seq<Sample>, x: Sample)
    ensures multiset(PriceData(prices))[x] == if x.price > 0.0 then multiset(prices)[x] else 0
  {
    PositiveSamplesCount(prices, x);
  }

  /** `price_data`: the positive samples sorted by date. */
  function PriceData(prices: seq<Sample>): (r: seq<Sample>)
    ensures |r| == |PositiveSamples(prices)|
  {
    SortByDate(PositiveSamples(prices))
  }

  lemma PriceDataEmpty(prices: seq<Sample>)
    ensures PriceData(prices) == [] <==> forall i :: 0 <= i < |prices| ==> prices[i].price <= 0.0
  {
    var data := PriceData(prices);
    if i :| 0 <= i < |prices| && prices[i].price > 0.0 {
      InPositiveSamples(prices, prices[i]);
      assert prices[i] in multiset(data);
    }
    if data != [] {
      assert data[0] in multiset(PositiveSamples(prices));
      InPositiveSamples(prices, data[0]);
      var i :| 0 <= i < |prices| && prices[i] == data[0];
    }
  }

  function Sum(xs: seq<real>): real
  {
    if xs == [] then 0.0 else xs[0] + Sum(xs[1..])
  }

  /** `np.mean` on exact reals: it lies between the smallest and the largest value. */
  function Mean(xs: seq<real>): (m: real)
    requires |xs| > 0
    ensures MinOfReals(xs) <= m <= MaxOf(xs)
  {
    AverageWithin(xs);
    Sum(xs) / (|xs| as real)
  }

  /** The simple moving average of the last `window` values, absent when there are fewer. */
  function MovingAverage(values: seq<real>, window: nat): (r: Option<real>)
    requires window > 0
    ensures r.Some? <==> |values| >= window
    ensures r.Some? ==>
      var tail := values[|values| - window..];
      MinOfReals(tail) <= r.value <= MaxOf(tail)
  {
    if |values| >= window then Some(Mean(values[|values| - window..])) else None
  }

  /** `((to - from) / from) * 100`. */
  function PercentChange(from: real, to: real): (r: real)
    requires from != 0.0
    ensures from > 0.0 ==> (r > 0.0 <==> to > from) && (r == 0.0 <==> to == from)
    ensures from > 0.0 && to > 0.0 ==> r > -100.0
  {
    var q := (to - from) / from;
    RatioSign(from, to, q);
    q * 100.0
  }

  /** `min(price_data, key=lambda x: abs(x[0] - target))`: the first sample nearest to `target`. */
  function NearestSample(data: seq<Sample>, target: Time): (s: Sample)
    requires |data| > 0
    ensures s in data
    ensures forall j :: 0 <= j < |data| ==> Abs(s.date - target) <= Abs(data[j].date - target)
    ensures exists k :: 0 <= k < |data| && data[k] == s && forall j :: 0 <= j < k ==> Abs(data[j].date - target) > Abs(s.date - target)
  {
    data[NearestIndex(data, target)]
  }

  /** The first position whose date is nearest, as an exact time difference, to `target`. */
  function NearestIndex(data: seq<Sample>, target: Time): (k: nat)
    requires |data| > 0
    ensures k < |data|
    ensures forall j :: 0 <= j < |data| ==> Abs(data[k].date - target) <= Abs(data[j].date - target)
    ensures forall j :: 0 <= j < k ==> Abs(data[k].date - target) < Abs(data[j].date - target)
  {
    if |data| == 1 then 0
    else
      var k := NearestIndex(data[..|data| - 1], target);
      if Abs(data[|data| - 1].date - target) < Abs(data[k].date - target) then |data| - 1 else k
  }

  /** The performance over `daysAgo` days: the change from the sample nearest that many days before the latest one. */
  function Performance(data: seq<Sample>, daysAgo: int): (r: Option<real>)
    requires |data| > 0
    ensures r.None? <==> NearestSample(data, data[|data| - 1].date - DaysSpan(daysAgo)).price <= 0.0
  {
    var latest := data[|data| - 1];
    var past := NearestSample(data, latest.date - DaysSpan(daysAgo));
    if past.price > 0.0 then Some(PercentChange(past.price, latest.price)) else None
  }

  /** The record computed from the sorted positive samples `data`. */
  function StatsOf(data: seq<Sample>): (s: Stats)
    requires |data| > 0
    ensures Sample(s.latestDate, s.latestPrice) == data[|data| - 1]
    ensures Sample(s.athDate, s.athPrice) in data
    ensures forall k :: 0 <= k < |data| ==> data[k].price <= s.athPrice
    ensures s.daysSinceAth == Days(s.latestDate - s.athDate)
    ensures s.averagePrice == Mean(PricesOf(data)) && s.averagePrice <= s.athPrice
    ensures s.sma50.Some? <==> |data| >= 50
    ensures s.sma200.Some? <==> |data| >= 200
    ensures s.performance365d == Performance(data, 365)
    ensures s.athPrice > 0.0 ==> s.changeFromAthPercent == PercentChange(s.athPrice, s.latestPrice)
  {
    var values := PricesOf(data);
    var latest := data[|data| - 1];
    var athPrice := MaxOf(values);
    var athDate := data[IndexOf(values, athPrice)].date;
    Stats(
      latest.price,
      latest.date,
      athPrice,
      athDate,
      Days(latest.date - athDate),
      Mean(values),
      MovingAverage(values, 50),
      MovingAverage(values, 200),
      Performance(data, 365),
      if athPrice > 0.0 then PercentChange(athPrice, latest.price) else 0.0)
  }

  function CalculateStatistics(prices: seq<Sample>): (r: StatsResult)
    ensures r.NoStats? <==> (|prices| < 2 || forall i :: 0 <= i < |prices| ==> prices[i].price <= 0.0)
    ensures r.Computed? ==> |PriceData(prices)| > 0 && r.stats == StatsOf(PriceData(prices))
  {
    PriceDataEmpty(prices);
    if |prices| < 2 || PriceData(prices) == [] then NoStats
    else Computed(StatsOf(PriceData(prices)))
  }

  // ---------------------------------------------------------------------
  // Averages

  lemma {:induction false} SumBounds(xs: seq<real>, lo: real, hi: real)
    requires forall i :: 0 <= i < |xs| ==> lo <= xs[i] <= hi
    ensures (|xs| as real) * lo <= Sum(xs) <= (|xs| as real) * hi
  {
    if xs != [] {
      SumBounds(xs[1..], lo, hi);
    }
  }

  /** The total divided by the count lies between any bounds of the values. */
  lemma AverageBounds(xs: seq<real>, lo: real, hi: real)
    requires |xs| > 0
    requires forall i :: 0 <= i < |xs| ==> lo <= xs[i] <= hi
    ensures lo <= Sum(xs) / (|xs| as real) <= hi
  {
    SumBounds(xs, lo, hi);
    DivideBounds(Sum(xs), |xs| as real, lo, hi);
  }

  /** The total divided by the count lies between the smallest and the largest value. */
  lemma AverageWithin(xs: seq<real>)
    requires |xs| > 0
    ensures MinOfReals(xs) <= Sum(xs) / (|xs| as real) <= MaxOf(xs)
  {
    AverageBounds(xs, MinOfReals(xs), MaxOf(xs));
  }

  /** A mean lies between any lower and upper bound of the values it averages. */
  lemma MeanBounds(xs: seq<real>, lo: real, hi: real)
    requires |xs| > 0
    requires forall i :: 0 <= i < |xs| ==> lo <= xs[i] <= hi
    ensures lo <= Mean(xs) <= hi
  {
    AverageBounds(xs, lo, hi);
  }

  lemma DivideBounds(total: real, n: real, lo: real, hi: real)
    requires n > 0.0 && n * lo <= total <= n * hi
    ensures lo <= total / n <= hi
  {
    var q := total / n;
    assert q * n == total;
    assert (q - lo) * n == total - n * lo;
    assert (hi - q) * n == n * hi - total;
  }

  /** The mean of a constant list is that constant. */
  lemma MeanOfConstant(xs: seq<real>, c: real)
    requires |xs| > 0
    requires forall i :: 0 <= i < |xs| ==> xs[i] == c
    ensures Mean(xs) == c
  {
    MeanBounds(xs, c, c);
  }

  // ---------------------------------------------------------------------
  // Properties of the record

  /** A sample takes part in the statistics exactly when it is an input sample with a positive price. */
  lemma InPriceData(prices: seq<Sample>, x: Sample)
    ensures x in PriceData(prices) <==> x in prices && x.price > 0.0
  {
    var pos := PositiveSamples(prices);
    InPositiveSamples(prices, x);
    assert x in PriceData(prices) <==> x in multiset(PriceData(prices));
    assert x in pos <==> x in multiset(pos);
  }

  lemma PriceDataPositive(prices: seq<Sample>)
    ensures forall k :: 0 <= k < |PriceData(prices)| ==> PriceData(prices)[k].price > 0.0
  {
    var data := PriceData(prices);
    forall k | 0 <= k < |data|
      ensures data[k].price > 0.0
    {
      InPriceData(prices, data[k]);
    }
  }

  lemma {:induction false} WithDateLast(s: seq<Sample>, d: Time)
    requires |s| > 0 && s[|s| - 1].date == d
    ensures |WithDate(s, d)| > 0
    ensures WithDate(s, d)[|WithDate(s, d)| - 1] == s[|s| - 1]
  {
    if |s| > 1 {
      WithDateLast(s[1..], d);
    }
  }

  // ---------------------------------------------------------------------
  // The record over sorted positive data

  /** What `price_data` is once filtered and sorted: non-empty, sorted by date, all prices positive. */
  ghost predicate SortedPositive(data: seq<Sample>)
  {
    && |data| > 0
    && SortedByDate(data)
    && forall k :: 0 <= k < |data| ==> data[k].price > 0.0
  }

  lemma ComputedFromPriceData(prices: seq<Sample>)
    requires CalculateStatistics(prices).Computed?
    ensures SortedPositive(PriceData(prices))
    ensures CalculateStatistics(prices).stats == StatsOf(PriceData(prices))
  {
    PriceDataPositive(prices);
  }

  lemma StatsOfLatest(data: seq<Sample>)
    requires SortedPositive(data)
    ensures var s := StatsOf(data);
      && data[|data| - 1] == Sample(s.latestDate, s.latestPrice)
      && forall k :: 0 <= k < |data| ==> data[k].date <= s.latestDate
  {
  }

  lemma StatsOfAth(data: seq<Sample>)
    requires SortedPositive(data)
    ensures var s := StatsOf(data);
      && Sample(s.athDate, s.athPrice) in data
      && s.athPrice > 0.0
      && (forall k :: 0 <= k < |data| ==> data[k].price <= s.athPrice)
      && (forall k :: 0 <= k < |data| && data[k].price == s.athPrice ==> s.athDate <= data[k].date)
      && s.athDate <= s.latestDate
      && s.daysSinceAth >= 0
  {
    var s := StatsOf(data);
    var values := PricesOf(data);
    var k := IndexOf(values, s.athPrice);
    assert data[k] == Sample(s.athDate, s.athPrice);
    forall j | 0 <= j < |data|
      ensures data[j].price <= s.athPrice
    {
      assert values[j] == data[j].price;
    }
    forall j | 0 <= j < |data| && data[j].price == s.athPrice
      ensures s.athDate <= data[j].date
    {
      assert values[j] == s.athPrice;
    }
    assert data[k].date <= data[|data| - 1].date;
  }

  /** Mean of a window of the sorted prices: positive and at most the largest price. */
  lemma WindowMeanBounds(data: seq<Sample>, from: nat)
    requires SortedPositive(data)
    requires from < |data|
    ensures 0.0 < Mean(PricesOf(data)[from..]) <= MaxOf(PricesOf(data))
  {
    var values := PricesOf(data);
    var w := values[from..];
    var lo := MinOfReals(w);
    assert forall i :: 0 <= i < |w| ==> w[i] == values[from + i];
    MeanBounds(w, lo, MaxOf(values));
  }

  /** A moving average is present exactly when the window fits, and then lies between the extreme prices. */
  lemma MovingAverageFacts(data: seq<Sample>, window: nat)
    requires SortedPositive(data) && window > 0
    ensures var values := PricesOf(data);
      var sma := MovingAverage(values, window);
      && (sma.Some? <==> |data| >= window)
      && (sma.Some? ==> sma.value == Mean(values[|data| - window..]) && 0.0 < sma.value <= MaxOf(values))
  {
    if |data| >= window {
      WindowMeanBounds(data, |data| - window);
    }
  }

  /** A product with a positive factor has the sign of the other factor. */
  lemma ProductSign(a: real, b: real)
    requires b > 0.0
    ensures a > 0.0 ==> a * b > 0.0
    ensures a < 0.0 ==> a * b < 0.0
  {
  }

  /** The relative change `q = (to - from) / from` has the sign of `to - from` and, for a positive `to`, is above -1. */
  lemma RatioSign(from: real, to: real, q: real)
    requires from != 0.0 && q == (to - from) / from
    ensures from > 0.0 ==> (q * 100.0 > 0.0 <==> to > from) && (q * 100.0 == 0.0 <==> to == from)
    ensures from > 0.0 && to > 0.0 ==> q * 100.0 > -100.0
  {
    if from > 0.0 {
      assert (q + 1.0) * from == to;
      ProductSign(q, from);
      ProductSign(q + 1.0, from);
    }
  }

  /** With positive prices only, the performance is always present. */
  lemma PerformanceFacts(data: seq<Sample>, daysAgo: int)
    requires |data| > 0
    requires forall k :: 0 <= k < |data| ==> data[k].price > 0.0
    ensures var latest := data[|data| - 1];
      var past := NearestSample(data, latest.date - DaysSpan(daysAgo));
      && past.price > 0.0
      && Performance(data, daysAgo) == Some(PercentChange(past.price, latest.price))
      && PercentChange(past.price, latest.price) > -100.0
  {
    var latest := data[|data| - 1];
    var k := NearestIndex(data, latest.date - DaysSpan(daysAgo));
    assert data[k].price > 0.0;
  }

  lemma StatsOfPerformance(data: seq<Sample>, s: Stats) returns (past: Sample)
    requires |data| > 0
    requires forall k :: 0 <= k < |data| ==> data[k].price > 0.0
    requires s == StatsOf(data)
    ensures past == NearestSample(data, s.latestDate - DaysSpan(365))
    ensures past.price > 0.0
    ensures s.performance365d == Some(PercentChange(past.price, s.latestPrice))
    ensures PercentChange(past.price, s.latestPrice) > -100.0
  {
    PerformanceFacts(data, 365);
    past := NearestSample(data, s.latestDate - DaysSpan(365));
  }

  lemma StatsOfChange(data: seq<Sample>)
    requires SortedPositive(data)
    ensures var s := StatsOf(data);
      && s.changeFromAthPercent == PercentChange(s.athPrice, s.latestPrice)
      && -100.0 < s.changeFromAthPercent <= 0.0
      && (s.changeFromAthPercent == 0.0 <==> s.latestPrice == s.athPrice)
  {
    var s := StatsOf(data);
    StatsOfAth(data);
    assert s.latestPrice == data[|data| - 1].price;
  }

  // ---------------------------------------------------------------------
  // The record in terms of the input samples

  /** The latest price and date belong to a positive input sample, and no positive sample is later. */
  lemma LatestSample(prices: seq<Sample>, s: Stats)
    requires CalculateStatistics(prices) == Computed(s)
    ensures Sample(s.latestDate, s.latestPrice) in prices
    ensures s.latestPrice > 0.0
    ensures forall i :: 0 <= i < |prices| && prices[i].price > 0.0 ==> prices[i].date <= s.latestDate
  {
    var data := PriceData(prices);
    ComputedFromPriceData(prices);
    StatsOfLatest(data);
    InPriceData(prices, data[|data| - 1]);
    forall i | 0 <= i < |prices| && prices[i].price > 0.0
      ensures prices[i].date <= s.latestDate
    {
      InPriceData(prices, prices[i]);
    }
  }

  /**
   * Among several positive samples sharing the latest date, the sort's
   * stability makes the latest price that of the last one in input order.
   */
  lemma LatestIsLastAtItsDate(prices: seq<Sample>, s: Stats)
    requires CalculateStatistics(prices) == Computed(s)
    ensures |WithDate(PositiveSamples(prices), s.latestDate)| > 0
    ensures var w := WithDate(PositiveSamples(prices), s.latestDate);
      w[|w| - 1] == Sample(s.latestDate, s.latestPrice)
  {
    LatestIsLastSorted(prices, s);
    LastOfSortedAtItsDate(PositiveSamples(prices), Sample(s.latestDate, s.latestPrice));
  }

  lemma LatestIsLastSorted(prices: seq<Sample>, s: Stats)
    requires CalculateStatistics(prices) == Computed(s)
    ensures |PositiveSamples(prices)| > 0
    ensures SortByDate(PositiveSamples(prices))[|PositiveSamples(prices)| - 1] == Sample(s.latestDate, s.latestPrice)
  {
    ComputedFromPriceData(prices);
    StatsOfLatest(PriceData(prices));
  }

  /** The last sample of the sorted sequence is also the last, in input order, among the samples of its date. */
  lemma LastOfSortedAtItsDate(pos: seq<Sample>, x: Sample)
    requires |pos| > 0 && SortByDate(pos)[|pos| - 1] == x
    ensures |WithDate(pos, x.date)| > 0 && WithDate(pos, x.date)[|WithDate(pos, x.date)| - 1] == x
  {
    SortByDateStable(pos, x.date);
    WithDateLast(SortByDate(pos), x.date);
  }

  /**
   * The ATH is the largest positive price; its date is the earliest date
   * on which that price occurs, because `index` picks the first sorted
   * occurrence. The pair is an input sample, and it is never later than
   * the latest sample, so the days since the ATH are never negative.
   */
  lemma AthIsFirstMaximum(prices: seq<Sample>, s: Stats)
    requires CalculateStatistics(prices) == Computed(s)
    ensures Sample(s.athDate, s.athPrice) in prices
    ensures s.athPrice > 0.0
    ensures forall i :: 0 <= i < |prices| && prices[i].price > 0.0 ==> prices[i].price <= s.athPrice
    ensures forall i :: 0 <= i < |prices| && prices[i].price == s.athPrice ==> s.athDate <= prices[i].date
    ensures s.athDate <= s.latestDate
    ensures s.daysSinceAth == Days(s.latestDate - s.athDate) && s.daysSinceAth >= 0
  {
    var data := PriceData(prices);
    ComputedFromPriceData(prices);
    StatsOfAth(data);
    InPriceData(prices, Sample(s.athDate, s.athPrice));
    forall i | 0 <= i < |prices| && prices[i].price > 0.0
      ensures prices[i].price <= s.athPrice
      ensures prices[i].price == s.athPrice ==> s.athDate <= prices[i].date
    {
      InPriceData(prices, prices[i]);
    }
  }

  /**
   * The mean and the moving averages are positive and at most the ATH;
   * a moving average is present exactly when there are enough positive
   * samples, and then averages the latest ones by date.
   */
  lemma Averages(prices: seq<Sample>, s: Stats)
    requires CalculateStatistics(prices) == Computed(s)
    ensures s.averagePrice == Mean(PricesOf(PriceData(prices)))
    ensures 0.0 < s.averagePrice <= s.athPrice
    ensures s.sma50.Some? <==> |PositiveSamples(prices)| >= 50
    ensures s.sma200.Some? <==> |PositiveSamples(prices)| >= 200
    ensures var values := PricesOf(PriceData(prices));
      s.sma50.Some? ==> s.sma50.value == Mean(values[|values| - 50..]) && 0.0 < s.sma50.value <= s.athPrice
    ensures var values := PricesOf(PriceData(prices));
      s.sma200.Some? ==> s.sma200.value == Mean(values[|values| - 200..]) && 0.0 < s.sma200.value <= s.athPrice
  {
    var data := PriceData(prices);
    ComputedFromPriceData(prices);
    WindowMeanBounds(data, 0);
    assert PricesOf(data)[0..] == PricesOf(data);
    MovingAverageFacts(data, 50);
    MovingAverageFacts(data, 200);
  }

  /** The first sorted sample nearest to `target` is a positive input sample no farther from it than any other. */
  lemma NearestPositiveSample(prices: seq<Sample>, target: Time)
    requires PriceData(prices) != []
    ensures var past := NearestSample(PriceData(prices), target);
      && past in prices
      && past.price > 0.0
      && forall i :: 0 <= i < |prices| && prices[i].price > 0.0 ==>
           Abs(past.date - target) <= Abs(prices[i].date - target)
  {
    var data := PriceData(prices);
    var k := NearestIndex(data, target);
    InPriceData(prices, data[k]);
    forall i | 0 <= i < |prices| && prices[i].price > 0.0
      ensures Abs(data[k].date - target) <= Abs(prices[i].date - target)
    {
      InPriceData(prices, prices[i]);
      var j :| 0 <= j < |data| && data[j] == prices[i];
    }
  }

  /**
   * The 365-day performance is always present: it is the percent change
   * from the first sorted sample nearest to one year before the latest
   * (a positive input sample) to the latest price, and it is above -100.
   */
  lemma PerformanceAlwaysPresent(prices: seq<Sample>, s: Stats) returns (past: Sample)
    requires CalculateStatistics(prices) == Computed(s)
    ensures past == NearestSample(PriceData(prices), s.latestDate - DaysSpan(365))
    ensures past in prices && past.price > 0.0
    ensures s.performance365d == Some(PercentChange(past.price, s.latestPrice))
    ensures PercentChange(past.price, s.latestPrice) > -100.0
  {
    var data := PriceData(prices);
    PriceDataPositive(prices);
    past := StatsOfPerformance(data, s);
    InPriceData(prices, past);
  }

  /**
   * The change from the ATH lies in (-100, 0], is zero exactly when the
   * latest price is the ATH, and the guard `ath_price > 0` always holds.
   */
  lemma ChangeFromAthBounds(prices: seq<Sample>, s: Stats)
    requires CalculateStatistics(prices) == Computed(s)
    ensures s.athPrice > 0.0
    ensures s.changeFromAthPercent == PercentChange(s.athPrice, s.latestPrice)
    ensures -100.0 < s.changeFromAthPercent <= 0.0
    ensures s.changeFromAthPercent == 0.0 <==> s.latestPrice == s.athPrice
  {
    ComputedFromPriceData(prices);
    StatsOfAth(PriceData(prices));
    StatsOfChange(PriceData(prices));
  }

  // ---------------------------------------------------------------------
  // Whole records for particular inputs

  lemma {:induction false} OnlyPositive(prices: seq<Sample>, k: nat)
    requires k < |prices| && prices[k].price > 0.0
    requires forall i :: 0 <= i < |prices| && i != k ==> prices[i].price <= 0.0
    ensures PositiveSamples(prices) == [prices[k]]
  {
    if k == 0 {
      NonePositive(prices[1..]);
    } else {
      OnlyPositive(prices[1..], k - 1);
    }
  }

  lemma {:induction false} NonePositive(prices: seq<Sample>)
    requires forall i :: 0 <= i < |prices| ==> prices[i].price <= 0.0
    ensures PositiveSamples(prices) == []
  {
    if prices != [] {
      NonePositive(prices[1..]);
    }
  }

  lemma StatsOfSingle(p: Sample)
    requires p.price > 0.0
    ensures StatsOf([p]) == Stats(p.price, p.date, p.price, p.date, 0, p.price, None, None, Some(0.0), 0.0)
  {
    var s := StatsOf([p]);
    var values := PricesOf([p]);
    assert values == [p.price];
    assert MaxOf(values) == p.price;
    assert IndexOf(values, p.price) == 0;
    assert s.latestPrice == p.price && s.latestDate == p.date;
    assert s.athPrice == p.price && s.athDate == p.date;
    assert s.daysSinceAth == 0;
    assert values[1..] == [];
    assert Sum(values) == p.price;
    assert s.averagePrice == p.price;
    assert s.sma50 == None && s.sma200 == None;
    assert NearestSample([p], p.date - DaysSpan(365)) == p;
    assert s.performance365d == Some(0.0);
    assert s.changeFromAthPercent == 0.0;
  }

  /**
   * At least two samples of which exactly one has a positive price give
   * a full record built from that one sample: it is both the latest and
   * the ATH, the mean is its price, no moving average is present, and
   * the performance and the change from the ATH are both zero.
   */
  lemma SinglePositiveSample(prices: seq<Sample>, k: nat)
    requires |prices| >= 2 && k < |prices| && prices[k].price > 0.0
    requires forall i :: 0 <= i < |prices| && i != k ==> prices[i].price <= 0.0
    ensures var p := prices[k];
      CalculateStatistics(prices) == Computed(Stats(p.price, p.date, p.price, p.date, 0, p.price, None, None, Some(0.0), 0.0))
  {
    var p := prices[k];
    OnlyPositive(prices, k);
    assert PriceData(prices) == InsertByDate(p, []) == [p];
    StatsOfSingle(p);
  }

  lemma {:induction false} AllPositive(prices: seq<Sample>)
    requires forall i :: 0 <= i < |prices| ==> prices[i].price > 0.0
    ensures PositiveSamples(prices) == prices
  {
    if prices != [] {
      AllPositive(prices[1..]);
      assert prices == [prices[0]] + prices[1..];
    }
  }

  /**
   * A constant positive price: every price in the record is that price,
   * the ATH is dated at the earliest sample, and the performance and the
   * change from the ATH are zero.
   */
  lemma ConstantPrice(prices: seq<Sample>, s: Stats, c: real)
    requires CalculateStatistics(prices) == Computed(s)
    requires c > 0.0 && forall i :: 0 <= i < |prices| ==> prices[i].price == c
    ensures s.latestPrice == c && s.athPrice == c && s.averagePrice == c
    ensures forall i :: 0 <= i < |prices| ==> s.athDate <= prices[i].date
    ensures s.sma50 == (if |prices| >= 50 then Some(c) else None)
    ensures s.sma200 == (if |prices| >= 200 then Some(c) else None)
    ensures s.performance365d == Some(0.0)
    ensures s.changeFromAthPercent == 0.0
  {
    AllPositive(prices);
    LatestSample(prices, s);
    AthIsFirstMaximum(prices, s);
    var past := PerformanceAlwaysPresent(prices, s);
    ChangeFromAthBounds(prices, s);
    ConstantWindows(prices, s, c);
  }

  lemma ConstantWindows(prices: seq<Sample>, s: Stats, c: real)
    requires CalculateStatistics(prices) == Computed(s)
    requires forall i :: 0 <= i < |prices| ==> prices[i].price == c
    ensures s.averagePrice == c
    ensures s.sma50.Some? ==> s.sma50.value == c
    ensures s.sma200.Some? ==> s.sma200.value == c
  {
    var values := PricesOf(PriceData(prices));
    PriceDataConstant(prices, c);
    Averages(prices, s);
    ConstantMeans(values, c);
  }

  /** Every mean the statistics take of a constant list is that constant. */
  lemma ConstantMeans(values: seq<real>, c: real)
    requires |values| > 0
    requires forall k :: 0 <= k < |values| ==> values[k] == c
    ensures Mean(values) == c
    ensures |values| >= 50 ==> Mean(values[|values| - 50..]) == c
    ensures |values| >= 200 ==> Mean(values[|values| - 200..]) == c
  {
    MeanOfConstant(values, c);
    TailMeanOfConstant(values, c, 50);
    TailMeanOfConstant(values, c, 200);
  }

  /** The mean of the last `w` values of a constant list is that constant. */
  lemma TailMeanOfConstant(values: seq<real>, c: real, w: nat)
    requires forall k :: 0 <= k < |values| ==> values[k] == c
    ensures 0 < w <= |values| ==> Mean(values[|values| - w..]) == c
  {
    if 0 < w <= |values| {
      MeanOfConstant(values[|values| - w..], c);
    }
  }

  /** When every input price is `c`, so is every price the statistics use. */
  lemma PriceDataConstant(prices: seq<Sample>, c: real)
    requires forall i :: 0 <= i < |prices| ==> prices[i].price == c
    ensures var values := PricesOf(PriceData(prices));
      forall k :: 0 <= k < |values| ==> values[k] == c
  {
    var data := PriceData(prices);
    forall k | 0 <= k < |data|
      ensures data[k].price == c
    {
      InPriceData(prices, data[k]);
    }
  }

  /** Three yearly samples: 100 on 2020-01-01, 200 on 2021-01-01 and 50 on 2022-01-01. */
  function ThreeSampleSeries(): seq<Sample>
  {
    [Sample(DaysSpan(18262), 100.0), Sample(DaysSpan(18628), 200.0), Sample(DaysSpan(18993), 50.0)]
  }

  lemma ThreeSamplesData()
    ensures PriceData(ThreeSampleSeries()) == ThreeSampleSeries()
  {
    var prices := ThreeSampleSeries();
    AllPositive(prices);
    SortByDateKeepsSorted(prices);
  }

  /**
   * For the three yearly samples the ATH is 200 on 2021-01-01, the latest
   * price is 50, the change from the ATH is -75 percent, 365 days have
   * passed since the ATH, and the 365-day performance is -75 percent.
   */
  lemma ThreeSamples()
    ensures var r := CalculateStatistics(ThreeSampleSeries());
      && r.Computed?
      && r.stats.athPrice == 200.0
      && r.stats.athDate == DaysSpan(18628)
      && r.stats.latestPrice == 50.0
      && r.stats.changeFromAthPercent == -75.0
      && r.stats.daysSinceAth == 365
      && r.stats.performance365d == Some(-75.0)
  {
    var prices := ThreeSampleSeries();
    ThreeSamplesData();
    ThreeSamplesStats();
    assert CalculateStatistics(prices).Computed?;
  }

  lemma ThreeSamplesStats()
    ensures var s := StatsOf(ThreeSampleSeries());
      && s.athPrice == 200.0
      && s.athDate == DaysSpan(18628)
      && s.latestPrice == 50.0
      && s.changeFromAthPercent == -75.0
      && s.daysSinceAth == 365
      && s.performance365d == Some(-75.0)
  {
    var prices := ThreeSampleSeries();
    var target := DaysSpan(18993) - DaysSpan(365);
    var k := NearestIndex(prices, target);
    assert Abs(prices[k].date - target) <= Abs(prices[1].date - target) == 0;
    assert k == 1;
    var values := PricesOf(prices);
    assert values == [100.0, 200.0, 50.0];
    assert MaxOf(values) == 200.0;
    assert IndexOf(values, 200.0) == 1;
    assert Days(DaysSpan(18993) - DaysSpan(18628)) == 365;
  }
}
