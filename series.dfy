/**
 * Shared vocabulary of the price series: the stored sample record
 * (`BitcoinPrice` with its `dateAdd` and `price` columns), time in the
 * resolution of Python's `datetime`, and the two selection rules both
 * services rely on: "first position of the minimum" and "the maximum".
 */
module Series {

  /** A point in time, in microseconds since the epoch (the resolution of Python's datetime). */
  type Time = int

  /** `timedelta(days=n)` in microseconds. */
  function DaysSpan(n: int): int
  {
    n * 86_400_000_000
  }

  /** One stored price sample: `dateAdd` and `price` of a `BitcoinPrice` row. */
  datatype Sample = Sample(date: Time, price: real)

  datatype Option<T> = None | Some(value: T)

  /** `timedelta.days`: the whole number of days in a time difference, rounded toward minus infinity. */
  function Days(delta: int): (d: int)
    ensures DaysSpan(d) <= delta < DaysSpan(d + 1)
  {
    delta / 86_400_000_000
  }

  /** Whole days never decrease as the time difference grows. */
  lemma DaysMonotone(a: int, b: int)
    requires a <= b
    ensures Days(a) <= Days(b)
  {
  }

  /** Python's `abs` on an integer or a timedelta. */
  function Abs(x: int): nat
  {
    if x < 0 then -x else x
  }

  function DatesOf(samples: seq<Sample>): (ds: seq<Time>)
    ensures |ds| == |samples|
    ensures forall i :: 0 <= i < |samples| ==> ds[i] == samples[i].date
  {
    seq(|samples|, i requires 0 <= i < |samples| => samples[i].date)
  }

  function PricesOf(samples: seq<Sample>): (ps: seq<real>)
    ensures |ps| == |samples|
    ensures forall i :: 0 <= i < |samples| ==> ps[i] == samples[i].price
  {
    seq(|samples|, i requires 0 <= i < |samples| => samples[i].price)
  }

  /**
   * The position Python finds with `keys.index(min(keys))`: the first
   * position holding the smallest key.
   */
  function FirstArgMin(keys: seq<int>): (k: nat)
    requires |keys| > 0
    ensures k < |keys|
    ensures forall j :: 0 <= j < |keys| ==> keys[k] <= keys[j]
    ensures forall j :: 0 <= j < k ==> keys[k] < keys[j]
  {
    if |keys| == 1 then 0
    else
      var k := FirstArgMin(keys[..|keys| - 1]);
      if keys[|keys| - 1] < keys[k] then |keys| - 1 else k
  }

  /** The smallest key, `min(keys)`. */
  function MinOf(keys: seq<int>): (m: int)
    requires |keys| > 0
    ensures m in keys
    ensures forall j :: 0 <= j < |keys| ==> m <= keys[j]
  {
    keys[FirstArgMin(keys)]
  }

  /** Python's `max` over a non-empty list of prices. */
  function MaxOf(xs: seq<real>): (m: real)
    requires |xs| > 0
    ensures m in xs
    ensures forall j :: 0 <= j < |xs| ==> xs[j] <= m
  {
    if |xs| == 1 then xs[0]
    else
      var m := MaxOf(xs[..|xs| - 1]);
      if m < xs[|xs| - 1] then xs[|xs| - 1] else m
  }

  /** The smallest of a non-empty list of prices. */
  function MinOfReals(xs: seq<real>): (m: real)
    requires |xs| > 0
    ensures m in xs
    ensures forall j :: 0 <= j < |xs| ==> m <= xs[j]
  {
    if |xs| == 1 then xs[0]
    else
      var m := MinOfReals(xs[..|xs| - 1]);
      if xs[|xs| - 1] < m then xs[|xs| - 1] else m
  }

  /** `xs.index(v)`: the first position holding `v`. */
  function IndexOf(xs: seq<real>, v: real): (i: nat)
    requires v in xs
    ensures i < |xs| && xs[i] == v
    ensures forall j :: 0 <= j < i ==> xs[j] != v
  {
    if xs[0] == v then 0 else 1 + IndexOf(xs[1..], v)
  }
}
