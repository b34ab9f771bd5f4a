/**
 * Python's `sorted(samples, key=lambda x: x[0])`: a stable sort by date.
 * Stability is stated as "for every date, the samples carrying that date
 * keep their relative input order" (WithDate below).
 */
module DateSort {
  import opened Series

  ghost predicate SortedByDate(s: seq<Sample>)
  {
    forall i, j :: 0 <= i < j < |s| ==> s[i].date <= s[j].date
  }

  /** The samples of `s` whose date is `d`, in the order of `s`. */
  function WithDate(s: seq<Sample>, d: Time): (r: seq<Sample>)
    ensures |r| <= |s|
    ensures forall i :: 0 <= i < |r| ==> r[i].date == d
  {
    if s == [] then []
    else (if s[0].date == d then [s[0]] else []) + WithDate(s[1..], d)
  }

  /** Places `x` in front of the first element of `t` whose date is not earlier than its own. */
  function InsertByDate(x: Sample, t: seq<Sample>): (r: seq<Sample>)
    ensures |r| == |t| + 1
    ensures multiset(r) == multiset(t) + multiset{x}
  {
    if t == [] || x.date <= t[0].date then [x] + t
    else
      assert t == [t[0]] + t[1..];
      [t[0]] + InsertByDate(x, t[1..])
  }

  lemma {:induction false} InsertByDateSorted(x: Sample, t: seq<Sample>)
    requires SortedByDate(t)
    ensures SortedByDate(InsertByDate(x, t))
  {
    if t != [] && x.date > t[0].date {
      var rest := InsertByDate(x, t[1..]);
      InsertByDateSorted(x, t[1..]);
      forall k | 0 <= k < |rest|
        ensures t[0].date <= rest[k].date
      {
        assert rest[k] in multiset(rest);
        assert rest[k] in multiset(t[1..]) + multiset{x};
      }
    }
  }

  /** The stable sort by date: sorting the tail first and inserting the head in front of equal dates. */
  function SortByDate(s: seq<Sample>): (r: seq<Sample>)
    ensures |r| == |s|
    ensures multiset(r) == multiset(s)
    ensures SortedByDate(r)
  {
    if s == [] then []
    else
      assert s == [s[0]] + s[1..];
      InsertByDateSorted(s[0], SortByDate(s[1..]));
      InsertByDate(s[0], SortByDate(s[1..]))
  }

  lemma {:induction false} WithDateInsert(x: Sample, t: seq<Sample>, d: Time)
    ensures WithDate(InsertByDate(x, t), d) == (if x.date == d then [x] else []) + WithDate(t, d)
  {
    if t == [] || x.date <= t[0].date {
      assert ([x] + t)[1..] == t;
    } else {
      WithDateInsert(x, t[1..], d);
      var rest := InsertByDate(x, t[1..]);
      assert ([t[0]] + rest)[1..] == rest;
    }
  }

  /** The sort is stable: for every date, the samples with that date appear in input order. */
  lemma {:induction false} SortByDateStable(s: seq<Sample>, d: Time)
    ensures WithDate(SortByDate(s), d) == WithDate(s, d)
  {
    if s != [] {
      SortByDateStable(s[1..], d);
      WithDateInsert(s[0], SortByDate(s[1..]), d);
    }
  }

  /** Input already in date order, as the database query delivers it, comes out of the sort unchanged. */
  lemma {:induction false} SortByDateKeepsSorted(s: seq<Sample>)
    requires SortedByDate(s)
    ensures SortByDate(s) == s
  {
    if s != [] {
      SortByDateKeepsSorted(s[1..]);
      assert s == [s[0]] + s[1..];
    }
  }
}
