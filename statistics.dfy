/** Explicit definitions of the three summary statistics the baseline
    predictors use (arithmetic mean, median, mode), written out instead of
    calling a numerics library, together with the facts proved about them.
    Numbers are exact `real`s: no rounding and no NaN. */
module Statistics {

  // ---------------------------------------------------------------------
  // Sum, minimum, maximum
  // ---------------------------------------------------------------------

  /** The sum of all values. */
  function Sum(s: seq<real>): real
  {
    if |s| == 0 then 0.0 else s[0] + Sum(s[1..])
  }

  /** The smallest value of a non-empty sequence. */
  function Min(s: seq<real>): (m: real)
    requires |s| > 0
    ensures m in s
    ensures forall i :: 0 <= i < |s| ==> m <= s[i]
  {
    if |s| == 1 then s[0]
    else
      var rest := Min(s[1..]);
      assert forall i :: 1 <= i < |s| ==> s[i] == s[1..][i - 1];
      if s[0] <= rest then s[0] else rest
  }

  /** The largest value of a non-empty sequence. */
  function Max(s: seq<real>): (m: real)
    requires |s| > 0
    ensures m in s
    ensures forall i :: 0 <= i < |s| ==> s[i] <= m
  {
    if |s| == 1 then s[0]
    else
      var rest := Max(s[1..]);
      assert forall i :: 1 <= i < |s| ==> s[i] == s[1..][i - 1];
      if rest <= s[0] then s[0] else rest
  }

  /** A sum of `n` values, each between `lo` and `hi`, lies between `n * lo` and `n * hi`. */
  lemma {:induction false} SumBounds(s: seq<real>, lo: real, hi: real)
    requires forall i :: 0 <= i < |s| ==> lo <= s[i] <= hi
    ensures (|s| as real) * lo <= Sum(s) <= (|s| as real) * hi
  {
    if |s| > 0 {
      var n := (|s| - 1) as real;
      assert forall i :: 0 <= i < |s| - 1 ==> s[1..][i] == s[i + 1];
      SumBounds(s[1..], lo, hi);
      assert (|s| as real) * lo == lo + n * lo;
      assert (|s| as real) * hi == hi + n * hi;
    }
  }

  // ---------------------------------------------------------------------
  // Mean
  // ---------------------------------------------------------------------

  /** The arithmetic mean: the sum of the values divided by their count. It
      lies between the smallest and the largest value. */
  function Mean(s: seq<real>): (r: real)
    requires |s| > 0
    ensures Min(s) <= r <= Max(s)
  {
    var lo, hi := Min(s), Max(s);
    SumOverCountWithin(s, lo, hi);
    Sum(s) / (|s| as real)
  }

  /** The mean of values that all lie between `lo` and `hi` lies between them too. */
  lemma MeanWithin(s: seq<real>, lo: real, hi: real)
    requires |s| > 0
    requires forall i :: 0 <= i < |s| ==> lo <= s[i] <= hi
    ensures lo <= Mean(s) <= hi
  {
    SumOverCountWithin(s, lo, hi);
  }

  /** Bounds shared by all values also bound their sum divided by their count.
      This is the bound of `MeanWithin` stated without `Mean`, so that the body
      of `Mean` can use it to prove its own postcondition. */
  lemma SumOverCountWithin(s: seq<real>, lo: real, hi: real)
    requires |s| > 0
    requires forall i :: 0 <= i < |s| ==> lo <= s[i] <= hi
    ensures lo <= Sum(s) / (|s| as real) <= hi
  {
    SumBounds(s, lo, hi);
    QuotientBounds(Sum(s), |s| as real, lo, hi);
  }

  /** Dividing by a positive count keeps bounds that were scaled by that count. */
  lemma QuotientBounds(sum: real, n: real, lo: real, hi: real)
    requires n > 0.0
    requires n * lo <= sum <= n * hi
    ensures lo <= sum / n <= hi
  {
    assert sum / n - lo == (sum - n * lo) / n;
    assert hi - sum / n == (n * hi - sum) / n;
  }

  /** Reordering the values does not change their sum. */
  lemma SumPermutation(s: seq<real>, t: seq<real>)
    requires multiset(s) == multiset(t)
    ensures Sum(s) == Sum(t)
  {
    SumSort(s);
    SumSort(t);
    SortedUnique(Sort(s), Sort(t));
  }

  /** Reordering the values does not change their mean. */
  lemma MeanPermutation(s: seq<real>, t: seq<real>)
    requires |s| > 0
    requires multiset(s) == multiset(t)
    ensures |t| == |s| && Mean(s) == Mean(t)
  {
    assert |t| == |multiset(t)| == |multiset(s)| == |s|;
    SumPermutation(s, t);
  }

  /** The mean of values that are all equal is that value. */
  lemma {:induction false} MeanOfConstant(s: seq<real>, c: real)
    requires |s| > 0
    requires forall i :: 0 <= i < |s| ==> s[i] == c
    ensures Mean(s) == c
  {
    SumBounds(s, c, c);
  }

  // ---------------------------------------------------------------------
  // Sorting
  // ---------------------------------------------------------------------

  /** Ascending order. */
  predicate Sorted(s: seq<real>)
  {
    forall i, j :: 0 <= i < j < |s| ==> s[i] <= s[j]
  }

  /** Inserts `x` into a sorted sequence, keeping it sorted. */
  function Insert(x: real, s: seq<real>): (r: seq<real>)
    requires Sorted(s)
    ensures |r| == |s| + 1
    ensures Sorted(r)
    ensures multiset(r) == multiset(s) + multiset{x}
  {
    if |s| == 0 then [x]
    else if x <= s[0] then [x] + s
    else
      var rest := Insert(x, s[1..]);
      assert s == [s[0]] + s[1..];
      assert forall k :: 0 <= k < |rest| ==> s[0] <= rest[k] by {
        forall k | 0 <= k < |rest| ensures s[0] <= rest[k] {
          assert rest[k] in multiset(rest);
          assert rest[k] == x || rest[k] in s[1..];
        }
      }
      [s[0]] + rest
  }

  /** Insertion sort: an ascending permutation of the values. */
  function Sort(s: seq<real>): (r: seq<real>)
    ensures |r| == |s|
    ensures Sorted(r)
    ensures multiset(r) == multiset(s)
  {
    if |s| == 0 then []
    else
      assert s == [s[0]] + s[1..];
      Insert(s[0], Sort(s[1..]))
  }

  /** Two ascending sequences holding the same values are equal: the sorted
      order of a collection is unique. */
  lemma {:induction false} SortedUnique(a: seq<real>, b: seq<real>)
    requires Sorted(a) && Sorted(b)
    requires multiset(a) == multiset(b)
    ensures a == b
  {
    assert |a| == |multiset(a)| == |multiset(b)| == |b|;
    if |a| > 0 {
      assert a[0] in multiset(b);
      assert b[0] in multiset(a);
      assert a[0] == b[0];
      assert a == [a[0]] + a[1..];
      assert b == [b[0]] + b[1..];
      assert multiset(a[1..]) == multiset(a) - multiset{a[0]};
      assert multiset(b[1..]) == multiset(b) - multiset{b[0]};
      SortedUnique(a[1..], b[1..]);
    }
  }

  /** Inserting adds its element to the sum. */
  lemma {:induction false} SumInsert(x: real, s: seq<real>)
    requires Sorted(s)
    ensures Sum(Insert(x, s)) == x + Sum(s)
  {
    if |s| > 0 && x > s[0] {
      SumInsert(x, s[1..]);
      assert ([s[0]] + Insert(x, s[1..]))[1..] == Insert(x, s[1..]);
    }
  }

  /** Sorting does not change the sum. */
  lemma {:induction false} SumSort(s: seq<real>)
    ensures Sum(Sort(s)) == Sum(s)
  {
    if |s| > 0 {
      SumSort(s[1..]);
      SumInsert(s[0], Sort(s[1..]));
    }
  }

  // ---------------------------------------------------------------------
  // Median
  // ---------------------------------------------------------------------

  /** The middle of a sequence: its middle element when the length is odd,
      the average of its two middle elements when the length is even. */
  function Middle(t: seq<real>): real
    requires |t| > 0
  {
    var k := |t| / 2;
    if |t| % 2 == 1 then t[k] else (t[k - 1] + t[k]) / 2.0
  }

  /** The median: the middle of the values once sorted. */
  function Median(s: seq<real>): (m: real)
    requires |s| > 0
    ensures Min(s) <= m <= Max(s)
  {
    var t := Sort(s);
    var k := |t| / 2;
    assert t[k] in multiset(s) && t[k - 1 + |t| % 2] in multiset(s);
    Middle(t)
  }

  /** The median is the middle of EVERY ascending arrangement of the values,
      not only of the one `Sort` builds. */
  lemma MedianOfSortedPermutation(s: seq<real>, t: seq<real>)
    requires |s| > 0
    requires Sorted(t) && multiset(t) == multiset(s)
    ensures |t| == |s|
    ensures |t| % 2 == 1 ==> Median(s) == t[|t| / 2]
    ensures |t| % 2 == 0 ==> Median(s) == (t[|t| / 2 - 1] + t[|t| / 2]) / 2.0
  {
    SortedUnique(Sort(s), t);
  }

  /** Reordering the values does not change their median. */
  lemma MedianPermutation(s: seq<real>, t: seq<real>)
    requires |s| > 0
    requires multiset(s) == multiset(t)
    ensures |t| == |s| && Median(s) == Median(t)
  {
    assert |t| == |multiset(t)| == |multiset(s)| == |s|;
    SortedUnique(Sort(s), Sort(t));
  }

  // ---------------------------------------------------------------------
  // Mode
  // ---------------------------------------------------------------------

  /** How often `x` occurs in `s`. */
  function Count<T(==)>(s: seq<T>, x: T): nat
  {
    multiset(s)[x]
  }

  /** `m` is a mode of `s`: it occurs in `s` and no value of `s` occurs more
      often (a value absent from `s` occurs zero times). */
  ghost predicate IsMode<T>(s: seq<T>, m: T)
  {
    m in s && forall i :: 0 <= i < |s| ==> Count(s, s[i]) <= Count(s, m)
  }

  /** The first element of `c` whose frequency in `s` is maximal among the
      elements of `c`. */
  function MostFrequentOf<T(==)>(s: seq<T>, c: seq<T>): (m: T)
    requires |c| > 0
    ensures m in c
    ensures forall i :: 0 <= i < |c| ==> Count(s, c[i]) <= Count(s, m)
  {
    if |c| == 1 then c[0]
    else
      var rest := MostFrequentOf(s, c[1..]);
      assert forall i :: 1 <= i < |c| ==> c[i] == c[1..][i - 1];
      if Count(s, c[0]) >= Count(s, rest) then c[0] else rest
  }

  /** A most frequent value. Among tied values the one that occurs first is
      chosen; callers may rely only on its being a mode. */
  function Mode<T(==)>(s: seq<T>): (m: T)
    requires |s| > 0
    ensures IsMode(s, m)
  {
    MostFrequentOf(s, s)
  }

  /** The values of a tie are exactly those that occur as often as `Mode`'s
      result: `Mode` returns one of the tied values, and every tied value is a
      mode. */
  lemma ModeTies<T>(s: seq<T>, x: T)
    requires |s| > 0
    ensures IsMode(s, x) <==> x in s && Count(s, x) == Count(s, Mode(s))
  {
  }

  /** When one value occurs strictly more often than every other value,
      `Mode` returns that value. */
  lemma ModeUnique<T>(s: seq<T>, u: T)
    requires |s| > 0
    requires u in s
    requires forall i :: 0 <= i < |s| && s[i] != u ==> Count(s, s[i]) < Count(s, u)
    ensures Mode(s) == u
  {
  }

  /** Reordering the values does not change the frequency of the mode, and
      the mode of one arrangement is a mode of the other. */
  lemma ModePermutation<T>(s: seq<T>, t: seq<T>)
    requires |s| > 0
    requires multiset(s) == multiset(t)
    ensures |t| == |s|
    ensures IsMode(t, Mode(s))
    ensures Count(s, Mode(s)) == Count(t, Mode(t))
  {
    assert |t| == |multiset(t)| == |multiset(s)| == |s|;
    assert Mode(s) in multiset(t);
  }
}
