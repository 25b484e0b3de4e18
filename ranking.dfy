/** The data preparation of the two dashboard charts and the table:
    `Object.keys(data).sort()` for the month axis,
    `Object.entries(data).sort((a, b) => b[1] - a[1]).slice(0, 5)` for the
    top restaurants, and `orders.slice(0, 10)` for the table. Array sorting
    is stable, as the language has required since ES2019. */
module Ranking {
  import opened Text
  import opened Tallies

  // ----- the month axis ---------------------------------------------------

  predicate Ascending(s: seq<string>)
  {
    forall i, j :: 0 <= i < j < |s| ==> LessEq(s[i], s[j])
  }

  lemma LessEqTransitive(a: string, b: string, c: string)
    requires LessEq(a, b) && LessEq(b, c)
    ensures LessEq(a, c)
  {
    if a != b && b != c {
      LessTransitive(a, b, c);
    }
  }

  /** Put `x` before the first element it does not exceed. */
  function InsertString(x: string, s: seq<string>): seq<string>
  {
    if s == [] then [x]
    else if LessEq(x, s[0]) then [x] + s
    else [s[0]] + InsertString(x, s[1..])
  }

  /** `arr.sort()` on strings, written as an insertion sort. */
  function SortStrings(s: seq<string>): seq<string>
  {
    if s == [] then [] else InsertString(s[0], SortStrings(s[1..]))
  }

  lemma {:induction false} InsertStringPermutes(x: string, s: seq<string>)
    ensures multiset(InsertString(x, s)) == multiset(s) + multiset{x}
  {
    if s != [] && !LessEq(x, s[0]) {
      InsertStringPermutes(x, s[1..]);
      assert s == [s[0]] + s[1..];
    }
  }

  /** Inserting into an ascending sequence keeps it ascending. */
  lemma {:induction false} InsertStringSorted(x: string, s: seq<string>)
    requires Ascending(s)
    ensures Ascending(InsertString(x, s))
  {
    if s == [] {
    } else if LessEq(x, s[0]) {
      forall j | 0 <= j < |s| ensures LessEq(x, s[j]) {
        if j > 0 { LessEqTransitive(x, s[0], s[j]); }
      }
      AscendingCons(x, s);
    } else {
      var rest := InsertString(x, s[1..]);
      AscendingTail(s);
      InsertStringSorted(x, s[1..]);
      InsertStringPermutes(x, s[1..]);
      LessTotal(x, s[0]);
      forall j | 0 <= j < |rest| ensures LessEq(s[0], rest[j]) {
        assert rest[j] in multiset(rest);
        if rest[j] != x {
          assert rest[j] in multiset(s[1..]);
          var k :| 0 <= k < |s| - 1 && s[1..][k] == rest[j];
          assert s[k + 1] == rest[j];
        }
      }
      AscendingCons(s[0], rest);
    }
  }

  lemma AscendingCons(x: string, s: seq<string>)
    requires Ascending(s)
    requires forall j :: 0 <= j < |s| ==> LessEq(x, s[j])
    ensures Ascending([x] + s)
  {
    var r := [x] + s;
    forall i, j | 0 <= i < j < |r| ensures LessEq(r[i], r[j]) {
      assert r[j] == s[j - 1];
      if i > 0 { assert r[i] == s[i - 1]; }
    }
  }

  lemma AscendingTail(s: seq<string>)
    requires Ascending(s) && s != []
    ensures Ascending(s[1..])
  {
    forall i, j | 0 <= i < j < |s| - 1 ensures LessEq(s[1..][i], s[1..][j]) {
      assert s[1..][i] == s[i + 1] && s[1..][j] == s[j + 1];
    }
  }

  /** The sort puts the strings in ascending default string order and is a
      permutation of its input. */
  lemma {:induction false} SortStringsSorts(s: seq<string>)
    ensures Ascending(SortStrings(s))
    ensures multiset(SortStrings(s)) == multiset(s)
  {
    if s != [] {
      SortStringsSorts(s[1..]);
      InsertStringSorted(s[0], SortStrings(s[1..]));
      InsertStringPermutes(s[0], SortStrings(s[1..]));
      assert s == [s[0]] + s[1..];
    }
  }

  /** Sorting distinct keys lists each key once, in strictly increasing
      order. */
  lemma SortedKeysStrictlyIncrease(s: seq<string>)
    requires Distinct(s)
    ensures Distinct(SortStrings(s))
    ensures forall x :: x in SortStrings(s) <==> x in s
    ensures forall i, j :: 0 <= i < j < |SortStrings(s)| ==> Less(SortStrings(s)[i], SortStrings(s)[j])
  {
    var r := SortStrings(s);
    SortStringsSorts(s);
    assert forall x :: x in r <==> x in s by {
      forall x ensures x in r <==> x in s {
        assert x in r <==> x in multiset(r);
        assert x in s <==> x in multiset(s);
      }
    }
    DistinctMultiset(s);
    forall i, j | 0 <= i < j < |r| ensures r[i] != r[j] {
      if r[i] == r[j] {
        OccursTwice(r, i, j);
        assert false;
      }
    }
  }

  /** An element found at two positions occurs at least twice. */
  lemma OccursTwice<T>(r: seq<T>, i: nat, j: nat)
    requires i < j < |r| && r[i] == r[j]
    ensures multiset(r)[r[i]] >= 2
  {
    assert r == r[..i] + [r[i]] + r[i + 1..j] + [r[j]] + r[j + 1..];
  }

  /** Every element of a sequence with distinct elements occurs once. */
  lemma {:induction false} DistinctMultiset(s: seq<string>)
    requires Distinct(s)
    ensures forall x :: multiset(s)[x] <= 1
  {
    if s != [] {
      var n := |s| - 1;
      assert Distinct(s[..n]);
      DistinctMultiset(s[..n]);
      assert s == s[..n] + [s[n]];
      assert s[n] !in s[..n];
    }
  }

  /** The monthly chart: the labels are the keys in ascending string order,
      and each value is the one stored under its label. */
  function MonthlySeries(monthly: Tally): (series: (seq<string>, seq<int>))
    ensures multiset(series.0) == multiset(Keys(monthly))
    ensures Ascending(series.0)
    ensures |series.1| == |series.0|
    ensures forall i :: 0 <= i < |series.0| ==> series.1[i] == Get(monthly, series.0[i])
  {
    var labels := SortStrings(Keys(monthly));
    SortStringsSorts(Keys(monthly));
    (labels, seq(|labels|, i requires 0 <= i < |labels| => Get(monthly, labels[i])))
  }

  // ----- the top restaurants ----------------------------------------------

  predicate ByCountDesc(t: Tally)
  {
    forall i, j :: 0 <= i < j < |t| ==> t[i].value >= t[j].value
  }

  /** The entries of `t` whose count is `c`, in their order in `t`. */
  function WithCount(t: Tally, c: int): Tally
  {
    if t == [] then []
    else (if t[0].value == c then [t[0]] else []) + WithCount(t[1..], c)
  }

  /** Put `e` before the first entry whose count it reaches. */
  function InsertByCount(e: Entry, t: Tally): Tally
  {
    if t == [] then [e]
    else if t[0].value <= e.value then [e] + t
    else [t[0]] + InsertByCount(e, t[1..])
  }

  /** `entries.sort((a, b) => b[1] - a[1])`, written as an insertion sort. */
  function SortByCount(t: Tally): Tally
  {
    if t == [] then [] else InsertByCount(t[0], SortByCount(t[1..]))
  }

  lemma {:induction false} InsertByCountPermutes(e: Entry, t: Tally)
    ensures multiset(InsertByCount(e, t)) == multiset(t) + multiset{e}
  {
    if t != [] && t[0].value > e.value {
      InsertByCountPermutes(e, t[1..]);
      assert t == [t[0]] + t[1..];
    }
  }

  /** Inserting into a sequence sorted by count keeps it sorted. */
  lemma {:induction false} InsertByCountSorted(e: Entry, t: Tally)
    requires ByCountDesc(t)
    ensures ByCountDesc(InsertByCount(e, t))
  {
    if t == [] {
    } else if t[0].value <= e.value {
      ByCountCons(e, t);
    } else {
      var rest := InsertByCount(e, t[1..]);
      ByCountTail(t);
      InsertByCountSorted(e, t[1..]);
      InsertByCountPermutes(e, t[1..]);
      forall j | 0 <= j < |rest| ensures t[0].value >= rest[j].value {
        assert rest[j] in multiset(rest);
        if rest[j] != e {
          assert rest[j] in multiset(t[1..]);
          var k :| 0 <= k < |t| - 1 && t[1..][k] == rest[j];
          assert t[k + 1] == rest[j];
        }
      }
      ByCountCons(t[0], rest);
    }
  }

  lemma ByCountCons(e: Entry, t: Tally)
    requires ByCountDesc(t)
    requires forall j :: 0 <= j < |t| ==> e.value >= t[j].value
    ensures ByCountDesc([e] + t)
  {
    var r := [e] + t;
    forall i, j | 0 <= i < j < |r| ensures r[i].value >= r[j].value {
      assert r[j] == t[j - 1];
      if i > 0 { assert r[i] == t[i - 1]; }
    }
  }

  lemma ByCountTail(t: Tally)
    requires ByCountDesc(t) && t != []
    ensures ByCountDesc(t[1..])
  {
    forall i, j | 0 <= i < j < |t| - 1 ensures t[1..][i].value >= t[1..][j].value {
      assert t[1..][i] == t[i + 1] && t[1..][j] == t[j + 1];
    }
  }

  /** The sort puts the highest counts first and is a permutation of its
      input. */
  lemma {:induction false} SortByCountSorts(t: Tally)
    ensures ByCountDesc(SortByCount(t))
    ensures multiset(SortByCount(t)) == multiset(t)
  {
    if t != [] {
      SortByCountSorts(t[1..]);
      InsertByCountSorted(t[0], SortByCount(t[1..]));
      InsertByCountPermutes(t[0], SortByCount(t[1..]));
      assert t == [t[0]] + t[1..];
    }
  }

  /** Inserting `e` puts it before every entry of equal count. */
  lemma {:induction false} InsertByCountIsStable(e: Entry, t: Tally, c: int)
    ensures WithCount(InsertByCount(e, t), c) == (if e.value == c then [e] else []) + WithCount(t, c)
  {
    if t == [] {
      WithCountCons(e, [], c);
    } else if t[0].value <= e.value {
      WithCountCons(e, t, c);
    } else {
      var rest := InsertByCount(e, t[1..]);
      InsertByCountIsStable(e, t[1..], c);
      WithCountCons(t[0], rest, c);
      WithCountCons(t[0], t[1..], c);
      assert t == [t[0]] + t[1..];
      var w := WithCount(t[1..], c);
      if e.value == c {
        assert t[0].value != c;
        assert WithCount(InsertByCount(e, t), c) == [e] + w;
      } else {
        assert WithCount(rest, c) == w;
      }
    }
  }

  lemma WithCountCons(x: Entry, t: Tally, c: int)
    ensures WithCount([x] + t, c) == (if x.value == c then [x] else []) + WithCount(t, c)
  {
    assert ([x] + t)[1..] == t;
  }

  /** The sort is stable: entries with equal counts keep their relative
      order, which is the order their keys were first inserted. */
  lemma {:induction false} SortByCountIsStable(t: Tally, c: int)
    ensures WithCount(SortByCount(t), c) == WithCount(t, c)
  {
    if t != [] {
      SortByCountIsStable(t[1..], c);
      InsertByCountIsStable(t[0], SortByCount(t[1..]), c);
    }
  }

  /** `.slice(0, 5)` of the sorted entries. */
  function TopFive(counts: Tally): Tally
  {
    var sorted := SortByCount(counts);
    if |sorted| <= 5 then sorted else sorted[..5]
  }

  /** At most five entries, all taken from the counts, highest count
      first. */
  lemma TopFiveIsTop(counts: Tally)
    ensures |TopFive(counts)| == if |counts| < 5 then |counts| else 5
    ensures ByCountDesc(TopFive(counts))
    ensures multiset(TopFive(counts)) <= multiset(counts)
  {
    var sorted := SortByCount(counts);
    SortByCountSorts(counts);
    var top := TopFive(counts);
    assert |sorted| == |counts| by {
      assert |multiset(sorted)| == |multiset(counts)|;
    }
    assert sorted == top + sorted[|top|..];
    assert forall i :: 0 <= i < |top| ==> top[i] == sorted[i];
  }

  /** No entry left out has a higher count than one kept. */
  lemma TopFiveLeavesOutLower(counts: Tally)
    ensures forall e, f :: e in counts && e !in TopFive(counts) && f in TopFive(counts) ==> e.value <= f.value
  {
    var sorted := SortByCount(counts);
    SortByCountSorts(counts);
    var top := TopFive(counts);
    var rest := sorted[|top|..];
    assert sorted == top + rest;
    assert multiset(sorted) == multiset(top) + multiset(rest);
    assert forall i, j :: 0 <= j < |top| && 0 <= i < |rest| ==> top[j].value >= rest[i].value by {
      forall i, j | 0 <= j < |top| && 0 <= i < |rest| ensures top[j].value >= rest[i].value {
        assert top[j] == sorted[j] && rest[i] == sorted[|top| + i];
      }
    }
    forall e, f | e in counts && e !in top && f in top
      ensures e.value <= f.value
    {
      assert e in multiset(counts);
      assert e in multiset(rest);
      var i :| 0 <= i < |rest| && rest[i] == e;
      var j :| 0 <= j < |top| && top[j] == f;
    }
  }

  /** The keys of `ks` whose count in `m` is `c`, in their order in `ks`. */
  function CountedAs(ks: seq<string>, m: multiset<string>, c: int): seq<string>
  {
    if ks == [] then []
    else (if m[ks[0]] == c then [ks[0]] else []) + CountedAs(ks[1..], m, c)
  }

  /** When every entry carries the count `m` gives its key, the entries of
      count `c` are the keys counted as `c`, in the same order. */
  lemma {:induction false} WithCountKeys(t: Tally, m: multiset<string>, c: int)
    requires forall i :: 0 <= i < |t| ==> t[i].value == m[t[i].key]
    ensures Keys(WithCount(t, c)) == CountedAs(Keys(t), m, c)
  {
    if t != [] {
      assert forall i :: 0 <= i < |t| - 1 ==> t[1..][i] == t[i + 1];
      WithCountKeys(t[1..], m, c);
      assert Keys(t)[1..] == Keys(t[1..]);
      KeysConcat(if t[0].value == c then [t[0]] else [], WithCount(t[1..], c));
    }
  }

  lemma KeysConcat(a: Tally, b: Tally)
    ensures Keys(a + b) == Keys(a) + Keys(b)
  {
  }

  /** Cutting a tally after `n` entries cuts each count's run of entries
      somewhere, keeping its front. */
  lemma {:induction false} WithCountPrefix(t: Tally, n: nat, c: int)
    requires n <= |t|
    ensures WithCount(t[..n], c) <= WithCount(t, c)
  {
    if n > 0 {
      WithCountPrefix(t[1..], n - 1, c);
      assert t[..n] == [t[0]] + t[1..][..n - 1];
      WithCountCons(t[0], t[1..][..n - 1], c);
      WithCountCons(t[0], t[1..], c);
      assert t == [t[0]] + t[1..];
    }
  }

  /** Among equal counts, the five kept entries are the first ones in the
      order of `counts`, in that order; a tied entry left out comes after
      every tied entry kept. */
  lemma TopFiveKeepsTieOrder(counts: Tally, c: int)
    ensures WithCount(TopFive(counts), c) <= WithCount(counts, c)
  {
    var sorted := SortByCount(counts);
    SortByCountIsStable(counts, c);
    if |sorted| > 5 {
      WithCountPrefix(sorted, 5, c);
    }
  }

  // ----- the table --------------------------------------------------------

  /** `orders.slice(0, n)` */
  function FirstRows<T>(rows: seq<T>, n: nat): (r: seq<T>)
    ensures |r| == if |rows| < n then |rows| else n
    ensures r <= rows
  {
    if |rows| <= n then rows else rows[..n]
  }
}
