/** A plain JavaScript object used as a dictionary from strings to numbers,
    as the dashboard's `restaurantCounts` and `monthlySpend` are: its
    entries in insertion order, which is the order `Object.keys` and
    `Object.entries` report for keys that are not array indices. Keys are
    plain strings here: names inherited from `Object.prototype`, such as
    "constructor" or "__proto__", behave like any other key. */
module Tallies {

  datatype Entry = Entry(key: string, value: int)

  type Tally = seq<Entry>

  function Keys(t: Tally): (ks: seq<string>)
    ensures |ks| == |t|
    ensures forall i :: 0 <= i < |t| ==> ks[i] == t[i].key
  {
    if t == [] then [] else [t[0].key] + Keys(t[1..])
  }

  predicate Distinct(s: seq<string>)
  {
    forall i, j :: 0 <= i < j < |s| ==> s[i] != s[j]
  }

  /** `t[k] || 0` */
  function Get(t: Tally, k: string): int
  {
    if t == [] then 0
    else if t[0].key == k then t[0].value
    else Get(t[1..], k)
  }

  /** The sum of all values. */
  function Sum(t: Tally): int
  {
    if t == [] then 0 else t[0].value + Sum(t[1..])
  }

  /** `t[k] = (t[k] || 0) + d` */
  function Add(t: Tally, k: string, d: int): Tally
  {
    if t == [] then [Entry(k, d)]
    else if t[0].key == k then [Entry(k, t[0].value + d)] + t[1..]
    else [t[0]] + Add(t[1..], k, d)
  }

  /** Adding to a key raises its value by `d` and leaves every other
      value as it was. */
  lemma {:induction false} AddGet(t: Tally, k: string, d: int)
    ensures forall k' :: Get(Add(t, k, d), k') == Get(t, k') + (if k' == k then d else 0)
  {
    if t != [] && t[0].key != k {
      AddGet(t[1..], k, d);
      assert Add(t, k, d)[1..] == Add(t[1..], k, d);
    } else if t != [] {
      assert Add(t, k, d)[1..] == t[1..];
    }
  }

  /** A key already present keeps its place; a new key goes to the end. */
  lemma {:induction false} AddKeys(t: Tally, k: string, d: int)
    ensures Keys(Add(t, k, d)) == if k in Keys(t) then Keys(t) else Keys(t) + [k]
  {
    if t == [] {
      assert Keys([Entry(k, d)]) == [k];
    } else {
      var u := Add(t, k, d);
      assert Keys(t) == [t[0].key] + Keys(t[1..]);
      if t[0].key == k {
        assert u[1..] == t[1..];
        assert Keys(u) == [k] + Keys(t[1..]);
      } else {
        AddKeys(t[1..], k, d);
        assert u[1..] == Add(t[1..], k, d);
        assert Keys(u) == [t[0].key] + Keys(Add(t[1..], k, d));
      }
    }
  }

  /** The sum of all values grows by `d`. */
  lemma {:induction false} AddSum(t: Tally, k: string, d: int)
    ensures Sum(Add(t, k, d)) == Sum(t) + d
  {
    if t != [] && t[0].key != k {
      AddSum(t[1..], k, d);
      assert Add(t, k, d)[1..] == Add(t[1..], k, d);
    } else if t != [] {
      assert Add(t, k, d)[1..] == t[1..];
    }
  }

  /** Distinct keys stay distinct. */
  lemma AddDistinct(t: Tally, k: string, d: int)
    requires Distinct(Keys(t))
    ensures Distinct(Keys(Add(t, k, d)))
  {
    AddKeys(t, k, d);
    var ks := Keys(t);
    if k !in ks {
      var r := ks + [k];
      forall i, j | 0 <= i < j < |r| ensures r[i] != r[j] {
        assert r[i] == ks[i];
        if j < |ks| { assert r[j] == ks[j]; }
      }
    }
  }

  /** With distinct keys, an entry holds the value stored under its key. */
  lemma {:induction false} GetMember(t: Tally, e: Entry)
    requires Distinct(Keys(t)) && e in t
    ensures Get(t, e.key) == e.value
  {
    if t[0] != e {
      assert Distinct(Keys(t[1..])) by {
        assert forall i :: 0 <= i < |t| - 1 ==> Keys(t[1..])[i] == Keys(t)[i + 1];
      }
      var i :| 0 <= i < |t| && t[i] == e;
      assert t[0].key != e.key by { assert Keys(t)[0] != Keys(t)[i]; }
      GetMember(t[1..], e);
    }
  }

  /** A key that is present has an entry holding its value. */
  lemma {:induction false} EntryOfKey(t: Tally, k: string)
    requires k in Keys(t)
    ensures Entry(k, Get(t, k)) in t
  {
    if t[0].key != k {
      assert k in Keys(t[1..]) by {
        var i :| 0 <= i < |t| && Keys(t)[i] == k;
        assert Keys(t[1..])[i - 1] == k;
      }
      EntryOfKey(t[1..], k);
    }
  }

  /** The distinct elements of `s`, each where it first occurs. */
  function FirstSeen(s: seq<string>): (r: seq<string>)
    ensures forall x :: x in r <==> x in s
    ensures Distinct(r)
  {
    if s == [] then []
    else
      var p := FirstSeen(s[..|s| - 1]);
      if s[|s| - 1] in p then p else p + [s[|s| - 1]]
  }
}
