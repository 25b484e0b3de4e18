/** Strings as the dashboard builds and sorts them: JavaScript's default
    string order (the order `Array.prototype.sort()` uses without a
    comparator), the decimal rendering of an integer in a template literal,
    and `String.prototype.padStart`. */
module Text {

  /** Character by character; a proper prefix comes first. A Dafny `char`
      is a whole Unicode scalar value, so this agrees with JavaScript's
      UTF-16 code-unit order only below U+10000. */
  predicate Less(a: string, b: string)
  {
    if a == [] then b != []
    else if b == [] then false
    else a[0] < b[0] || (a[0] == b[0] && Less(a[1..], b[1..]))
  }

  predicate LessEq(a: string, b: string)
  {
    a == b || Less(a, b)
  }

  lemma {:induction false} LessIrreflexive(a: string)
    ensures !Less(a, a)
  {
    if a != [] {
      LessIrreflexive(a[1..]);
    }
  }

  lemma {:induction false} LessAsymmetric(a: string, b: string)
    requires Less(a, b)
    ensures !Less(b, a)
  {
    if a != [] && b != [] && a[0] == b[0] {
      LessAsymmetric(a[1..], b[1..]);
    }
  }

  lemma {:induction false} LessTransitive(a: string, b: string, c: string)
    requires Less(a, b) && Less(b, c)
    ensures Less(a, c)
  {
    if a != [] && a[0] == b[0] && b[0] == c[0] {
      LessTransitive(a[1..], b[1..], c[1..]);
    }
  }

  lemma {:induction false} LessTotal(a: string, b: string)
    ensures a == b || Less(a, b) || Less(b, a)
  {
    if a != [] && b != [] && a[0] == b[0] {
      LessTotal(a[1..], b[1..]);
      if a[1..] == b[1..] {
        assert a == [a[0]] + a[1..] && b == [b[0]] + b[1..];
      }
    }
  }

  /** Comparing two concatenations whose first parts have the same length
      compares the first parts, and the second parts only on a tie. */
  lemma {:induction false} LessConcat(p: string, u: string, q: string, v: string)
    requires |p| == |q|
    ensures Less(p + u, q + v) <==> Less(p, q) || (p == q && Less(u, v))
  {
    if p == [] {
      assert p + u == u && q + v == v;
    } else {
      assert (p + u)[0] == p[0] && (p + u)[1..] == p[1..] + u;
      assert (q + v)[0] == q[0] && (q + v)[1..] == q[1..] + v;
      LessConcat(p[1..], u, q[1..], v);
      assert p == q <==> p[0] == q[0] && p[1..] == q[1..] by {
        if p[0] == q[0] && p[1..] == q[1..] {
          assert p == [p[0]] + p[1..] && q == [q[0]] + q[1..];
        }
      }
    }
  }

  function Digit(d: int): (c: char)
    requires 0 <= d <= 9
    ensures '0' <= c <= '9'
  {
    (48 + d) as char
  }

  /** The decimal digits of a natural number, without leading zeros. */
  function Natural(n: nat): string
    decreases n
  {
    if n < 10 then [Digit(n)] else Natural(n / 10) + [Digit(n % 10)]
  }

  /** `${n}` for an integer `n`. */
  function Decimal(n: int): string
  {
    if n < 0 then "-" + Natural(-n) else Natural(n)
  }

  /** `n` copies of `c`. */
  function Repeat(c: char, n: nat): (r: string)
    ensures |r| == n
    ensures forall i :: 0 <= i < n ==> r[i] == c
  {
    if n == 0 then [] else [c] + Repeat(c, n - 1)
  }

  /** `s.padStart(width, fill)` for a one-character `fill`: the fill goes in
      front until the string is `width` long; a longer string is unchanged. */
  function PadStart(s: string, width: nat, fill: char): (r: string)
    ensures |r| == if |s| < width then width else |s|
    ensures r[|r| - |s|..] == s
    ensures forall i :: 0 <= i < |r| - |s| ==> r[i] == fill
  {
    if |s| >= width then s else Repeat(fill, width - |s|) + s
  }

  function Pow10(w: nat): nat
  {
    if w == 0 then 1 else 10 * Pow10(w - 1)
  }

  /** The last `w` decimal digits of `n`, zero-filled on the left. */
  function Fixed(n: nat, w: nat): (r: string)
    ensures |r| == w
  {
    if w == 0 then [] else Fixed(n / 10, w - 1) + [Digit(n % 10)]
  }

  /** A four-digit number prints as exactly its four digits. */
  lemma FourDigits(n: nat)
    requires 1000 <= n <= 9999
    ensures Decimal(n) == Fixed(n, 4)
  {
    var a := n / 10;
    var b := a / 10;
    var c := b / 10;
    assert 1 <= c <= 9 && 10 <= b && 100 <= a;
    assert Natural(c) == Fixed(c, 1);
    assert Natural(b) == Fixed(b, 2);
    assert Natural(a) == Fixed(a, 3);
  }

  /** A month number padded to two places is its two fixed digits. */
  lemma TwoDigits(m: nat)
    requires 1 <= m <= 12
    ensures PadStart(Natural(m), 2, '0') == Fixed(m, 2)
  {
    assert Fixed(m / 10, 1) == [Digit(m / 10)];
    if m < 10 {
      assert Natural(m) == [Digit(m)];
      assert PadStart(Natural(m), 2, '0') == Repeat('0', 1) + [Digit(m)];
    } else {
      assert Natural(m / 10) == [Digit(1)];
    }
  }

  /** Among fixed-width digit strings, the string order is the numeric
      order, and equal strings mean equal numbers. */
  lemma {:induction false} FixedOrder(x: nat, y: nat, w: nat)
    requires x < Pow10(w) && y < Pow10(w)
    ensures Less(Fixed(x, w), Fixed(y, w)) <==> x < y
    ensures Fixed(x, w) == Fixed(y, w) <==> x == y
  {
    if w > 0 {
      var px, py := Fixed(x / 10, w - 1), Fixed(y / 10, w - 1);
      var cx, cy := Digit(x % 10), Digit(y % 10);
      FixedOrder(x / 10, y / 10, w - 1);
      LessConcat(px, [cx], py, [cy]);
      assert Less([cx], [cy]) <==> x % 10 < y % 10;
      assert x < y <==> x / 10 < y / 10 || (x / 10 == y / 10 && x % 10 < y % 10);
      assert Fixed(x, w) == Fixed(y, w) ==> px == py && cx == cy by {
        if Fixed(x, w) == Fixed(y, w) {
          assert px == Fixed(x, w)[..w - 1] && py == Fixed(y, w)[..w - 1];
          assert cx == Fixed(x, w)[w - 1] && cy == Fixed(y, w)[w - 1];
        }
      }
    }
  }
}
