/**
 * Character and string helpers shared by the naming code: ASCII digits,
 * Python's `str(n)` and `f"{n:0Wd}"` formatting of naturals, the value of a
 * digit string as Python's `int(...)` reads it, ASCII lower-casing, and the
 * code-point lexicographic order with which Python's `sorted` orders strings.
 */
module Text {

  predicate IsDigit(c: char) { '0' <= c <= '9' }

  predicate AllDigits(s: string) { forall i :: 0 <= i < |s| ==> IsDigit(s[i]) }

  function DigitChar(d: nat): (c: char)
    requires d < 10
    ensures IsDigit(c)
  {
    (('0' as int) + d) as char
  }

  function DigitValue(c: char): (d: nat)
    requires IsDigit(c)
    ensures d < 10
  {
    (c as int) - ('0' as int)
  }

  /** The integer a run of decimal digits denotes (`int("007") == 7`). */
  function DigitsValue(s: string): nat
    requires AllDigits(s)
  {
    if s == [] then 0 else 10 * DigitsValue(s[..|s| - 1]) + DigitValue(s[|s| - 1])
  }

  /** Python's `str(n)` for a natural number: no leading zeros, "0" for zero. */
  function Decimal(n: nat): (s: string)
    ensures 1 <= |s| && AllDigits(s)
    ensures DigitsValue(s) == n
    ensures n >= 10 ==> s[0] != '0'
  {
    if n < 10 then [DigitChar(n)]
    else
      var s := Decimal(n / 10) + [DigitChar(n % 10)];
      assert s[..|s| - 1] == Decimal(n / 10);
      s
  }

  function Zeros(m: nat): (z: string)
    ensures |z| == m && forall i :: 0 <= i < m ==> z[i] == '0'
  {
    if m == 0 then [] else Zeros(m - 1) + ['0']
  }

  /** Python's `f"{n:0{width}d}"`: decimal digits left-padded with zeros to at least `width`. */
  function ZeroPad(n: nat, width: nat): (s: string)
    ensures AllDigits(s)
    ensures |s| == if |Decimal(n)| < width then width else |Decimal(n)|
    ensures DigitsValue(s) == n
  {
    var d := Decimal(n);
    var s := Zeros(if |d| < width then width - |d| else 0) + d;
    LeadingZerosValue(if |d| < width then width - |d| else 0, d);
    s
  }

  lemma {:induction false} LeadingZerosValue(m: nat, s: string)
    requires AllDigits(s)
    ensures AllDigits(Zeros(m) + s)
    ensures DigitsValue(Zeros(m) + s) == DigitsValue(s)
    decreases |s|
  {
    var t := Zeros(m) + s;
    if s == [] {
      ZerosValue(m);
      assert t == Zeros(m);
    } else {
      LeadingZerosValue(m, s[..|s| - 1]);
      assert t[..|t| - 1] == Zeros(m) + s[..|s| - 1];
    }
  }

  lemma {:induction false} ZerosValue(m: nat)
    ensures AllDigits(Zeros(m)) && DigitsValue(Zeros(m)) == 0
  {
    if m > 0 {
      ZerosValue(m - 1);
      assert Zeros(m)[..m - 1] == Zeros(m - 1);
    }
  }

  /** ASCII lower-casing, as Python's `str.lower` acts on ASCII letters. */
  function Lower(s: string): (r: string)
    ensures |r| == |s|
    ensures forall i :: 0 <= i < |s| ==>
      r[i] == if 'A' <= s[i] <= 'Z' then (s[i] as int + 32) as char else s[i]
  {
    seq(|s|, i requires 0 <= i < |s| => if 'A' <= s[i] <= 'Z' then (s[i] as int + 32) as char else s[i])
  }

  /** Python's `<=` on `str`: lexicographic by code point, a proper prefix first; every string is `<=` itself and its extensions. */
  predicate LexLe(a: string, b: string)
    ensures |a| <= |b| && a == b[..|a|] ==> LexLe(a, b)
    decreases |a|
  {
    a == [] || (b != [] && (a[0] < b[0] || (a[0] == b[0] && LexLe(a[1..], b[1..]))))
  }

  lemma {:induction false} LexLeTotal(a: string, b: string)
    ensures LexLe(a, b) || LexLe(b, a)
    decreases |a|
  {
    if a != [] && b != [] && a[0] == b[0] {
      LexLeTotal(a[1..], b[1..]);
    }
  }

  lemma {:induction false} LexLeTransitive(a: string, b: string, c: string)
    requires LexLe(a, b) && LexLe(b, c)
    ensures LexLe(a, c)
    decreases |a|
  {
    if a != [] && b != [] && c != [] && a[0] == b[0] && b[0] == c[0] {
      LexLeTransitive(a[1..], b[1..], c[1..]);
    }
  }

  lemma {:induction false} LexLeAntisymmetric(a: string, b: string)
    requires LexLe(a, b) && LexLe(b, a)
    ensures a == b
    decreases |a|
  {
    if a != [] && b != [] {
      LexLeAntisymmetric(a[1..], b[1..]);
      assert a == [a[0]] + a[1..];
      assert b == [b[0]] + b[1..];
    }
  }

  predicate SortedStrings(s: seq<string>) {
    forall i, j :: 0 <= i < j < |s| ==> LexLe(s[i], s[j])
  }

  function InsertString(x: string, s: seq<string>): (r: seq<string>)
    requires SortedStrings(s)
    ensures SortedStrings(r)
    ensures multiset(r) == multiset(s) + multiset{x}
  {
    if s == [] then [x]
    else if LexLe(x, s[0]) then
      assert forall j :: 0 <= j < |s| ==> LexLe(x, s[j]) by {
        forall j | 0 < j < |s| ensures LexLe(x, s[j]) { LexLeTransitive(x, s[0], s[j]); }
      }
      SortedCons(x, s);
      [x] + s
    else
      LexLeTotal(x, s[0]);
      var t := InsertString(x, s[1..]);
      assert s == [s[0]] + s[1..];
      assert forall j :: 0 <= j < |t| ==> LexLe(s[0], t[j]) by {
        forall j | 0 <= j < |t| ensures LexLe(s[0], t[j]) {
          assert t[j] in multiset(t);
          if t[j] != x {
            assert t[j] in multiset(s[1..]);
            var k :| 0 <= k < |s[1..]| && s[1..][k] == t[j];
            assert s[k + 1] == t[j];
          }
        }
      }
      SortedCons(s[0], t);
      [s[0]] + t
  }

  /** A sorted list stays sorted under a head that is below all its elements. */
  lemma SortedCons(h: string, t: seq<string>)
    requires SortedStrings(t)
    requires forall j :: 0 <= j < |t| ==> LexLe(h, t[j])
    ensures SortedStrings([h] + t)
  {
    var r := [h] + t;
    forall i, j | 0 <= i < j < |r| ensures LexLe(r[i], r[j]) {
      if i == 0 { assert r[j] == t[j - 1]; } else { assert r[i] == t[i - 1] && r[j] == t[j - 1]; }
    }
  }

  /** Python's `sorted(...)` of a list of strings. */
  function SortStrings(s: seq<string>): (r: seq<string>)
    ensures SortedStrings(r)
    ensures multiset(r) == multiset(s)
  {
    if s == [] then []
    else
      assert s == [s[0]] + s[1..];
      InsertString(s[0], SortStrings(s[1..]))
  }

  /** Two permutations of each other with the same head have tails that are permutations of each other. */
  lemma TailMultiset<T>(x: seq<T>, y: seq<T>)
    requires x != [] && y != [] && x[0] == y[0] && multiset(x) == multiset(y)
    ensures multiset(x[1..]) == multiset(y[1..])
  {
    assert x == [x[0]] + x[1..] && y == [y[0]] + y[1..];
    assert multiset(x[1..]) == multiset(x) - multiset{x[0]};
    assert multiset(y[1..]) == multiset(y) - multiset{y[0]};
  }
}
