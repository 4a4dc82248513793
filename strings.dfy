/** The string primitives the handlers use: `split`/`pop` on a separator,
    `String(n)` of a non-negative integer and `padStart`. */
module Strings {

  // ---- split on a separator character ----

  /** Index of the first `sep` in `s`, or `|s|` when there is none. */
  function Find(s: string, sep: char): (i: nat)
    ensures i <= |s|
    ensures sep !in s[..i]
    ensures i < |s| ==> s[i] == sep
  {
    if s == [] then 0
    else if s[0] == sep then 0
    else
      var j := Find(s[1..], sep);
      assert s[..j + 1] == [s[0]] + s[1..][..j];
      j + 1
  }

  /** The inverse of `Split`: the parts with `sep` between consecutive ones. */
  function Join(parts: seq<string>, sep: char): string
    requires |parts| >= 1
  {
    if |parts| == 1 then parts[0] else parts[0] + [sep] + Join(parts[1..], sep)
  }

  /** `s.split(sep)` for a one-character separator: the maximal runs of
      non-separator characters, so that joining them back gives `s`. */
  function Split(s: string, sep: char): (parts: seq<string>)
    ensures |parts| >= 1
    ensures forall p :: p in parts ==> sep !in p
    ensures Join(parts, sep) == s
    decreases |s|
  {
    var i := Find(s, sep);
    if i == |s| then
      assert s[..i] == s;
      [s]
    else
      var rest := Split(s[i + 1..], sep);
      var parts := [s[..i]] + rest;
      assert parts[1..] == rest;
      assert s == s[..i] + [sep] + s[i + 1..];
      parts
  }

  /** `Split` is the only decomposition of a string into separator-free parts:
      splitting a join gives the parts back. */
  lemma {:induction false} SplitJoin(parts: seq<string>, sep: char)
    requires |parts| >= 1
    requires forall p :: p in parts ==> sep !in p
    ensures Split(Join(parts, sep), sep) == parts
    decreases |parts|
  {
    var s := Join(parts, sep);
    var p := parts[0];
    assert p in parts;
    if |parts| == 1 {
      assert s == p;
      FindAbsent(s, sep);
    } else {
      var tail := parts[1..];
      forall q | q in tail ensures sep !in q { assert q in parts; }
      SplitJoin(tail, sep);
      assert s == p + [sep] + Join(tail, sep);
      FindAfter(p, Join(tail, sep), sep);
      var i := Find(s, sep);
      assert s[..i] == p;
      assert s[i + 1..] == Join(tail, sep);
    }
  }

  lemma {:induction false} FindAbsent(s: string, sep: char)
    requires sep !in s
    ensures Find(s, sep) == |s|
  {
    if s != [] {
      assert s[0] != sep;
      FindAbsent(s[1..], sep);
    }
  }

  lemma {:induction false} FindAfter(p: string, rest: string, sep: char)
    requires sep !in p
    ensures Find(p + [sep] + rest, sep) == |p|
  {
    if p != [] {
      assert p[0] != sep;
      assert (p + [sep] + rest)[1..] == p[1..] + [sep] + rest;
      FindAfter(p[1..], rest, sep);
    }
  }

  /** Joining four parts puts the separator between each two of them. */
  lemma JoinFour(a: string, b: string, c: string, d: string, sep: char)
    ensures Join([a, b, c, d], sep) == a + [sep] + b + [sep] + c + [sep] + d
  {
    assert [a, b, c, d][1..] == [b, c, d];
    assert [b, c, d][1..] == [c, d];
    assert [c, d][1..] == [d];
    assert Join([c, d], sep) == c + [sep] + d;
    assert Join([b, c, d], sep) == b + [sep] + (c + [sep] + d);
    assert Join([a, b, c, d], sep) == a + [sep] + (b + [sep] + (c + [sep] + d));
  }

  function Last<T>(xs: seq<T>): T
    requires |xs| >= 1
  {
    xs[|xs| - 1]
  }

  /** Joining a list of two or more parts ends with a separator and the last part. */
  lemma {:induction false} JoinEndsWithLast(parts: seq<string>, sep: char)
    requires |parts| >= 2
    ensures Join(parts, sep) == Join(parts[..|parts| - 1], sep) + [sep] + Last(parts)
    decreases |parts|
  {
    var tail := parts[1..];
    if |parts| == 2 {
      assert parts[..1] == [parts[0]];
    } else {
      JoinEndsWithLast(tail, sep);
      assert tail[..|tail| - 1] == parts[..|parts| - 1][1..];
      assert Last(tail) == Last(parts);
    }
  }

  /** `s.split(sep).pop()`: the text after the last `sep` of `s`, or the whole
      of `s` when it holds no `sep`. */
  function LastSegment(s: string, sep: char): (t: string)
    ensures sep !in t
    ensures |t| <= |s| && s[|s| - |t|..] == t
    ensures |t| < |s| ==> s[|s| - |t| - 1] == sep
    ensures sep !in s ==> t == s
  {
    var parts := Split(s, sep);
    assert Last(parts) in parts;
    if |parts| >= 2 then
      JoinEndsWithLast(parts, sep);
      Last(parts)
    else
      Last(parts)
  }

  // ---- decimal numerals ----

  predicate IsDigit(c: char) {
    '0' <= c <= '9'
  }

  predicate AllDigits(s: string) {
    forall i :: 0 <= i < |s| ==> IsDigit(s[i])
  }

  function DigitValue(c: char): (d: nat)
    requires IsDigit(c)
    ensures d < 10
  {
    c as int - '0' as int
  }

  function DigitChar(d: nat): (c: char)
    requires d < 10
    ensures IsDigit(c) && DigitValue(c) == d
  {
    ('0' as int + d) as char
  }

  /** The number a string of decimal digits denotes. */
  function Value(s: string): nat
    requires AllDigits(s)
  {
    if s == [] then 0 else Value(s[..|s| - 1]) * 10 + DigitValue(s[|s| - 1])
  }

  /** `String(n)` for a non-negative integer `n`: its decimal numeral,
      without leading zeros. */
  function Decimal(n: nat): (s: string)
    ensures |s| >= 1 && AllDigits(s)
    ensures |s| > 1 ==> s[0] != '0'
    ensures n < 10 ==> |s| == 1
    ensures 10 <= n < 100 ==> |s| == 2
  {
    if n < 10 then [DigitChar(n)] else Decimal(n / 10) + [DigitChar(n % 10)]
  }

  /** `Decimal` writes the number it is given: reading the numeral back gives `n`. */
  lemma {:induction false} ValueOfDecimal(n: nat)
    ensures Value(Decimal(n)) == n
  {
    if n >= 10 {
      ValueOfDecimal(n / 10);
      var s := Decimal(n);
      assert s[..|s| - 1] == Decimal(n / 10);
    }
  }

  /** `s.padStart(width, pad)` with a one-character `pad`: `s` itself when it is
      already `width` long, otherwise `s` preceded by as many `pad` as it lacks. */
  function PadStart(s: string, width: nat, pad: char): (r: string)
    ensures |r| == if |s| >= width then |s| else width
    ensures r[|r| - |s|..] == s
    ensures forall i :: 0 <= i < |r| - |s| ==> r[i] == pad
  {
    if |s| >= width then s else seq(width - |s|, _ => pad) + s
  }

  /** Leading zeros do not change the number a numeral denotes. */
  lemma {:induction false} LeadingZeros(z: string, s: string)
    requires forall i :: 0 <= i < |z| ==> z[i] == '0'
    requires AllDigits(s)
    ensures AllDigits(z + s)
    ensures Value(z + s) == Value(s)
    decreases |s|
  {
    var zs := z + s;
    assert AllDigits(zs);
    if s == [] {
      assert zs == z;
      AllZeros(z);
    } else {
      var init := s[..|s| - 1];
      assert zs[..|zs| - 1] == z + init;
      LeadingZeros(z, init);
    }
  }

  lemma {:induction false} AllZeros(z: string)
    requires forall i :: 0 <= i < |z| ==> z[i] == '0'
    ensures AllDigits(z) && Value(z) == 0
    decreases |z|
  {
    if z != [] {
      AllZeros(z[..|z| - 1]);
    }
  }
}
