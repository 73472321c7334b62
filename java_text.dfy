/** The option type used throughout the model for Java's nullable references. */
module Wrappers {
  datatype Option<+T> = None | Some(value: T)
}

/**
 * The behaviour of the few Java and Android library routines the tracking core relies on:
 * String.split on a one-character separator (its last element), Integer.parseInt,
 * Integer.toString, 32-bit int overflow, and Uri.getLastPathSegment.
 */
module JavaText {
  import opened Wrappers

  const IntMin: int := -0x8000_0000
  const IntMax: int := 0x7fff_ffff

  /** The text after the last occurrence of `c` in `s`, or all of `s` when `c` does not occur. */
  function AfterLast(s: string, c: char): (r: string)
    ensures c !in r
    ensures |r| <= |s|
    ensures |r| < |s| ==> s[|s| - |r| - 1] == c
  {
    if s == [] then []
    else if s[|s| - 1] == c then []
    else AfterLast(s[..|s| - 1], c) + [s[|s| - 1]]
  }

  /** AfterLast yields a suffix of its argument. */
  lemma {:induction false} AfterLastIsSuffix(s: string, c: char)
    ensures AfterLast(s, c) == s[|s| - |AfterLast(s, c)|..]
    decreases |s|
  {
    if s != [] && s[|s| - 1] != c {
      var front := s[..|s| - 1];
      AfterLastIsSuffix(front, c);
      assert s == front + [s[|s| - 1]];
    }
  }

  /** `s` without its trailing run of `c`. */
  function TrimTrailing(s: string, c: char): (r: string)
    ensures |r| <= |s| && r == s[..|r|]
    ensures r == [] || r[|r| - 1] != c
    ensures forall i | |r| <= i < |s| :: s[i] == c
  {
    if s == [] || s[|s| - 1] != c then s
    else TrimTrailing(s[..|s| - 1], c)
  }

  /**
   * The last element of Java's `s.split(sep)` for a one-character separator that is not a
   * regular-expression metacharacter. split drops trailing empty strings, so a non-empty
   * string made only of separators splits into no elements at all: there the Java code
   * indexes position -1 and throws, which is None here. The empty string splits into [""].
   */
  function LastSplitSegment(s: string, sep: char): (r: Option<string>)
    ensures r.None? <==> s != [] && forall i | 0 <= i < |s| :: s[i] == sep
    ensures r.Some? ==> sep !in r.value
  {
    var t := TrimTrailing(s, sep);
    if t == [] && s != [] then None else Some(AfterLast(t, sep))
  }

  lemma {:induction false} AfterLastOfAppended(p: string, d: string, c: char)
    requires c !in d
    requires p == [] || p[|p| - 1] == c
    ensures AfterLast(p + d, c) == d
    decreases |d|
  {
    if d == [] {
      assert p + d == p;
    } else {
      var s, d' := p + d, d[..|d| - 1];
      assert s[|s| - 1] == d[|d| - 1] && d[|d| - 1] != c;
      assert s[..|s| - 1] == p + d';
      AfterLastOfAppended(p, d', c);
      assert AfterLast(s, c) == d' + [d[|d| - 1]];
      assert d == d' + [d[|d| - 1]];
    }
  }

  /** When a name is a prefix ending in the separator followed by a separator-free text,
      split's last element is that text. */
  lemma LastSplitSegmentOfAppended(p: string, d: string, sep: char)
    requires d != [] && sep !in d
    requires p == [] || p[|p| - 1] == sep
    ensures LastSplitSegment(p + d, sep) == Some(d)
  {
    assert (p + d)[|p + d| - 1] == d[|d| - 1];
    assert TrimTrailing(p + d, sep) == p + d;
    AfterLastOfAppended(p, d, sep);
  }

  predicate IsDigit(ch: char) {
    '0' <= ch <= '9'
  }

  predicate AllDigits(s: string) {
    forall i | 0 <= i < |s| :: IsDigit(s[i])
  }

  function DigitChar(d: nat): (ch: char)
    requires d < 10
    ensures IsDigit(ch) && (ch as int) - ('0' as int) == d
  {
    (('0' as int) + d) as char
  }

  /** The value of a string of decimal digits, most significant first. */
  function DigitsValue(s: string): nat
    requires AllDigits(s)
  {
    if s == [] then 0
    else DigitsValue(s[..|s| - 1]) * 10 + ((s[|s| - 1] as int) - ('0' as int))
  }

  /** Integer.toString of a non-negative value: its shortest decimal representation. */
  function NatToDecimal(n: nat): (r: string)
    ensures r != [] && AllDigits(r)
    ensures r[0] == '0' ==> n == 0
  {
    if n < 10 then [DigitChar(n)] else NatToDecimal(n / 10) + [DigitChar(n % 10)]
  }

  /** Integer.toString / Long.toString: a minus sign for negative values, then the digits. */
  function IntToString(n: int): (r: string)
    ensures r != [] && '/' !in r
    ensures n >= 0 ==> AllDigits(r)
    ensures n < 0 ==> r[0] == '-' && AllDigits(r[1..])
  {
    if n < 0 then "-" + NatToDecimal(-n) else NatToDecimal(n)
  }

  /**
   * Long.parseLong without its range check: an optional '+' or '-' sign followed by at
   * least one ASCII digit; anything else is a NumberFormatException, here None.
   */
  function ParseInteger(s: string): (r: Option<int>)
    ensures r.Some? <==> (s != [] && AllDigits(s)) || (|s| >= 2 && s[0] in "+-" && AllDigits(s[1..]))
    ensures s != [] && AllDigits(s) ==> r == Some(DigitsValue(s))
    ensures |s| >= 2 && s[0] == '+' && AllDigits(s[1..]) ==> r == Some(DigitsValue(s[1..]))
    ensures |s| >= 2 && s[0] == '-' && AllDigits(s[1..]) ==> r.Some? && r.value == -(DigitsValue(s[1..]) as int)
  {
    if s != [] && (s[0] == '-' || s[0] == '+') then
      var body := s[1..];
      if body != [] && AllDigits(body) then
        var v: int := DigitsValue(body);
        Some(if s[0] == '-' then -v else v)
      else None
    else if s != [] && AllDigits(s) then Some(DigitsValue(s))
    else None
  }

  /** Integer.parseInt: as ParseInteger, and the value must fit in 32 bits. */
  function ParseInt(s: string): (r: Option<int>)
    ensures r.Some? ==> IntMin <= r.value <= IntMax && ParseInteger(s) == r
    ensures r.None? ==> ParseInteger(s).None? || ParseInteger(s).value < IntMin || IntMax < ParseInteger(s).value
  {
    match ParseInteger(s)
    case Some(v) => if IntMin <= v <= IntMax then Some(v) else None
    case None => None
  }

  /** Java's 32-bit two's-complement wrap-around of an int-typed result. */
  function Wrap32(x: int): (r: int)
    ensures IntMin <= r <= IntMax
    ensures (x - r) % 0x1_0000_0000 == 0
    ensures IntMin <= x <= IntMax ==> r == x
  {
    (x - IntMin) % 0x1_0000_0000 + IntMin
  }

  lemma {:induction false} DigitsValueOfNatToDecimal(n: nat)
    ensures DigitsValue(NatToDecimal(n)) == n
    decreases n
  {
    var r := NatToDecimal(n);
    if n < 10 {
      assert r[..|r| - 1] == [];
    } else {
      DigitsValueOfNatToDecimal(n / 10);
      assert r[..|r| - 1] == NatToDecimal(n / 10);
    }
  }

  /** Long.parseLong(Long.toString(n)) == n, for every value. */
  lemma ParseIntegerOfIntToString(n: int)
    ensures ParseInteger(IntToString(n)) == Some(n)
  {
    var s := IntToString(n);
    if n < 0 {
      assert s[1..] == NatToDecimal(-n);
      DigitsValueOfNatToDecimal(-n);
    } else {
      DigitsValueOfNatToDecimal(n);
    }
  }

  /** Integer.parseInt(Integer.toString(n)) == n, for every 32-bit value. */
  lemma ParseIntOfIntToString(n: int)
    requires IntMin <= n <= IntMax
    ensures ParseInt(IntToString(n)) == Some(n)
  {
    ParseIntegerOfIntToString(n);
  }

  /**
   * Uri.getLastPathSegment for the URIs this core stores: the text after the last '/',
   * ignoring trailing slashes; None (Java's null) when that text is empty, as for "".
   */
  function LastPathSegment(uri: string): (r: Option<string>)
    ensures r.Some? ==> r.value != [] && '/' !in r.value
    ensures uri == [] ==> r.None?
  {
    var seg := AfterLast(TrimTrailing(uri, '/'), '/');
    if seg == [] then None else Some(seg)
  }

  /** A URI has no last path segment exactly when it is made only of '/' characters. */
  lemma LastPathSegmentNone(uri: string)
    ensures LastPathSegment(uri).None? <==> forall i | 0 <= i < |uri| :: uri[i] == '/'
  {
  }

  lemma LastPathSegmentOfAppended(base: string, seg: string)
    requires seg != [] && '/' !in seg
    ensures LastPathSegment(base + "/" + seg) == Some(seg)
  {
    var p := base + "/";
    assert base + "/" + seg == p + seg;
    assert (p + seg)[|p + seg| - 1] == seg[|seg| - 1];
    assert TrimTrailing(p + seg, '/') == p + seg;
    AfterLastOfAppended(p, seg, '/');
  }

  /** Number of occurrences of `c` in `s`. */
  function CountChar(s: string, c: char): (n: nat)
    ensures n <= |s|
  {
    if s == [] then 0 else CountChar(s[..|s| - 1], c) + (if s[|s| - 1] == c then 1 else 0)
  }

  lemma {:induction false} CountCharAppend(a: string, b: string, c: char)
    ensures CountChar(a + b, c) == CountChar(a, c) + CountChar(b, c)
    decreases |b|
  {
    if b == [] {
      assert a + b == a;
    } else {
      var b' := b[..|b| - 1];
      assert (a + b)[..|a + b| - 1] == a + b';
      CountCharAppend(a, b', c);
    }
  }
}
