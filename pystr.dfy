/** The parts of Python's `str` that the report relies on: `split` with an
    explicit one-character separator, `strip` with and without a character
    argument, and `int(text)` for a decimal literal. Strings are `seq<char>`. */
module PyStr {
  import opened Wrappers

  /** `sep.join(pieces)`; `split` always yields at least one piece. */
  function Join(pieces: seq<string>, sep: char): string
    requires |pieces| >= 1
  {
    if |pieces| == 1 then pieces[0]
    else pieces[0] + [sep] + Join(pieces[1..], sep)
  }

  /** `s.split(sep)`: with an explicit separator Python keeps empty pieces,
      so `"".split(",")` is `[""]` and `" NY 10001".split(" ")` is
      `["", "NY", "10001"]`. */
  function Split(s: string, sep: char): (pieces: seq<string>)
    ensures |pieces| >= 1
    ensures forall i :: 0 <= i < |pieces| ==> sep !in pieces[i]
    ensures Join(pieces, sep) == s
  {
    if |s| == 0 then [""]
    else
      var rest := Split(s[1..], sep);
      if s[0] == sep then
        assert ([""] + rest)[1..] == rest;
        [""] + rest
      else
        var pieces := [[s[0]] + rest[0]] + rest[1..];
        assert pieces[1..] == rest[1..];
        assert s == [s[0]] + s[1..];
        pieces
  }

  /** Every piece is made of characters of the joined string. */
  lemma {:induction false} PieceWithin(pieces: seq<string>, sep: char, i: nat, c: char)
    requires i < |pieces| && c in pieces[i]
    ensures c in Join(pieces, sep)
  {
    if i > 0 { PieceWithin(pieces[1..], sep, i - 1, c); }
  }

  /** A string without the separator is a single piece. */
  lemma {:induction false} SplitWithoutSep(s: string, sep: char)
    requires sep !in s
    ensures Split(s, sep) == [s]
  {
    if |s| > 0 {
      assert sep !in s[1..];
      SplitWithoutSep(s[1..], sep);
      assert s == [s[0]] + s[1..];
    }
  }

  /** Splitting at a separator splits the two sides independently. */
  lemma {:induction false} SplitAtSep(a: string, b: string, sep: char)
    ensures Split(a + [sep] + b, sep) == Split(a, sep) + Split(b, sep)
  {
    if |a| == 0 {
      assert a + [sep] + b == [sep] + b;
      assert ([sep] + b)[1..] == b;
    } else {
      var s := a + [sep] + b;
      assert s[0] == a[0];
      assert s[1..] == a[1..] + [sep] + b;
      SplitAtSep(a[1..], b, sep);
    }
  }

  /** `split` undoes `join` whenever no piece holds the separator. */
  lemma {:induction false} SplitJoin(pieces: seq<string>, sep: char)
    requires |pieces| >= 1
    requires forall i :: 0 <= i < |pieces| ==> sep !in pieces[i]
    ensures Split(Join(pieces, sep), sep) == pieces
  {
    SplitWithoutSep(pieces[0], sep);
    if |pieces| > 1 {
      SplitJoin(pieces[1..], sep);
      SplitAtSep(pieces[0], Join(pieces[1..], sep), sep);
      assert pieces == [pieces[0]] + pieces[1..];
    }
  }

  /** The characters `str.isspace()` accepts, which argument-less `strip()`
      removes. */
  const Whitespace: set<char> := {
    '\t', '\n', '\U{0B}', '\U{0C}', '\r', '\U{1C}', '\U{1D}', '\U{1E}', '\U{1F}',
    ' ', '\U{85}', '\U{A0}', '\U{1680}',
    '\U{2000}', '\U{2001}', '\U{2002}', '\U{2003}', '\U{2004}', '\U{2005}',
    '\U{2006}', '\U{2007}', '\U{2008}', '\U{2009}', '\U{200A}',
    '\U{2028}', '\U{2029}', '\U{202F}', '\U{205F}', '\U{3000}'
  }

  /** Number of leading characters of `s` that lie in `cs`. */
  function LeadLen(s: string, cs: set<char>): (n: nat)
    ensures n <= |s|
    ensures forall k :: 0 <= k < n ==> s[k] in cs
    ensures n < |s| ==> s[n] !in cs
  {
    if |s| == 0 || s[0] !in cs then 0 else 1 + LeadLen(s[1..], cs)
  }

  /** Number of trailing characters of `s` that lie in `cs`. */
  function TrailLen(s: string, cs: set<char>): (n: nat)
    ensures n <= |s|
    ensures forall k :: |s| - n <= k < |s| ==> s[k] in cs
    ensures n < |s| ==> s[|s| - 1 - n] !in cs
  {
    if |s| == 0 || s[|s| - 1] !in cs then 0 else 1 + TrailLen(s[..|s| - 1], cs)
  }

  /** `r` is what is left of `s` once a prefix and a suffix made only of
      characters of `cs` are cut off. */
  ghost predicate Trims(s: string, r: string, cs: set<char>)
  {
    exists i, j :: 0 <= i <= j <= |s| && s[i..j] == r &&
      (forall k :: 0 <= k < i ==> s[k] in cs) &&
      (forall k :: j <= k < |s| ==> s[k] in cs)
  }

  /** `s.strip(chars)` with `cs` the set of `chars`; `s.strip()` is
      `Strip(s, Whitespace)`. */
  function Strip(s: string, cs: set<char>): (r: string)
    ensures Trims(s, r, cs)
    ensures forall c :: c in r ==> c in s
    ensures r == [] <==> forall k :: 0 <= k < |s| ==> s[k] in cs
    ensures r != [] ==> r[0] !in cs && r[|r| - 1] !in cs
  {
    var i := LeadLen(s, cs);
    var t := s[i..];
    var n := TrailLen(t, cs);
    CoreTrims(s, cs, i, n);
    CoreEnds(s, cs, i, n);
    t[..|t| - n]
  }

  /** What is left between the leading and the trailing run of `cs` is
      framed by those runs. */
  lemma CoreTrims(s: string, cs: set<char>, i: nat, n: nat)
    requires i == LeadLen(s, cs) && n == TrailLen(s[i..], cs)
    ensures var r := s[i..][..|s| - i - n];
      Trims(s, r, cs) && forall c :: c in r ==> c in s
  {
    var t := s[i..];
    var r := t[..|t| - n];
    var j := i + |r|;
    assert s[i..j] == r;
    forall k | j <= k < |s| ensures s[k] in cs {
      assert s[k] == t[k - i];
    }
  }

  /** What is left is empty exactly when every character lies in `cs`,
      and otherwise starts and ends outside `cs`. */
  lemma CoreEnds(s: string, cs: set<char>, i: nat, n: nat)
    requires i == LeadLen(s, cs) && n == TrailLen(s[i..], cs)
    ensures var r := s[i..][..|s| - i - n];
      && (r == [] <==> forall k :: 0 <= k < |s| ==> s[k] in cs)
      && (r != [] ==> r[0] !in cs && r[|r| - 1] !in cs)
  {
    var t := s[i..];
    var r := t[..|t| - n];
    if r == [] {
      assert i == |s|;
    } else {
      assert r[0] == s[i];
      assert r[|r| - 1] == t[|t| - 1 - n];
    }
  }

  /** The trimmed core is unique: padding a string that neither starts nor
      ends with a character of `cs` by such characters strips back to it. */
  lemma StripPadded(pre: string, core: string, post: string, cs: set<char>)
    requires forall k :: 0 <= k < |pre| ==> pre[k] in cs
    requires forall k :: 0 <= k < |post| ==> post[k] in cs
    requires core != [] ==> core[0] !in cs && core[|core| - 1] !in cs
    ensures Strip(pre + core + post, cs) == core
  {
    var s := pre + core + post;
    if core == [] {
      forall k | 0 <= k < |s| ensures s[k] in cs {
        if k < |pre| { assert s[k] == pre[k]; } else { assert s[k] == post[k - |pre|]; }
      }
    } else {
      var i := LeadLen(s, cs);
      assert s[|pre|] == core[0];
      assert i == |pre|;
      var t := s[i..];
      assert t == core + post;
      var n := TrailLen(t, cs);
      assert t[|core| - 1] == core[|core| - 1];
      assert n == |post|;
      assert t[..|t| - n] == core;
    }
  }

  /** Stripping twice changes nothing more. */
  lemma StripIdempotent(s: string, cs: set<char>)
    ensures Strip(Strip(s, cs), cs) == Strip(s, cs)
  {
    var r := Strip(s, cs);
    StripPadded([], r, [], cs);
    assert [] + r + [] == r;
  }

  predicate IsDigit(c: char) { '0' <= c <= '9' }

  predicate AllDigits(s: string) { forall k :: 0 <= k < |s| ==> IsDigit(s[k]) }

  function Pow10(n: nat): (p: nat)
    ensures p >= 1
  {
    if n == 0 then 1 else 10 * Pow10(n - 1)
  }

  /** Value of a string of decimal digits, most significant first. */
  function DecimalValue(ds: string): (v: nat)
    requires AllDigits(ds)
    ensures v < Pow10(|ds|)
  {
    if |ds| == 0 then 0
    else
      var d := ds[|ds| - 1] as int - '0' as int;
      10 * DecimalValue(ds[..|ds| - 1]) + d
  }

  /** The digit character of `d`. */
  function Digit(d: nat): (c: char)
    requires d < 10
    ensures IsDigit(c) && c as int - '0' as int == d
  {
    ('0' as int + d) as char
  }

  /** `str(n)`: the decimal digits of `n`, most significant first, without
      leading zeros. */
  function DecimalText(n: nat): (s: string)
    ensures |s| >= 1 && AllDigits(s)
    ensures |s| > 1 ==> s[0] != '0'
  {
    if n < 10 then [Digit(n)]
    else
      var front := DecimalText(n / 10);
      var s := front + [Digit(n % 10)];
      assert forall k :: 0 <= k < |front| ==> s[k] == front[k];
      s
  }

  /** Reading the digits of `n` back gives `n`. */
  lemma {:induction false} DecimalValueOfText(n: nat)
    ensures DecimalValue(DecimalText(n)) == n
  {
    if n >= 10 {
      DecimalValueOfText(n / 10);
      var s := DecimalText(n);
      assert s[..|s| - 1] == DecimalText(n / 10);
    }
  }

  /** The two-digit text of `n` (zero padded), as in `"01"`. */
  function TwoDigits(n: nat): (s: string)
    requires n < 100
  {
    [('0' as int + n / 10) as char, ('0' as int + n % 10) as char]
  }

  /** `int(s)` for a `str`: surrounding whitespace is ignored, an optional
      sign, then one or more decimal digits; anything else raises
      `ValueError`, modelled as `None`. */
  function PyInt(s: string): (r: Option<int>)
    ensures r.Some? ==> -(Pow10(|s|) as int) < r.value < Pow10(|s|)
  {
    var t := Strip(s, Whitespace);
    StripShorter(s, Whitespace);
    PowMonotone(|t|, |s|);
    ReadInt(t)
  }

  lemma StripShorter(s: string, cs: set<char>)
    ensures |Strip(s, cs)| <= |s|
  {
    var i, j := TrimsWitness(s, Strip(s, cs), cs);
  }

  /** `int` on text already stripped of whitespace. */
  function ReadInt(t: string): (r: Option<int>)
    ensures r.Some? ==> -(Pow10(|t|) as int) < r.value < Pow10(|t|)
  {
    if |t| > 0 && (t[0] == '+' || t[0] == '-') then
      var ds := t[1..];
      if |ds| > 0 && AllDigits(ds) then
        PowMonotone(|ds|, |t|);
        Some(if t[0] == '-' then -(DecimalValue(ds) as int) else DecimalValue(ds))
      else None
    else if |t| > 0 && AllDigits(t) then
      Some(DecimalValue(t))
    else None
  }

  lemma {:induction false} PowMonotone(m: nat, n: nat)
    requires m <= n
    ensures Pow10(m) <= Pow10(n)
  {
    if m < n { PowMonotone(m, n - 1); }
  }

  /** `int` reads back a zero-padded two-digit number. */
  lemma PyIntTwoDigits(n: nat)
    requires n < 100
    ensures PyInt(TwoDigits(n)) == Some(n as int)
  {
    var s := TwoDigits(n);
    assert AllDigits(s) && DecimalValue(s) == n by {
      assert s[0] as int == '0' as int + n / 10 && s[1] as int == '0' as int + n % 10;
      assert s[..1][..0] == [];
      assert DecimalValue(s[..1]) == n / 10;
      assert DecimalValue(s) == 10 * (n / 10) + n % 10;
    }
    PyIntOfDigits(s);
  }

  /** Text that neither starts nor ends with whitespace strips to itself. */
  lemma StripUnpadded(t: string, cs: set<char>)
    requires t != [] ==> t[0] !in cs && t[|t| - 1] !in cs
    ensures Strip(t, cs) == t
  {
    StripPadded([], t, [], cs);
    assert [] + t + [] == t;
  }

  /** A digit is not whitespace. */
  lemma DigitNotWhitespace(c: char)
    requires IsDigit(c)
    ensures c !in Whitespace
  {
  }

  /** A sign is not whitespace. */
  lemma SignNotWhitespace(c: char)
    requires c == '+' || c == '-'
    ensures c !in Whitespace
  {
  }

  /** One or more digits are read as their decimal value. */
  lemma PyIntOfDigits(t: string)
    requires |t| > 0 && AllDigits(t)
    ensures PyInt(t) == Some(DecimalValue(t) as int)
  {
    DigitNotWhitespace(t[0]);
    DigitNotWhitespace(t[|t| - 1]);
    PyIntOfUnpadded(t);
  }

  /** `int(str(n)) == n`: `int` reads back the decimal text of every number. */
  lemma PyIntOfDecimalText(n: nat)
    ensures PyInt(DecimalText(n)) == Some(n as int)
  {
    DecimalValueOfText(n);
    PyIntOfDigits(DecimalText(n));
  }

  /** A sign followed by digits is read as that signed number. */
  lemma PyIntOfSigned(t: string)
    requires |t| > 1 && (t[0] == '+' || t[0] == '-') && AllDigits(t[1..])
    ensures PyInt(t) == Some(if t[0] == '-' then -(DecimalValue(t[1..]) as int) else DecimalValue(t[1..]))
  {
    assert t[|t| - 1] == t[1..][|t| - 2];
    DigitNotWhitespace(t[|t| - 1]);
    SignNotWhitespace(t[0]);
    PyIntOfUnpadded(t);
  }

  /** Text that neither starts nor ends with whitespace is read as it is. */
  lemma PyIntOfUnpadded(t: string)
    requires t != [] ==> t[0] !in Whitespace && t[|t| - 1] !in Whitespace
    ensures PyInt(t) == ReadInt(t)
  {
    StripUnpadded(t, Whitespace);
  }

  /** Whitespace around the text does not change what `int` reads. */
  lemma PyIntIgnoresWhitespace(pre: string, s: string, post: string)
    requires forall k :: 0 <= k < |pre| ==> pre[k] in Whitespace
    requires forall k :: 0 <= k < |post| ==> post[k] in Whitespace
    ensures PyInt(pre + s + post) == PyInt(s)
  {
    StripAbsorbs(pre, s, post, Whitespace);
  }

  lemma SplitAround(s: string, i: nat, j: nat)
    requires i <= j <= |s|
    ensures s == s[..i] + s[i..j] + s[j..]
  {
  }

  lemma Regroup(a: string, b: string, c: string, d: string, e: string)
    ensures a + (b + c + d) + e == (a + b) + c + (d + e)
  {
  }

  lemma AllInAppend(a: string, b: string, cs: set<char>)
    requires forall k :: 0 <= k < |a| ==> a[k] in cs
    requires forall k :: 0 <= k < |b| ==> b[k] in cs
    ensures forall k :: 0 <= k < |a + b| ==> (a + b)[k] in cs
  {
    forall k | 0 <= k < |a + b| ensures (a + b)[k] in cs {
      if k < |a| { assert (a + b)[k] == a[k]; } else { assert (a + b)[k] == b[k - |a|]; }
    }
  }

  /** Stripping ignores extra padding drawn from the strip set. */
  lemma StripAbsorbs(pre: string, s: string, post: string, cs: set<char>)
    requires forall k :: 0 <= k < |pre| ==> pre[k] in cs
    requires forall k :: 0 <= k < |post| ==> post[k] in cs
    ensures Strip(pre + s + post, cs) == Strip(s, cs)
  {
    var core := Strip(s, cs);
    var i, j := TrimsWitness(s, core, cs);
    var left := pre + s[..i];
    var right := s[j..] + post;
    AllInAppend(pre, s[..i], cs);
    AllInAppend(s[j..], post, cs);
    assert pre + s + post == left + core + right by {
      SplitAround(s, i, j);
      Regroup(pre, s[..i], core, s[j..], post);
    }
    StripPadded(left, core, right, cs);
  }

  /** Where the trimmed core sits in the string. */
  lemma TrimsWitness(s: string, r: string, cs: set<char>) returns (i: nat, j: nat)
    requires Trims(s, r, cs)
    ensures i <= j <= |s| && s[i..j] == r
    ensures forall k :: 0 <= k < i ==> s[k] in cs
    ensures forall k :: j <= k < |s| ==> s[k] in cs
  {
    i, j :| 0 <= i <= j <= |s| && s[i..j] == r &&
      (forall k :: 0 <= k < i ==> s[k] in cs) &&
      (forall k :: j <= k < |s| ==> s[k] in cs);
  }

  /** `s[0:n]`: Python slicing clamps the end to the length of `s`. */
  function Prefix(s: string, n: nat): (r: string)
    ensures |r| == if n <= |s| then n else |s|
    ensures forall k :: 0 <= k < |r| ==> r[k] == s[k]
  {
    if n <= |s| then s[..n] else s
  }

  /** `s.startswith(p)`. */
  predicate StartsWith(s: string, p: string)
  {
    |p| <= |s| && s[..|p|] == p
  }

  /** `s.startswith(p)` is `s[0:len(p)] == p`. */
  lemma StartsWithIsPrefix(s: string, p: string)
    ensures StartsWith(s, p) <==> Prefix(s, |p|) == p
  {
  }
}
