/**
 * Character classes and string helpers shared by the gateway's parsers.
 * JavaScript's `toLowerCase`, `trim` and `\s` are approximated on ASCII
 * (plus the no-break space). `parseInt` and template-string rendering of
 * numbers are modelled on unbounded naturals, where JavaScript uses doubles:
 * the two agree only below 2^53 (and below 10^21 for rendering).
 */
module Text {

  predicate IsDigit(c: char) { '0' <= c <= '9' }

  /** White space as `trim` and the regular expression `\s` see it (ASCII approximation). */
  predicate IsSpace(c: char) {
    c == ' ' || c == '\t' || c == '\n' || c == '\r' || c == '\U{B}' || c == '\U{C}' || c == '\U{A0}'
  }

  predicate IsUpper(c: char) { 'A' <= c <= 'Z' }

  predicate AllDigits(s: string) { forall i :: 0 <= i < |s| ==> IsDigit(s[i]) }

  predicate NoSpace(s: string) { forall i :: 0 <= i < |s| ==> !IsSpace(s[i]) }

  /** A non-empty run of non-white-space characters: one token of `split(/\s+/)`. */
  predicate IsWord(w: string) { w != [] && NoSpace(w) }

  predicate StartsWith(s: string, prefix: string) {
    |prefix| <= |s| && s[..|prefix|] == prefix
  }

  predicate EndsWith(s: string, suffix: string) {
    |suffix| <= |s| && s[|s| - |suffix|..] == suffix
  }

  function LowerChar(c: char): char {
    if IsUpper(c) then (c as int + 32) as char else c
  }

  /** `s.toLowerCase()`, on ASCII letters. */
  function Lower(s: string): (r: string)
    ensures |r| == |s|
    ensures forall i :: 0 <= i < |r| ==> !IsUpper(r[i])
    ensures forall i :: 0 <= i < |s| && !IsUpper(s[i]) ==> r[i] == s[i]
    ensures forall i :: 0 <= i < |s| && IsUpper(s[i]) ==> r[i] as int == s[i] as int + 32
  {
    seq(|s|, i requires 0 <= i < |s| => LowerChar(s[i]))
  }

  /** Lower-casing twice is lower-casing once. */
  lemma LowerIdempotent(s: string)
    ensures Lower(Lower(s)) == Lower(s)
  {
  }

  /** Lower-casing keeps a word a word. */
  lemma LowerOfWord(w: string)
    requires IsWord(w)
    ensures IsWord(Lower(w))
  {
    forall i | 0 <= i < |w|
      ensures !IsSpace(Lower(w)[i])
    {
      assert Lower(w)[i] == LowerChar(w[i]);
    }
  }

  /** `s` without its leading white space. */
  function TrimStart(s: string): (r: string)
    ensures |r| <= |s| && r == s[|s| - |r|..]
    ensures r == [] || !IsSpace(r[0])
    ensures forall i :: 0 <= i < |s| - |r| ==> IsSpace(s[i])
    decreases |s|
  {
    if s != [] && IsSpace(s[0]) then TrimStart(s[1..]) else s
  }

  /** Leading white space before a part that starts with a non-space is all
      that `TrimStart` removes. */
  lemma TrimStartOfSpaces(sp: string, u: string)
    requires forall i :: 0 <= i < |sp| ==> IsSpace(sp[i])
    requires u == [] || !IsSpace(u[0])
    ensures TrimStart(sp + u) == u
  {
    var s := sp + u;
    var r := TrimStart(s);
    assert forall i :: 0 <= i < |sp| ==> s[i] == sp[i];
    assert |u| > 0 ==> s[|sp|] == u[0];
    assert |r| == |u|;
    assert s[|sp|..] == u;
  }

  /** `s` without its trailing white space. */
  function TrimEnd(s: string): (r: string)
    ensures |r| <= |s| && r == s[..|r|]
    ensures r == [] || !IsSpace(r[|r| - 1])
    ensures forall i :: |r| <= i < |s| ==> IsSpace(s[i])
    decreases |s|
  {
    if s != [] && IsSpace(s[|s| - 1]) then TrimEnd(s[..|s| - 1]) else s
  }

  /** `s.trim()`: the slice of `s` left once the leading and the trailing white
      space are cut off. */
  function Trim(s: string): (r: string)
    ensures r == [] || (!IsSpace(r[0]) && !IsSpace(r[|r| - 1]))
    ensures |r| <= |s|
    ensures exists a :: TrimmedAt(s, a, r)
  {
    TrimBothEnds(s);
    TrimEnd(TrimStart(s))
  }

  /** Cutting the leading, then the trailing white space leaves a slice of `s`
      surrounded by white space. */
  lemma TrimBothEnds(s: string)
    ensures TrimmedAt(s, |s| - |TrimStart(s)|, TrimEnd(TrimStart(s)))
  {
    var t := TrimStart(s);
    var r := TrimEnd(t);
    var a := |s| - |t|;
    assert r == s[a..a + |r|] by {
      PrefixOfSuffix(s, a, r);
    }
    assert forall i :: a + |r| <= i < |s| ==> IsSpace(s[i]) by {
      forall i | a + |r| <= i < |s|
        ensures IsSpace(s[i])
      {
        assert s[i] == t[i - a];
      }
    }
    assert TrimmedAt(s, a, r);
  }

  /** A prefix of the suffix of `s` from `a` is the slice of `s` from `a`. */
  lemma PrefixOfSuffix(s: string, a: nat, r: string)
    requires a <= |s| && |r| <= |s| - a && r == s[a..][..|r|]
    ensures r == s[a..a + |r|]
  {
  }

  /** `r` is the slice of `s` starting at `a`, and everything around it is white space. */
  predicate TrimmedAt(s: string, a: int, r: string)
  {
    0 <= a <= |s| - |r| && r == s[a..a + |r|]
    && (forall i :: 0 <= i < a ==> IsSpace(s[i]))
    && (forall i :: a + |r| <= i < |s| ==> IsSpace(s[i]))
  }

  /** A string that neither starts nor ends with white space is its own trim. */
  lemma TrimOfTrimmed(s: string)
    requires s != [] && !IsSpace(s[0]) && !IsSpace(s[|s| - 1])
    ensures Trim(s) == s
  {
  }

  /** Number of leading characters of `s` that are not white space. */
  function WordLength(s: string): (n: nat)
    ensures n <= |s|
    ensures forall i :: 0 <= i < n ==> !IsSpace(s[i])
    ensures n < |s| ==> IsSpace(s[n])
  {
    if s == [] || IsSpace(s[0]) then 0 else 1 + WordLength(s[1..])
  }

  /** Number of leading white-space characters of `s`. */
  function SpaceRunLength(s: string): (n: nat)
    ensures n <= |s|
    ensures forall i :: 0 <= i < n ==> IsSpace(s[i])
    ensures n < |s| ==> !IsSpace(s[n])
  {
    if s == [] || !IsSpace(s[0]) then 0 else 1 + SpaceRunLength(s[1..])
  }

  /** `s.split(/\s+/).filter(Boolean)`: the white-space separated words of `s`. */
  function Words(s: string): (ws: seq<string>)
    ensures forall i :: 0 <= i < |ws| ==> IsWord(ws[i])
    ensures ws == [] <==> forall i :: 0 <= i < |s| ==> IsSpace(s[i])
    decreases |s|
  {
    if s == [] then []
    else if IsSpace(s[0]) then
      var ws := Words(s[1..]);
      assert forall i :: 1 <= i < |s| ==> s[i] == s[1..][i - 1];
      ws
    else
      var n := WordLength(s);
      [s[..n]] + Words(s[n..])
  }

  /** One unfolding of `Words` at a leading word of length `n`. */
  lemma WordsStep(s: string, n: nat)
    requires s != [] && !IsSpace(s[0]) && WordLength(s) == n
    ensures Words(s) == [s[..n]] + Words(s[n..])
  {
  }

  /** A word followed by nothing or by white space is the first word. */
  lemma WordsOfWordThen(w: string, rest: string)
    requires IsWord(w)
    requires rest == [] || IsSpace(rest[0])
    ensures Words(w + rest) == [w] + Words(rest)
  {
    var s := w + rest;
    WordLengthOfJoin(w, rest);
    assert s[0] == w[0];
    assert s[..|w|] == w;
    assert s[|w|..] == rest;
    WordsStep(s, |w|);
  }

  /** One unfolding of `Words` at a leading white-space character. */
  lemma WordsSkipSpace(s: string)
    requires s != [] && IsSpace(s[0])
    ensures Words(s) == Words(s[1..])
  {
  }

  /** The words of `ws`, each preceded by one space (`' ' + ws.join(' ')`, or empty). */
  function Spaced(ws: seq<string>): string {
    if ws == [] then [] else " " + ws[0] + Spaced(ws[1..])
  }

  /** Splitting a word followed by space-separated words gives back exactly those words. */
  lemma {:induction false} WordsOfSpaced(w: string, ws: seq<string>)
    requires IsWord(w)
    requires forall i :: 0 <= i < |ws| ==> IsWord(ws[i])
    ensures Words(w + Spaced(ws)) == [w] + ws
    decreases |ws|
  {
    WordsOfWordThen(w, Spaced(ws));
    if ws != [] {
      var t := ws[0] + Spaced(ws[1..]);
      assert Spaced(ws) == " " + t;
      assert Spaced(ws)[1..] == t;
      WordsSkipSpace(Spaced(ws));
      WordsOfSpaced(ws[0], ws[1..]);
      assert [ws[0]] + ws[1..] == ws;
    }
  }

  /** A word followed by nothing or by white space is as long as `WordLength` says. */
  lemma {:induction false} WordLengthOfJoin(w: string, rest: string)
    requires NoSpace(w)
    requires rest == [] || IsSpace(rest[0])
    ensures WordLength(w + rest) == |w|
  {
    if w != [] {
      assert (w + rest)[1..] == w[1..] + rest;
      WordLengthOfJoin(w[1..], rest);
    }
  }

  /** `xs.join(sep)`. */
  function Join(xs: seq<string>, sep: string): string {
    if xs == [] then "" else if |xs| == 1 then xs[0] else xs[0] + sep + Join(xs[1..], sep)
  }

  /** `s` occurs in `t` at offset `k`. */
  predicate OccursAt(s: string, t: string, k: int) {
    0 <= k <= |t| - |s| && t[k..k + |s|] == s
  }

  /** `s` occurs somewhere in `t`. */
  ghost predicate Occurs(s: string, t: string) {
    exists k :: OccursAt(s, t, k)
  }

  /** Each element of `xs` occurs in `xs.join(sep)`. */
  lemma {:induction false} JoinHasEach(xs: seq<string>, sep: string, i: nat)
    requires i < |xs|
    ensures Occurs(xs[i], Join(xs, sep))
  {
    var j := Join(xs, sep);
    if i == 0 {
      assert OccursAt(xs[0], j, 0);
    } else {
      JoinHasEach(xs[1..], sep, i - 1);
      var t := Join(xs[1..], sep);
      var k :| OccursAt(xs[1..][i - 1], t, k);
      var off := |xs[0]| + |sep|;
      assert j == xs[0] + sep + t;
      assert j[off + k..off + k + |xs[i]|] == t[k..k + |xs[i]|];
      assert OccursAt(xs[i], j, off + k);
    }
  }

  /** `s.split(/\s+/)`, keeping the empty fields a leading or trailing white-space run produces. */
  function SplitWs(s: string): (parts: seq<string>)
    ensures |parts| >= 1
    ensures forall i :: 0 <= i < |parts| ==> NoSpace(parts[i])
    ensures |parts[0]| <= |s| && parts[0] == s[..|parts[0]|] && (|parts[0]| < |s| ==> IsSpace(s[|parts[0]|]))
    ensures NoSpace(s) <==> parts == [s]
    decreases |s|
  {
    var i := WordLength(s);
    if i == |s| then [s]
    else
      var j := i + SpaceRunLength(s[i..]);
      [s[..i]] + SplitWs(s[j..])
  }

  /** The first non-white-space character of `s` is at `n`. */
  lemma SpaceRunLengthIs(s: string, n: nat)
    requires n <= |s| && (forall i :: 0 <= i < n ==> IsSpace(s[i])) && (n < |s| ==> !IsSpace(s[n]))
    ensures SpaceRunLength(s) == n
  {
  }

  /** A white-space run after the first field separates it from the fields of the rest. */
  lemma SplitWsOfJoin(w: string, sp: string, rest: string)
    requires NoSpace(w) && sp != [] && forall i :: 0 <= i < |sp| ==> IsSpace(sp[i])
    requires rest == [] || !IsSpace(rest[0])
    ensures SplitWs(w + sp + rest) == [w] + SplitWs(rest)
  {
    var u := sp + rest;
    var s := w + sp + rest;
    assert s == w + u;
    WordThenSpace(w, u);
    SpacesThenRest(sp, rest);
    assert s[|w|..] == u;
    assert s[|w| + |sp|..] == rest;
    SplitWsStep(s, |w|, |w| + |sp|);
  }

  /** One unfolding of `SplitWs` at a known first field and white-space run. */
  lemma SplitWsStep(s: string, i: nat, j: nat)
    requires WordLength(s) == i < |s| && i <= j <= |s|
    requires i + SpaceRunLength(s[i..]) == j
    ensures SplitWs(s) == [s[..i]] + SplitWs(s[j..])
  {
  }

  lemma WordThenSpace(w: string, u: string)
    requires NoSpace(w) && u != [] && IsSpace(u[0])
    ensures WordLength(w + u) == |w| && (w + u)[..|w|] == w && (w + u)[|w|..] == u
  {
    WordLengthOfJoin(w, u);
  }

  lemma SpacesThenRest(sp: string, rest: string)
    requires forall i :: 0 <= i < |sp| ==> IsSpace(sp[i])
    requires rest == [] || !IsSpace(rest[0])
    ensures SpaceRunLength(sp + rest) == |sp| && (sp + rest)[|sp|..] == rest
  {
    var t := sp + rest;
    assert forall i :: 0 <= i < |sp| ==> t[i] == sp[i];
    assert |sp| < |t| ==> t[|sp|] == rest[0];
    SpaceRunLengthIs(t, |sp|);
  }

  /** `s.split(sep)[0]`: the part of `s` before its first `sep`. */
  function Before(s: string, sep: char): (r: string)
    ensures sep !in r
    ensures |r| <= |s| && r == s[..|r|]
    ensures |r| < |s| ==> s[|r|] == sep
  {
    if s == [] || s[0] == sep then [] else [s[0]] + Before(s[1..], sep)
  }

  /** What precedes the first `sep` is recovered from a string built as `p + sep + rest`. */
  lemma {:induction false} BeforeOfJoin(p: string, sep: char, rest: string)
    requires sep !in p
    ensures Before(p + [sep] + rest, sep) == p
  {
    if p != [] {
      assert (p + [sep] + rest)[1..] == p[1..] + [sep] + rest;
      BeforeOfJoin(p[1..], sep, rest);
    }
  }

  /** `s.replace(/[^0-9]/g, '')`: the digits of `s`, in order. */
  function KeepDigits(s: string): (d: string)
    ensures AllDigits(d)
    ensures |d| <= |s|
    ensures AllDigits(s) ==> d == s
    ensures |s| == 1 ==> d == (if IsDigit(s[0]) then s else [])
  {
    if s == [] then []
    else (if IsDigit(s[0]) then [s[0]] else []) + KeepDigits(s[1..])
  }

  /** Digits are kept in order and non-digits dropped piece by piece: the
      digits of `a + b` are those of `a` followed by those of `b`. */
  lemma {:induction false} KeepDigitsOfJoin(a: string, b: string)
    ensures KeepDigits(a + b) == KeepDigits(a) + KeepDigits(b)
  {
    if a != [] {
      assert (a + b)[1..] == a[1..] + b;
      KeepDigitsOfJoin(a[1..], b);
    } else {
      assert a + b == b;
    }
  }

  function DigitChar(d: nat): char
    requires d < 10
  {
    ('0' as int + d) as char
  }

  function DigitValue(c: char): nat
    requires IsDigit(c)
  {
    c as int - '0' as int
  }

  /** The decimal numeral of `n`, as a template string renders a non-negative integer. */
  function Dec(n: nat): (s: string)
    ensures s != [] && AllDigits(s)
    ensures |s| > 1 ==> s[0] != '0'
  {
    if n < 10 then [DigitChar(n)] else Dec(n / 10) + [DigitChar(n % 10)]
  }

  /** `parseInt(s, 10)` for a string of decimal digits (0 for the empty string). */
  function DigitsValue(s: string): nat
    requires AllDigits(s)
  {
    if s == [] then 0 else DigitsValue(s[..|s| - 1]) * 10 + DigitValue(s[|s| - 1])
  }

  /** Reading back a rendered number gives the number. */
  lemma {:induction false} DecRoundTrip(n: nat)
    ensures DigitsValue(Dec(n)) == n
  {
    if n >= 10 {
      var s := Dec(n);
      assert s[..|s| - 1] == Dec(n / 10);
      DecRoundTrip(n / 10);
    }
  }

  /** Distinct numbers render as distinct numerals. */
  lemma DecInjective(m: nat, n: nat)
    requires Dec(m) == Dec(n)
    ensures m == n
  {
    DecRoundTrip(m);
    DecRoundTrip(n);
  }

  /** An integer rendered as a template string renders it (`-` for negatives). */
  function IntText(i: int): (s: string)
    ensures s != [] && !IsSpace(s[0])
    ensures forall k :: 0 <= k < |s| ==> IsDigit(s[k]) || s[k] == '-'
  {
    if i < 0 then "-" + Dec(-i) else Dec(i)
  }

  /** Distinct integers render as distinct strings. */
  lemma IntTextInjective(i: int, j: int)
    requires IntText(i) == IntText(j)
    ensures i == j
  {
    if i < 0 && j < 0 {
      assert Dec(-i) == IntText(i)[1..] == IntText(j)[1..] == Dec(-j);
      DecInjective(-i, -j);
    } else if i >= 0 && j >= 0 {
      DecInjective(i, j);
    }
  }

  /** The maximal run of digits at the end of `s` (what `/(\d+)$/` captures, or empty). */
  function TrailingDigits(s: string): (d: string)
    ensures AllDigits(d)
    ensures |d| <= |s| && d == s[|s| - |d|..]
    ensures |d| < |s| ==> !IsDigit(s[|s| - |d| - 1])
  {
    if s == [] || !IsDigit(s[|s| - 1]) then []
    else
      var p := s[..|s| - 1];
      var r := TrailingDigits(p);
      assert s[|s| - |r| - 1..] == p[|p| - |r|..] + [s[|s| - 1]];
      r + [s[|s| - 1]]
  }

  /** The trailing digit run of a non-digit-terminated prefix followed by digits is those digits. */
  lemma {:induction false} TrailingDigitsOfJoin(p: string, d: string)
    requires p != [] && !IsDigit(p[|p| - 1])
    requires AllDigits(d)
    ensures TrailingDigits(p + d) == d
  {
    if d != [] {
      assert (p + d)[..|p + d| - 1] == p + d[..|d| - 1];
      TrailingDigitsOfJoin(p, d[..|d| - 1]);
    }
  }

  /** The maximal run of digits at the start of `s` (what a greedy `\d+` takes). */
  function LeadingDigits(s: string): (d: string)
    ensures AllDigits(d)
    ensures |d| <= |s| && d == s[..|d|]
    ensures |d| < |s| ==> !IsDigit(s[|d|])
  {
    if s == [] || !IsDigit(s[0]) then [] else [s[0]] + LeadingDigits(s[1..])
  }
}
