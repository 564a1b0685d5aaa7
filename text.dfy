/**
 * The pieces of the JavaScript string library that the submission path relies on:
 * `String.prototype.trim`, the falsiness of the empty string (`filter(Boolean)`),
 * `Array.prototype.join` and the decimal rendering of a small number.
 */
module Text {

  /** The characters `trim` removes: ECMAScript WhiteSpace (TAB, VT, FF, ZWNBSP and the
      Unicode category Zs) and LineTerminator (LF, CR, LS, PS). */
  predicate IsWhitespace(c: char) {
    c == '\t' || c == '\U{000B}' || c == '\U{000C}' || c == '\U{FEFF}'
    || c == ' ' || c == '\U{00A0}' || c == '\U{1680}'
    || ('\U{2000}' <= c <= '\U{200A}')
    || c == '\U{202F}' || c == '\U{205F}' || c == '\U{3000}'
    || c == '\n' || c == '\r' || c == '\U{2028}' || c == '\U{2029}'
  }

  /** Every character is whitespace; the empty string is blank. */
  ghost predicate IsBlank(s: string) {
    forall i :: 0 <= i < |s| ==> IsWhitespace(s[i])
  }

  /** Drops the leading whitespace. */
  function TrimStart(s: string): string {
    if s != [] && IsWhitespace(s[0]) then TrimStart(s[1..]) else s
  }

  /** Drops the trailing whitespace. */
  function TrimEnd(s: string): string {
    if s != [] && IsWhitespace(s[|s| - 1]) then TrimEnd(s[..|s| - 1]) else s
  }

  /** `s.trim()`. */
  function Trim(s: string): string {
    TrimEnd(TrimStart(s))
  }

  /** `TrimStart` leaves the suffix of `s` that starts at its first non-whitespace
      character, having dropped only whitespace. */
  lemma {:induction false} TrimStartSpec(s: string)
    ensures |TrimStart(s)| <= |s| && TrimStart(s) == s[|s| - |TrimStart(s)|..]
    ensures forall i :: 0 <= i < |s| - |TrimStart(s)| ==> IsWhitespace(s[i])
    ensures TrimStart(s) != [] ==> !IsWhitespace(TrimStart(s)[0])
  {
    if s != [] && IsWhitespace(s[0]) {
      TrimStartSpec(s[1..]);
      forall i | 0 <= i < |s| - |TrimStart(s)| ensures IsWhitespace(s[i]) {
        if i > 0 {
          assert s[i] == s[1..][i - 1];
        }
      }
    }
  }

  /** `TrimEnd` leaves the prefix of `s` that ends at its last non-whitespace
      character, having dropped only whitespace. */
  lemma {:induction false} TrimEndSpec(s: string)
    ensures |TrimEnd(s)| <= |s| && TrimEnd(s) == s[..|TrimEnd(s)|]
    ensures forall i :: |TrimEnd(s)| <= i < |s| ==> IsWhitespace(s[i])
    ensures TrimEnd(s) != [] ==> !IsWhitespace(TrimEnd(s)[|TrimEnd(s)| - 1])
  {
    if s != [] && IsWhitespace(s[|s| - 1]) {
      TrimEndSpec(s[..|s| - 1]);
    }
  }

  /** `s.trim()` is a slice `s[lo..hi]` with only whitespace outside it and, when it is
      not empty, no whitespace at either end. */
  lemma TrimSpec(s: string)
    ensures exists lo, hi ::
              && 0 <= lo <= hi <= |s| && Trim(s) == s[lo..hi]
              && (forall i :: 0 <= i < lo ==> IsWhitespace(s[i]))
              && (forall i :: hi <= i < |s| ==> IsWhitespace(s[i]))
    ensures Trim(s) != [] ==> !IsWhitespace(Trim(s)[0]) && !IsWhitespace(Trim(s)[|Trim(s)| - 1])
  {
    var t := TrimStart(s);
    TrimStartSpec(s);
    TrimEndSpec(t);
    var lo := |s| - |t|;
    var r := Trim(s);
    assert r == s[lo..lo + |r|];
    forall i | lo + |r| <= i < |s| ensures IsWhitespace(s[i]) {
      assert s[i] == t[i - lo];
    }
  }

  /** `!s.trim()` holds exactly when `s` consists of whitespace only. */
  lemma TrimEmptyIffBlank(s: string)
    ensures Trim(s) == [] <==> IsBlank(s)
  {
    TrimSpec(s);
  }

  /** `filter(Boolean)` on an array of strings: keeps the non-empty entries in order. */
  function KeepNonEmpty(xs: seq<string>): (r: seq<string>)
    ensures |r| <= |xs|
    ensures forall i :: 0 <= i < |r| ==> r[i] != []
  {
    if xs == [] then []
    else if xs[0] == [] then KeepNonEmpty(xs[1..])
    else [xs[0]] + KeepNonEmpty(xs[1..])
  }

  /** `filter(Boolean)` keeps exactly the non-empty entries. */
  lemma {:induction false} KeepNonEmptyMembers(xs: seq<string>)
    ensures forall x :: x in KeepNonEmpty(xs) <==> x in xs && x != []
  {
    if xs != [] {
      KeepNonEmptyMembers(xs[1..]);
      assert xs == [xs[0]] + xs[1..];
    }
  }

  /** `filter(Boolean)` works piece by piece, so it keeps the order of the entries it
      keeps and keeps each as often as it occurs. */
  lemma {:induction false} KeepNonEmptyAppend(a: seq<string>, b: seq<string>)
    ensures KeepNonEmpty(a + b) == KeepNonEmpty(a) + KeepNonEmpty(b)
  {
    if a == [] {
      assert a + b == b;
    } else {
      assert (a + b)[1..] == a[1..] + b;
      KeepNonEmptyAppend(a[1..], b);
    }
  }

  /** `join('\n')`: the entries with one line feed between neighbours and none at the ends. */
  function JoinLines(xs: seq<string>): string {
    if xs == [] then []
    else if |xs| == 1 then xs[0]
    else xs[0] + "\n" + JoinLines(xs[1..])
  }

  /** The entry `x` as it appears after some earlier entry in the joined text:
      nothing at all when `filter(Boolean)` drops it, else a line feed and `x`. */
  function LineAfter(x: string): string {
    if x == [] then [] else "\n" + x
  }

  /** The text each entry of `xs` contributes after the first kept one. */
  function LinesAfter(xs: seq<string>): string {
    if xs == [] then [] else LineAfter(xs[0]) + LinesAfter(xs[1..])
  }

  /** Filtering out the empty entries and joining the rest is the same as writing the
      first (non-empty) entry and then, for each later entry, either nothing or a line
      feed and the entry: dropped entries leave no blank line behind. */
  lemma {:induction false} JoinKeptLines(x: string, xs: seq<string>)
    requires x != []
    ensures JoinLines(KeepNonEmpty([x] + xs)) == x + LinesAfter(xs)
    decreases |xs|
  {
    assert ([x] + xs)[1..] == xs;
    if xs == [] {
    } else if xs[0] == [] {
      assert KeepNonEmpty(xs) == KeepNonEmpty([xs[0]] + xs[1..]) by { assert [xs[0]] + xs[1..] == xs; }
      JoinKeptLines(x, xs[1..]);
      assert ([x] + xs[1..])[1..] == xs[1..];
    } else {
      JoinKeptLines(xs[0], xs[1..]);
      assert [xs[0]] + xs[1..] == xs;
    }
  }

  lemma LinesAfterStep(xs: seq<string>, k: nat)
    requires k < |xs|
    ensures LinesAfter(xs[k..]) == LineAfter(xs[k]) + LinesAfter(xs[k + 1..])
  {
  }

  /** `LinesAfter` of nine entries, spelled out entry by entry. */
  lemma LinesAfterNine(xs: seq<string>)
    requires |xs| == 9
    ensures LinesAfter(xs) ==
      LineAfter(xs[0]) + (LineAfter(xs[1]) + (LineAfter(xs[2]) + (LineAfter(xs[3]) + (LineAfter(xs[4])
      + (LineAfter(xs[5]) + (LineAfter(xs[6]) + (LineAfter(xs[7]) + LineAfter(xs[8]))))))))
  {
    assert xs[9..] == [];
    LinesAfterStep(xs, 8);
    LinesAfterStep(xs, 7);
    LinesAfterStep(xs, 6);
    LinesAfterStep(xs, 5);
    LinesAfterStep(xs, 4);
    LinesAfterStep(xs, 3);
    LinesAfterStep(xs, 2);
    LinesAfterStep(xs, 1);
    LinesAfterStep(xs, 0);
    assert xs[0..] == xs;
  }

  function DigitChar(d: nat): (c: char)
    requires d < 10
    ensures '0' <= c <= '9' && c as int - '0' as int == d
  {
    ('0' as int + d) as char
  }

  /** The decimal rendering of `n`, as `String(n)` gives it. */
  function Decimal(n: nat): (r: string)
    ensures |r| >= 1
    ensures forall i :: 0 <= i < |r| ==> '0' <= r[i] <= '9'
    ensures r[0] == '0' <==> n == 0
    decreases n
  {
    if n < 10 then [DigitChar(n)] else Decimal(n / 10) + [DigitChar(n % 10)]
  }

  /** The number a string of decimal digits denotes, most significant digit first. */
  function DigitsValue(s: string): int {
    if s == [] then 0 else 10 * DigitsValue(s[..|s| - 1]) + (s[|s| - 1] as int - '0' as int)
  }

  /** `Decimal(n)` denotes `n`. */
  lemma {:induction false} DecimalValue(n: nat)
    ensures DigitsValue(Decimal(n)) == n
    decreases n
  {
    if n >= 10 {
      DecimalValue(n / 10);
      var r := Decimal(n);
      assert r[..|r| - 1] == Decimal(n / 10);
    }
  }
}
