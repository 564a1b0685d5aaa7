/**
 * Phone-number normalisation, run by the component's effect on every change of the
 * phone field: every ASCII hyphen is deleted, then every full-width digit
 * U+FF10..U+FF19 is mapped to the ASCII digit of the same value by subtracting 0xFEE0
 * from its code point.
 */
module Phone {

  /** The code-point distance between a full-width digit and its ASCII digit. */
  const FullWidthOffset: int := 0xFEE0

  predicate IsFullWidthDigit(c: char) {
    '\U{FF10}' <= c <= '\U{FF19}'
  }

  predicate IsAsciiDigit(c: char) {
    '0' <= c <= '9'
  }

  /** The replacement callback of the second `replace`: a full-width digit becomes the
      ASCII digit with the same value, every other character is left alone. */
  function ToHalfWidth(c: char): (d: char)
    ensures IsFullWidthDigit(c) ==> IsAsciiDigit(d) && d as int - '0' as int == c as int - 0xFF10
    ensures !IsFullWidthDigit(c) ==> d == c
    ensures d != '-' <==> c != '-'
  {
    if IsFullWidthDigit(c) then (c as int - FullWidthOffset) as char else c
  }

  /** `replace(/-/g, '')`. */
  function RemoveHyphens(s: string): string {
    if s == [] then []
    else (if s[0] == '-' then [] else [s[0]]) + RemoveHyphens(s[1..])
  }

  /** `replace(/[０-９]/g, …)`: a character-by-character map. */
  function HalfWidthDigits(s: string): (r: string)
    ensures |r| == |s|
    ensures forall i :: 0 <= i < |s| ==> r[i] == ToHalfWidth(s[i])
  {
    if s == [] then [] else [ToHalfWidth(s[0])] + HalfWidthDigits(s[1..])
  }

  /** The value the effect stores back into the phone field. */
  function Normalize(s: string): string {
    HalfWidthDigits(RemoveHyphens(s))
  }

  /** How many ASCII hyphens `s` holds. */
  function HyphenCount(s: string): nat {
    if s == [] then 0 else (if s[0] == '-' then 1 else 0) + HyphenCount(s[1..])
  }

  /** A string the effect leaves unchanged: no hyphen and no full-width digit. */
  predicate IsNormal(s: string) {
    forall i :: 0 <= i < |s| ==> s[i] != '-' && !IsFullWidthDigit(s[i])
  }

  lemma {:induction false} RemoveHyphensNoHyphen(s: string)
    ensures forall i :: 0 <= i < |RemoveHyphens(s)| ==> RemoveHyphens(s)[i] != '-'
    ensures |RemoveHyphens(s)| == |s| - HyphenCount(s)
  {
    if s != [] {
      RemoveHyphensNoHyphen(s[1..]);
    }
  }

  /** The normalised number holds no hyphen and no full-width digit. */
  lemma NormalizeIsNormal(s: string)
    ensures IsNormal(Normalize(s))
  {
    RemoveHyphensNoHyphen(s);
  }

  /** Exactly the hyphens are removed: every other character survives. */
  lemma NormalizeLength(s: string)
    ensures |Normalize(s)| == |s| - HyphenCount(s)
  {
  }

  /** A character that is not a hyphen keeps its place relative to the other kept
      characters: it moves left by the number of hyphens before it. */
  lemma {:induction false} RemoveHyphensKeepsOrder(s: string, i: nat)
    requires i < |s| && s[i] != '-'
    ensures HyphenCount(s[..i]) <= i
    ensures i - HyphenCount(s[..i]) < |RemoveHyphens(s)|
    ensures RemoveHyphens(s)[i - HyphenCount(s[..i])] == s[i]
  {
    if i == 0 {
      assert s[..0] == [];
    } else {
      RemoveHyphensKeepsOrder(s[1..], i - 1);
      assert s[..i][1..] == s[1..][..i - 1];
      assert s[..i][0] == s[0];
    }
  }

  /** Each character that is not a hyphen appears in the normalised number, converted,
      at its own position less the number of hyphens before it; with
      NormalizeLength this determines the output completely. */
  lemma NormalizeKeepsOrder(s: string, i: nat)
    requires i < |s| && s[i] != '-'
    ensures HyphenCount(s[..i]) <= i
    ensures i - HyphenCount(s[..i]) < |Normalize(s)|
    ensures Normalize(s)[i - HyphenCount(s[..i])] == ToHalfWidth(s[i])
  {
    RemoveHyphensKeepsOrder(s, i);
  }

  /** A string with no hyphen and no full-width digit is its own normalisation. */
  lemma NormalizeFixesNormal(s: string)
    requires IsNormal(s)
    ensures Normalize(s) == s
  {
    RemoveHyphensFixesNormal(s);
  }

  lemma {:induction false} RemoveHyphensFixesNormal(s: string)
    requires IsNormal(s)
    ensures RemoveHyphens(s) == s
  {
    if s != [] {
      assert IsNormal(s[1..]) by {
        forall i | 0 <= i < |s[1..]| ensures s[1..][i] != '-' && !IsFullWidthDigit(s[1..][i]) {
          assert s[1..][i] == s[i + 1];
        }
      }
      RemoveHyphensFixesNormal(s[1..]);
    }
  }

  /** Normalising twice is normalising once, so the effect that stores the normalised
      value back into the field reaches a fixed point on its second run. */
  lemma NormalizeIdempotent(s: string)
    ensures Normalize(Normalize(s)) == Normalize(s)
  {
    NormalizeIsNormal(s);
    NormalizeFixesNormal(Normalize(s));
  }

  lemma {:induction false} RemoveHyphensAppend(a: string, b: string)
    ensures RemoveHyphens(a + b) == RemoveHyphens(a) + RemoveHyphens(b)
  {
    if a == [] {
      assert a + b == b;
    } else {
      var head := if a[0] == '-' then [] else [a[0]];
      assert (a + b)[0] == a[0] && (a + b)[1..] == a[1..] + b;
      calc {
        RemoveHyphens(a + b);
        head + RemoveHyphens(a[1..] + b);
        { RemoveHyphensAppend(a[1..], b); }
        head + (RemoveHyphens(a[1..]) + RemoveHyphens(b));
        (head + RemoveHyphens(a[1..])) + RemoveHyphens(b);
        RemoveHyphens(a) + RemoveHyphens(b);
      }
    }
  }

  lemma HalfWidthDigitsAppend(a: string, b: string)
    ensures HalfWidthDigits(a + b) == HalfWidthDigits(a) + HalfWidthDigits(b)
  {
  }

  /** Normalisation works piece by piece: a number can be normalised in parts. */
  lemma NormalizeAppend(a: string, b: string)
    ensures Normalize(a + b) == Normalize(a) + Normalize(b)
  {
    RemoveHyphensAppend(a, b);
    HalfWidthDigitsAppend(RemoveHyphens(a), RemoveHyphens(b));
  }

  /** A normalised number is exactly a string the normalisation leaves unchanged. */
  lemma NormalFixedPoint(s: string)
    ensures Normalize(s) == s <==> IsNormal(s)
  {
    if IsNormal(s) {
      NormalizeFixesNormal(s);
    } else {
      NormalizeIsNormal(s);
    }
  }
}
