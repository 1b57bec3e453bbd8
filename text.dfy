/**
 * Character and string primitives shared by the services: Python's
 * `str.strip`, `str.lower`, `str.split(",")`, `str.join`, `in` on strings,
 * `str.find` / `str.rfind`, and the decimal rendering and zero padding that
 * JavaScript's `toString().padStart(2, '0')` performs.
 */
module Text {

  /**
   * The ASCII characters that Python's `str.strip()` and the regex `\s`
   * remove: space, tab to carriage return, and the four separators
   * `\x1c`-`\x1f`.
   */
  predicate IsSpace(c: char) {
    c == ' ' || '\t' <= c <= '\r' || '\U{001C}' <= c <= '\U{001F}'
  }

  /** ASCII lower-casing of one character. */
  function LowerChar(c: char): (r: char)
    ensures IsSpace(r) <==> IsSpace(c)
    ensures 'A' <= c <= 'Z' ==> 'a' <= r <= 'z'
  {
    if 'A' <= c <= 'Z' then (c as int + 32) as char else c
  }

  predicate IsLowerCase(s: string) {
    forall i :: 0 <= i < |s| ==> !('A' <= s[i] <= 'Z')
  }

  /** `s.lower()`: every character lower-cased, nothing else touched. */
  function Lower(s: string): (r: string)
    ensures |r| == |s|
    ensures forall i :: 0 <= i < |s| ==> r[i] == LowerChar(s[i])
    ensures IsLowerCase(r)
  {
    if s == [] then [] else [LowerChar(s[0])] + Lower(s[1..])
  }

  /** Leading whitespace removed: the result is a suffix and only spaces were dropped. */
  function TrimStart(s: string): (r: string)
    ensures |r| <= |s| && r == s[|s| - |r|..]
    ensures forall i :: 0 <= i < |s| - |r| ==> IsSpace(s[i])
    ensures r == [] || !IsSpace(r[0])
  {
    if s != [] && IsSpace(s[0]) then TrimStart(s[1..]) else s
  }

  /** Trailing whitespace removed: the result is a prefix and only spaces were dropped. */
  function TrimEnd(s: string): (r: string)
    ensures |r| <= |s| && r == s[..|r|]
    ensures forall i :: |r| <= i < |s| ==> IsSpace(s[i])
    ensures r == [] || !IsSpace(r[|r| - 1])
  {
    if s != [] && IsSpace(s[|s| - 1]) then TrimEnd(s[..|s| - 1]) else s
  }

  /** `s.strip()`. */
  function Trim(s: string): string {
    TrimEnd(TrimStart(s))
  }

  /** Python's truthiness of `s.strip()`: something is left after stripping. */
  predicate NotBlank(s: string) {
    Trim(s) != ""
  }

  predicate IsTrimmed(s: string) {
    s == [] || (!IsSpace(s[0]) && !IsSpace(s[|s| - 1]))
  }

  /** The result of `strip()` starts and ends with a non-space character. */
  lemma TrimIsTrimmed(s: string)
    ensures IsTrimmed(Trim(s))
  {
    var t := TrimStart(s);
    var r := TrimEnd(t);
    if r != [] {
      assert r[0] == t[0];
    }
  }

  /** A string without surrounding whitespace is left alone by `strip()`. */
  lemma TrimmedFixed(s: string)
    requires IsTrimmed(s)
    ensures Trim(s) == s
  {
  }

  /** `strip()` is idempotent. */
  lemma TrimIdempotent(s: string)
    ensures Trim(Trim(s)) == Trim(s)
  {
    TrimIsTrimmed(s);
    TrimmedFixed(Trim(s));
  }

  lemma {:induction false} LowerOfTrimStart(s: string)
    ensures Lower(TrimStart(s)) == TrimStart(Lower(s))
  {
    if s == [] {
    } else if IsSpace(s[0]) {
      var low := Lower(s);
      assert low[1..] == Lower(s[1..]);
      assert IsSpace(low[0]);
      calc {
        Lower(TrimStart(s));
        Lower(TrimStart(s[1..]));
        { LowerOfTrimStart(s[1..]); }
        TrimStart(Lower(s[1..]));
        TrimStart(low[1..]);
        TrimStart(low);
      }
    } else {
      assert !IsSpace(Lower(s)[0]);
    }
  }

  lemma {:induction false} LowerOfTrimEnd(s: string)
    ensures Lower(TrimEnd(s)) == TrimEnd(Lower(s))
  {
    if s != [] && IsSpace(s[|s| - 1]) {
      assert Lower(s)[..|s| - 1] == Lower(s[..|s| - 1]);
      LowerOfTrimEnd(s[..|s| - 1]);
    }
  }

  /** Lower-casing never creates or removes whitespace, so it commutes with `strip()`. */
  lemma LowerOfTrim(s: string)
    ensures Lower(Trim(s)) == Trim(Lower(s))
  {
    LowerOfTrimStart(s);
    LowerOfTrimEnd(TrimStart(s));
  }

  lemma LowerIdempotent(s: string)
    ensures Lower(Lower(s)) == Lower(s)
  {
  }

  /** The key normalisation `s.strip().lower()` is idempotent. */
  lemma StripLowerIdempotent(s: string)
    ensures Lower(Trim(Lower(Trim(s)))) == Lower(Trim(s))
  {
    LowerOfTrim(Trim(s));
    TrimIdempotent(s);
    LowerIdempotent(Trim(s));
  }

  /** `s.split(sep)`: the pieces between separators, including empty ones. */
  function Split(s: string, sep: char): (r: seq<string>)
    ensures |r| >= 1
    decreases |s|
  {
    if s == [] then [""]
    else
      var rest := Split(s[1..], sep);
      if s[0] == sep then [""] + rest
      else [[s[0]] + rest[0]] + rest[1..]
  }

  /** `sep.join(parts)`. */
  function Join(parts: seq<string>, sep: string): string {
    if parts == [] then ""
    else if |parts| == 1 then parts[0]
    else parts[0] + sep + Join(parts[1..], sep)
  }

  /** Splitting loses nothing: joining the pieces back gives the input. */
  lemma {:induction false} SplitJoin(s: string, sep: char)
    ensures Join(Split(s, sep), [sep]) == s
  {
    if s != [] {
      var rest := Split(s[1..], sep);
      SplitJoin(s[1..], sep);
      if s[0] == sep {
        assert Split(s, sep) == [""] + rest;
      } else {
        var r := Split(s, sep);
        assert r == [[s[0]] + rest[0]] + rest[1..];
        if |rest| == 1 {
          assert Join(r, [sep]) == [s[0]] + rest[0];
        } else {
          assert r[1..] == rest[1..];
          assert Join(r, [sep]) == [s[0]] + rest[0] + [sep] + Join(rest[1..], [sep]);
        }
      }
    }
  }

  /** No piece of a split contains the separator. */
  lemma {:induction false} SplitPiecesFree(s: string, sep: char)
    ensures forall p :: p in Split(s, sep) ==> sep !in p
  {
    if s != [] {
      SplitPiecesFree(s[1..], sep);
      var rest := Split(s[1..], sep);
      if s[0] != sep {
        assert rest[0] in rest;
        forall p | p in Split(s, sep) ensures sep !in p {
          if p != [s[0]] + rest[0] {
            assert p in rest[1..];
          }
        }
      }
    }
  }

  /** Python's `needle in hay` for strings. */
  predicate IsSubstring(needle: string, hay: string)
    decreases |hay|
  {
    needle <= hay || (hay != [] && IsSubstring(needle, hay[1..]))
  }

  /** `needle` occurs in `hay` starting at index `i`. */
  predicate OccursAt(needle: string, hay: string, i: int) {
    0 <= i <= |hay| - |needle| && hay[i..i + |needle|] == needle
  }

  /** The recursive definition of `in` agrees with "occurs at some index". */
  lemma {:induction false} IsSubstringAt(needle: string, hay: string)
    ensures IsSubstring(needle, hay) <==> exists i :: OccursAt(needle, hay, i)
    decreases |hay|
  {
    if needle <= hay {
      assert hay[0..|needle|] == needle;
      assert OccursAt(needle, hay, 0);
    } else if hay != [] {
      IsSubstringAt(needle, hay[1..]);
      if IsSubstring(needle, hay[1..]) {
        var i :| OccursAt(needle, hay[1..], i);
        OccursShift(needle, hay, i);
      }
      if exists i :: OccursAt(needle, hay, i) {
        var i :| OccursAt(needle, hay, i);
        OccursUnshift(needle, hay, i);
      }
    } else {
      assert |needle| > 0;
    }
  }

  /** An occurrence in the tail is one in the whole, one index later. */
  lemma OccursShift(needle: string, hay: string, i: int)
    requires hay != [] && OccursAt(needle, hay[1..], i)
    ensures OccursAt(needle, hay, i + 1)
  {
    assert hay[i + 1..i + 1 + |needle|] == hay[1..][i..i + |needle|];
  }

  /** An occurrence at index 0 is a prefix. */
  lemma OccursAtStart(needle: string, hay: string)
    requires OccursAt(needle, hay, 0)
    ensures needle <= hay
  {
    assert hay[..|needle|] == needle;
  }

  /** An occurrence past the first index is one in the tail; one at the first index is a prefix. */
  lemma OccursUnshift(needle: string, hay: string, i: int)
    requires hay != [] && !(needle <= hay) && OccursAt(needle, hay, i)
    ensures i > 0 && OccursAt(needle, hay[1..], i - 1)
  {
    if i == 0 {
      OccursAtStart(needle, hay);
    } else {
      var tail := hay[1..];
      assert tail[i - 1..i - 1 + |needle|] == needle by {
        forall j | 0 <= j < |needle| ensures tail[i - 1 + j] == needle[j] {
          assert hay[i..i + |needle|][j] == hay[i + j];
        }
      }
    }
  }

  /** `s.find(c)`: the first index of `c`, or -1. */
  function FindFirst(s: string, c: char): (r: int)
    ensures -1 <= r < |s|
    ensures r == -1 <==> c !in s
    ensures r >= 0 ==> s[r] == c && c !in s[..r]
  {
    if s == [] then -1
    else if s[0] == c then 0
    else
      var k := FindFirst(s[1..], c);
      if k == -1 then -1
      else (assert s[..k + 1] == [s[0]] + s[1..][..k]; k + 1)
  }

  /** `s.rfind(c)`: the last index of `c`, or -1. */
  function FindLast(s: string, c: char): (r: int)
    ensures -1 <= r < |s|
    ensures r == -1 <==> c !in s
    ensures r >= 0 ==> s[r] == c && c !in s[r + 1..]
  {
    if s == [] then -1
    else if s[|s| - 1] == c then |s| - 1
    else
      var k := FindLast(s[..|s| - 1], c);
      if k == -1 then (assert s == s[..|s| - 1] + [s[|s| - 1]]; -1)
      else (assert s[k + 1..] == s[..|s| - 1][k + 1..] + [s[|s| - 1]]; k)
  }

  predicate IsDigit(c: char) {
    '0' <= c <= '9'
  }

  function DigitChar(d: nat): (c: char)
    requires d < 10
    ensures IsDigit(c)
  {
    ('0' as int + d) as char
  }

  /** The decimal rendering of a natural number, without leading zeros. */
  function NatToString(n: nat): (r: string)
    ensures |r| >= 1
    ensures forall i :: 0 <= i < |r| ==> IsDigit(r[i])
  {
    if n < 10 then [DigitChar(n)] else NatToString(n / 10) + [DigitChar(n % 10)]
  }

  /** The number a string of decimal digits denotes. */
  function DigitsValue(s: string): nat
    requires forall i :: 0 <= i < |s| ==> IsDigit(s[i])
  {
    if s == [] then 0
    else
      assert IsDigit(s[|s| - 1]);
      DigitsValue(s[..|s| - 1]) * 10 + (s[|s| - 1] as int - '0' as int)
  }

  /** Reading back the decimal rendering gives the number. */
  lemma {:induction false} NatToStringRoundTrip(n: nat)
    ensures DigitsValue(NatToString(n)) == n
  {
    if n >= 10 {
      NatToStringRoundTrip(n / 10);
      var r := NatToString(n);
      assert r[..|r| - 1] == NatToString(n / 10);
    }
  }

  /** Different numbers have different decimal renderings. */
  lemma NatToStringInjective(m: nat, n: nat)
    requires NatToString(m) == NatToString(n)
    ensures m == n
  {
    NatToStringRoundTrip(m);
    NatToStringRoundTrip(n);
  }

  /** JavaScript's template rendering of an integer. */
  function IntToString(n: int): (r: string)
    ensures |r| >= 1
  {
    if n < 0 then "-" + NatToString(-n) else NatToString(n)
  }

  /** `n.toString().padStart(2, '0')`. */
  function Pad2(n: nat): (r: string)
    ensures n < 100 ==> |r| == 2
    ensures forall i :: 0 <= i < |r| ==> IsDigit(r[i])
    ensures DigitsValue(r) == n
  {
    NatToStringRoundTrip(n);
    if n < 10 then
      var r := ['0'] + NatToString(n);
      assert r[..1] == ['0'];
      r
    else NatToString(n)
  }
}
