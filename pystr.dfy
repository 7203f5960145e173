/**
 * Python `str` operations as the pipeline uses them: `find` and `rfind`
 * (with Python's treatment of a negative or out-of-range start), slicing
 * with negative and out-of-range bounds, `strip()` over Python's whitespace
 * set, prefix and suffix tests, the one-split forms of `split`/`rsplit`,
 * and decimal formatting of integers.
 */
module PyStr {

  /** `str.isspace()` for one character: the characters Python strips by default. */
  predicate IsSpace(c: char)
  {
    ('\t' <= c <= '\r') || ('\U{1C}' <= c <= ' ') || c == '\U{85}' || c == '\U{A0}'
    || c == '\U{1680}' || ('\U{2000}' <= c <= '\U{200A}') || c == '\U{2028}'
    || c == '\U{2029}' || c == '\U{202F}' || c == '\U{205F}' || c == '\U{3000}'
  }

  predicate AllSpace(s: string)
  {
    forall i :: 0 <= i < |s| ==> IsSpace(s[i])
  }

  /** Neither end of `s` is whitespace: what `strip()` returns. */
  predicate IsStripped(s: string)
  {
    |s| == 0 || (!IsSpace(s[0]) && !IsSpace(s[|s| - 1]))
  }

  predicate NoChar(s: string, c: char)
  {
    forall i :: 0 <= i < |s| ==> s[i] != c
  }

  /** `p` occurs in `s` starting at index `i`. */
  predicate OccursAt(s: string, p: string, i: int)
  {
    0 <= i && i + |p| <= |s| && s[i..i + |p|] == p
  }

  predicate StartsWith(s: string, p: string)
  {
    |p| <= |s| && s[..|p|] == p
  }

  predicate EndsWith(s: string, p: string)
  {
    |p| <= |s| && s[|s| - |p|..] == p
  }

  /** Python's normalisation of a slice bound `i` against a length `n`. */
  function SliceIndex(i: int, n: nat): (r: nat)
    ensures r <= n
    ensures 0 <= i <= n ==> r == i
    ensures i > n ==> r == n
    ensures i < 0 && i + n >= 0 ==> r == i + n
    ensures i + n < 0 ==> r == 0
  {
    if i < 0 then (if i + n < 0 then 0 else i + n)
    else if i > n then n
    else i
  }

  /** `s[i:j]` in Python: bounds normalised, empty when they cross. */
  function Slice(s: string, i: int, j: int): (r: string)
    ensures |r| <= |s|
    ensures 0 <= i <= j <= |s| ==> r == s[i..j]
    ensures SliceIndex(i, |s|) < SliceIndex(j, |s|) ==> r == s[SliceIndex(i, |s|)..SliceIndex(j, |s|)]
    ensures SliceIndex(j, |s|) <= SliceIndex(i, |s|) ==> r == []
  {
    var a := SliceIndex(i, |s|);
    var b := SliceIndex(j, |s|);
    if a < b then s[a..b] else []
  }

  /** The start position `str.find(sub, start)` searches from; beyond `|s|` nothing is found. */
  function FindStart(s: string, start: int): int
  {
    if start < 0 then (if start + |s| < 0 then 0 else start + |s|) else start
  }

  /** First occurrence of `p` in `s` at or after `i`, or -1. */
  function FirstFrom(s: string, p: string, i: nat): (r: int)
    requires i <= |s| + 1
    decreases |s| + 1 - i
    ensures r == -1 || (i <= r && OccursAt(s, p, r))
    ensures r == -1 ==> forall j :: i <= j ==> !OccursAt(s, p, j)
    ensures r != -1 ==> forall j :: i <= j < r ==> !OccursAt(s, p, j)
  {
    if i + |p| > |s| then -1
    else if s[i..i + |p|] == p then i
    else FirstFrom(s, p, i + 1)
  }

  /** `s.find(p, start)`. */
  function FindFrom(s: string, p: string, start: int): (r: int)
    ensures r == -1 || (FindStart(s, start) <= r && OccursAt(s, p, r))
    ensures r != -1 ==> forall j :: FindStart(s, start) <= j < r ==> !OccursAt(s, p, j)
    ensures r == -1 && FindStart(s, start) <= |s| ==>
      forall j :: FindStart(s, start) <= j ==> !OccursAt(s, p, j)
  {
    var lo := FindStart(s, start);
    if lo > |s| then -1 else FirstFrom(s, p, lo)
  }

  /** `s.find(p)`. */
  function Find(s: string, p: string): (r: int)
    ensures r == -1 || OccursAt(s, p, r)
    ensures r != -1 ==> forall j :: 0 <= j < r ==> !OccursAt(s, p, j)
    ensures r == -1 ==> forall j :: !OccursAt(s, p, j)
  {
    FindFrom(s, p, 0)
  }

  /** `p in s`. */
  predicate Contains(s: string, p: string)
  {
    Find(s, p) != -1
  }

  /** Last occurrence of `p` in `s` starting at or before `i`, or -1. */
  function LastUpTo(s: string, p: string, i: int): (r: int)
    requires i <= |s|
    decreases i + 1
    ensures r == -1 || (r <= i && OccursAt(s, p, r))
    ensures r == -1 ==> forall j :: j <= i ==> !OccursAt(s, p, j)
    ensures r != -1 ==> forall j :: r < j <= i ==> !OccursAt(s, p, j)
  {
    if i < 0 then -1
    else if i + |p| <= |s| && s[i..i + |p|] == p then i
    else LastUpTo(s, p, i - 1)
  }

  /** `s.rfind(p)`. */
  function RFind(s: string, p: string): (r: int)
    ensures r == -1 || OccursAt(s, p, r)
    ensures forall j :: r < j ==> !OccursAt(s, p, j)
  {
    LastUpTo(s, p, |s|)
  }

  /** `s.lstrip()`. */
  function LStrip(s: string): (r: string)
    ensures |r| <= |s| && r == s[|s| - |r|..]
    ensures AllSpace(s[..|s| - |r|])
    ensures |r| > 0 ==> !IsSpace(r[0])
  {
    if |s| > 0 && IsSpace(s[0]) then LStrip(s[1..]) else s
  }

  /** `s.rstrip()`. */
  function RStrip(s: string): (r: string)
    ensures |r| <= |s| && r == s[..|r|]
    ensures AllSpace(s[|r|..])
    ensures |r| > 0 ==> !IsSpace(r[|r| - 1])
  {
    if |s| > 0 && IsSpace(s[|s| - 1]) then RStrip(s[..|s| - 1]) else s
  }

  /** `s.strip()`. */
  function Strip(s: string): (r: string)
    ensures IsStripped(r)
    ensures |r| <= |s|
  {
    RStrip(LStrip(s))
  }

  /** `s.lstrip(c)` for a single character `c`. */
  function LStripChar(s: string, c: char): (r: string)
    ensures |r| <= |s| && r == s[|s| - |r|..]
    ensures forall i :: 0 <= i < |s| - |r| ==> s[i] == c
    ensures |r| > 0 ==> r[0] != c
  {
    if |s| > 0 && s[0] == c then LStripChar(s[1..], c) else s
  }

  /** `s.rstrip(c)` for a single character `c`. */
  function RStripChar(s: string, c: char): (r: string)
    ensures |r| <= |s| && r == s[..|r|]
    ensures forall i :: |r| <= i < |s| ==> s[i] == c
    ensures |r| > 0 ==> r[|r| - 1] != c
  {
    if |s| > 0 && s[|s| - 1] == c then RStripChar(s[..|s| - 1], c) else s
  }

  /** `s.rsplit(sep, 1)[-1]`: the part after the last separator, or all of `s`. */
  function AfterLast(s: string, sep: char): (r: string)
    ensures NoChar(r, sep)
    ensures |r| <= |s| && r == s[|s| - |r|..]
    ensures NoChar(s, sep) ==> r == s
    ensures !NoChar(s, sep) ==> s[|s| - |r| - 1] == sep
  {
    CharOccurs(s, sep);
    var i := RFind(s, [sep]);
    if i == -1 then s else s[i + 1..]
  }

  /** `s.rsplit(sep, 1)[0]`: the part before the last separator, or all of `s`. */
  function BeforeLast(s: string, sep: char): (r: string)
    ensures |r| <= |s| && r == s[..|r|]
    ensures NoChar(s, sep) ==> r == s
    ensures !NoChar(s, sep) ==> s == r + [sep] + AfterLast(s, sep)
  {
    CharOccurs(s, sep);
    var i := RFind(s, [sep]);
    if i == -1 then s
    else
      assert AfterLast(s, sep) == s[i + 1..];
      assert s == s[..i] + [s[i]] + s[i + 1..];
      s[..i]
  }

  /** `s.find(c)` for one character: the first index holding `c`, or -1 when none does. */
  lemma FindChar(s: string, c: char)
    ensures Find(s, [c]) == -1 <==> NoChar(s, c)
    ensures Find(s, [c]) != -1 ==>
      var i := Find(s, [c]);
      0 <= i < |s| && s[i] == c && NoChar(s[..i], c)
  {
    CharOccurs(s, c);
    var i := Find(s, [c]);
    if i != -1 {
      forall j | 0 <= j < i ensures s[..i][j] != c {
        assert !OccursAt(s, [c], j);
      }
    }
  }

  /** Cutting `s` at the first `c`: the part before holds no `c`. */
  lemma SplitAtFirst(s: string, c: char)
    requires !NoChar(s, c)
    ensures var i := Find(s, [c]);
      0 <= i < |s| && NoChar(s[..i], c) && s == s[..i] + [c] + s[i + 1..]
  {
    FindChar(s, c);
    var i := Find(s, [c]);
    assert s == s[..i] + [s[i]] + s[i + 1..];
  }

  /** A one-character pattern occurs exactly where that character stands. */
  lemma CharOccurs(s: string, c: char)
    ensures forall i :: OccursAt(s, [c], i) <==> 0 <= i < |s| && s[i] == c
  {
    forall i | 0 <= i < |s| ensures OccursAt(s, [c], i) <==> s[i] == c {
      assert s[i..i + 1] == [s[i]];
    }
  }

  /** ASCII letters lowered; other characters kept. */
  function LowerAscii(s: string): (r: string)
    ensures |r| == |s|
    ensures forall i :: 0 <= i < |s| ==> r[i] == LowerChar(s[i])
  {
    if |s| == 0 then [] else [LowerChar(s[0])] + LowerAscii(s[1..])
  }

  function LowerChar(c: char): char
  {
    if 'A' <= c <= 'Z' then (c as int + 32) as char else c
  }

  function UpperChar(c: char): char
  {
    if 'a' <= c <= 'z' then (c as int - 32) as char else c
  }

  /** ASCII letters raised; other characters kept. */
  function UpperAscii(s: string): (r: string)
    ensures |r| == |s|
    ensures forall i :: 0 <= i < |s| ==> r[i] == UpperChar(s[i])
  {
    if |s| == 0 then [] else [UpperChar(s[0])] + UpperAscii(s[1..])
  }

  function DigitChar(d: nat): char
    requires d < 10
  {
    ('0' as int + d) as char
  }

  /** Decimal digits of a natural number, without leading zeros. */
  function NatToDecimal(n: nat): (r: string)
    ensures |r| >= 1
    ensures forall i :: 0 <= i < |r| ==> '0' <= r[i] <= '9'
    decreases n
  {
    if n < 10 then [DigitChar(n)] else NatToDecimal(n / 10) + [DigitChar(n % 10)]
  }

  /** `str(n)` / `f"{n}"` for a Python `int`. */
  function IntToString(n: int): (r: string)
    ensures |r| >= 1
    ensures n < 0 <==> r[0] == '-'
  {
    if n < 0 then "-" + NatToDecimal(-n) else NatToDecimal(n)
  }

  // ---------------------------------------------------------------
  // Lemmas about the primitives
  // ---------------------------------------------------------------

  /** `lstrip()` removes exactly a whitespace prefix that is followed by a non-space. */
  lemma {:induction false} LStripSpacePrefix(a: string, x: string)
    requires AllSpace(a) && (|x| == 0 || !IsSpace(x[0]))
    ensures LStrip(a + x) == x
    decreases |a|
  {
    if |a| == 0 {
      assert a + x == x;
    } else {
      assert (a + x)[0] == a[0];
      assert (a + x)[1..] == a[1..] + x;
      LStripSpacePrefix(a[1..], x);
    }
  }

  /** `rstrip()` removes exactly a whitespace suffix that follows a non-space. */
  lemma {:induction false} RStripSpaceSuffix(x: string, c: string)
    requires AllSpace(c) && (|x| == 0 || !IsSpace(x[|x| - 1]))
    ensures RStrip(x + c) == x
    decreases |c|
  {
    if |c| == 0 {
      assert x + c == x;
    } else {
      var s := x + c;
      assert s[|s| - 1] == c[|c| - 1];
      assert s[..|s| - 1] == x + c[..|c| - 1];
      RStripSpaceSuffix(x, c[..|c| - 1]);
    }
  }

  /** Stripping whitespace from both sides of a stripped text gives that text back. */
  lemma StripPadded(a: string, b: string, c: string)
    requires AllSpace(a) && AllSpace(c) && IsStripped(b)
    ensures Strip(a + b + c) == b
  {
    if |b| == 0 {
      assert a + b + c == a + c;
      assert AllSpace(a + c) by {
        forall i | 0 <= i < |a + c| ensures IsSpace((a + c)[i]) {
          if i < |a| { assert (a + c)[i] == a[i]; } else { assert (a + c)[i] == c[i - |a|]; }
        }
      }
      LStripSpacePrefix(a + c, "");
      assert a + c + "" == a + c;
      RStripSpaceSuffix("", "");
    } else {
      assert a + b + c == a + (b + c);
      LStripSpacePrefix(a, b + c);
      RStripSpaceSuffix(b, c);
    }
  }
}
