/** String operations of Python's `str` that the functions rely on, with
    their exact semantics for the cases the functions use. */
module Text {
  import opened Wrappers

  // ---------------------------------------------------------------------
  // str.replace
  // ---------------------------------------------------------------------

  /** `s.replace(pat, rep)`: one left-to-right scan that replaces every
      non-overlapping occurrence of `pat`; replaced text is never rescanned. */
  function ReplaceAll(s: string, pat: string, rep: string): string
    requires |pat| > 0
    decreases |s|
  {
    if |s| < |pat| then s
    else if s[..|pat|] == pat then rep + ReplaceAll(s[|pat|..], pat, rep)
    else [s[0]] + ReplaceAll(s[1..], pat, rep)
  }

  /** Replacing a single character is a pointwise substitution. */
  lemma {:induction false} ReplaceCharPointwise(s: string, c: char, d: char)
    ensures |ReplaceAll(s, [c], [d])| == |s|
    ensures forall i :: 0 <= i < |s| ==>
      ReplaceAll(s, [c], [d])[i] == (if s[i] == c then d else s[i])
    decreases |s|
  {
    if |s| >= 1 {
      ReplaceCharPointwise(s[1..], c, d);
      var r := ReplaceAll(s, [c], [d]);
      var t := ReplaceAll(s[1..], [c], [d]);
      if s[..1] == [c] {
        assert r == [d] + t;
      } else {
        assert r == [s[0]] + t;
      }
      forall i | 0 <= i < |s|
        ensures r[i] == (if s[i] == c then d else s[i])
      {
        if i > 0 {
          assert r[i] == t[i - 1];
          assert s[1..][i - 1] == s[i];
        }
      }
    }
  }

  /** Every character of the result comes from the input or from `rep`. */
  lemma {:induction false} ReplaceAllCharsFrom(s: string, pat: string, rep: string)
    requires |pat| > 0
    ensures forall i :: 0 <= i < |ReplaceAll(s, pat, rep)| ==>
      ReplaceAll(s, pat, rep)[i] in s || ReplaceAll(s, pat, rep)[i] in rep
    decreases |s|
  {
    var r := ReplaceAll(s, pat, rep);
    if |s| < |pat| {
    } else if s[..|pat|] == pat {
      ReplaceAllCharsFrom(s[|pat|..], pat, rep);
      var t := ReplaceAll(s[|pat|..], pat, rep);
      forall i | 0 <= i < |r| ensures r[i] in s || r[i] in rep {
        if i >= |rep| {
          assert r[i] == t[i - |rep|];
          if t[i - |rep|] in s[|pat|..] {
            var j :| 0 <= j < |s[|pat|..]| && s[|pat|..][j] == t[i - |rep|];
            assert s[j + |pat|] == r[i];
          }
        }
      }
    } else {
      ReplaceAllCharsFrom(s[1..], pat, rep);
      var t := ReplaceAll(s[1..], pat, rep);
      forall i | 0 <= i < |r| ensures r[i] in s || r[i] in rep {
        if i >= 1 {
          assert r[i] == t[i - 1];
          if t[i - 1] in s[1..] {
            var j :| 0 <= j < |s[1..]| && s[1..][j] == t[i - 1];
            assert s[j + 1] == r[i];
          }
        }
      }
    }
  }

  /** A replacement that is not longer than the pattern never lengthens the text. */
  lemma {:induction false} ReplaceAllShrinks(s: string, pat: string, rep: string)
    requires |pat| > 0 && |rep| <= |pat|
    ensures |ReplaceAll(s, pat, rep)| <= |s|
    decreases |s|
  {
    if |s| < |pat| {
    } else if s[..|pat|] == pat {
      ReplaceAllShrinks(s[|pat|..], pat, rep);
    } else {
      ReplaceAllShrinks(s[1..], pat, rep);
    }
  }

  /** `pat` occurs in `s` starting at `i`. */
  predicate OccursAt(s: string, pat: string, i: int)
  {
    0 <= i && i + |pat| <= |s| && s[i..i + |pat|] == pat
  }

  /** `s.startswith(p)`. */
  predicate StartsWith(s: string, p: string)
  {
    OccursAt(s, p, 0)
  }

  /** A text without any occurrence of the pattern is left unchanged. */
  lemma {:induction false} ReplaceAllAbsent(s: string, pat: string, rep: string)
    requires |pat| > 0
    requires forall i :: 0 <= i <= |s| - |pat| ==> !OccursAt(s, pat, i)
    ensures ReplaceAll(s, pat, rep) == s
    decreases |s|
  {
    if |s| >= |pat| {
      assert !OccursAt(s, pat, 0);
      assert s[0..|pat|] == s[..|pat|];
      forall i | 0 <= i <= |s[1..]| - |pat| ensures !OccursAt(s[1..], pat, i) {
        assert !OccursAt(s, pat, i + 1);
        assert s[1..][i..i + |pat|] == s[i + 1..i + 1 + |pat|];
      }
      ReplaceAllAbsent(s[1..], pat, rep);
      assert [s[0]] + s[1..] == s;
    }
  }

  /** Where no occurrence starts, the scan copies one character. */
  lemma ReplaceAllStep(s: string, pat: string, rep: string)
    requires |pat| > 0 && |s| > 0 && !OccursAt(s, pat, 0)
    ensures ReplaceAll(s, pat, rep) == [s[0]] + ReplaceAll(s[1..], pat, rep)
  {
    if |s| >= |pat| {
      assert s[0..|pat|] == s[..|pat|];
    } else {
      assert ReplaceAll(s[1..], pat, rep) == s[1..];
      assert s == [s[0]] + s[1..];
    }
  }

  /** No occurrence in the first `k` positions of `s` means none in the
      first `k - 1` positions of its tail. */
  lemma NoOccurrenceInTail(s: string, pat: string, k: nat)
    requires |s| > 0 && k <= |s|
    requires forall i :: 0 <= i < k ==> !OccursAt(s, pat, i)
    ensures forall i :: 0 <= i < k - 1 ==> !OccursAt(s[1..], pat, i)
  {
    forall i | 0 <= i < k - 1
      ensures !OccursAt(s[1..], pat, i)
    {
      assert !OccursAt(s, pat, i + 1);
      if i + |pat| <= |s| - 1 {
        assert s[1..][i..i + |pat|] == s[i + 1..i + 1 + |pat|];
      }
    }
  }

  /** A prefix in which no occurrence starts is copied verbatim. */
  lemma {:induction false} ReplaceAllSkip(s: string, pat: string, rep: string, k: nat)
    requires |pat| > 0 && k <= |s|
    requires forall i :: 0 <= i < k ==> !OccursAt(s, pat, i)
    ensures ReplaceAll(s, pat, rep) == s[..k] + ReplaceAll(s[k..], pat, rep)
    decreases k
  {
    if k > 0 {
      ReplaceAllStep(s, pat, rep);
      NoOccurrenceInTail(s, pat, k);
      var t := s[1..];
      ReplaceAllSkip(t, pat, rep, k - 1);
      assert t[k - 1..] == s[k..];
      assert s[..k] == [s[0]] + t[..k - 1];
      calc {
        ReplaceAll(s, pat, rep);
        [s[0]] + ReplaceAll(t, pat, rep);
        [s[0]] + (t[..k - 1] + ReplaceAll(s[k..], pat, rep));
        ([s[0]] + t[..k - 1]) + ReplaceAll(s[k..], pat, rep);
      }
    }
  }

  // ---------------------------------------------------------------------
  // str.join, str.lower, str.startswith
  // ---------------------------------------------------------------------

  /** `sep.join(parts)`. */
  function Join(parts: seq<string>, sep: string): string
  {
    if |parts| == 0 then ""
    else if |parts| == 1 then parts[0]
    else parts[0] + sep + Join(parts[1..], sep)
  }

  /** Joining two parts puts one separator between them. */
  lemma JoinTwo(a: string, b: string, sep: string)
    ensures Join([a, b], sep) == a + sep + b
  {
    assert [a, b][1..] == [b];
  }

  /** Joining four parts puts one separator between each neighbour pair. */
  lemma JoinFour(a: string, b: string, c: string, d: string, sep: string)
    ensures Join([a, b, c, d], sep) == a + sep + b + sep + c + sep + d
  {
    assert [a, b, c, d][1..] == [b, c, d];
    assert [b, c, d][1..] == [c, d];
    JoinTwo(c, d, sep);
  }

  /** Joining two non-empty lists is joining each and putting one
      separator between the results. */
  lemma {:induction false} JoinAppend(xs: seq<string>, ys: seq<string>, sep: string)
    requires |xs| >= 1 && |ys| >= 1
    ensures Join(xs + ys, sep) == Join(xs, sep) + sep + Join(ys, sep)
    decreases |xs|
  {
    if |xs| == 1 {
      assert (xs + ys)[1..] == ys;
    } else {
      assert (xs + ys)[1..] == xs[1..] + ys;
      JoinAppend(xs[1..], ys, sep);
    }
  }

  /** Lower-casing of one ASCII letter; every other character is unchanged. */
  function LowerChar(c: char): char
  {
    if 'A' <= c <= 'Z' then (c as int + 32) as char else c
  }

  /** `s.lower()` restricted to ASCII letters (see README). */
  function Lower(s: string): (r: string)
    ensures |r| == |s|
    ensures forall i :: 0 <= i < |s| ==> r[i] == LowerChar(s[i])
  {
    if |s| == 0 then "" else [LowerChar(s[0])] + Lower(s[1..])
  }

  // ---------------------------------------------------------------------
  // str(n) and int(s)
  // ---------------------------------------------------------------------

  predicate IsDigit(c: char)
  {
    '0' <= c <= '9'
  }

  predicate AllDigits(s: string)
  {
    forall i :: 0 <= i < |s| ==> IsDigit(s[i])
  }

  function DigitChar(d: nat): char
    requires d < 10
  {
    ('0' as int + d) as char
  }

  /** The value of a string of decimal digits, read left to right. */
  function DigitsValue(s: string): nat
    requires AllDigits(s)
  {
    if |s| == 0 then 0
    else DigitsValue(s[..|s| - 1]) * 10 + (s[|s| - 1] as int - '0' as int)
  }

  /** `str(n)` for a natural number. */
  function ShowNat(n: nat): string
  {
    if n < 10 then [DigitChar(n)] else ShowNat(n / 10) + [DigitChar(n % 10)]
  }

  /** `str(n)` for an integer. */
  function ShowInt(n: int): string
  {
    if n < 0 then "-" + ShowNat(-n) else ShowNat(n)
  }

  /** `int(s)` for an optional sign followed by decimal digits; anything
      else raises `ValueError`, modelled as `None`. */
  function ParseInt(s: string): Option<int>
  {
    if |s| > 0 && (s[0] == '-' || s[0] == '+') then
      if |s| > 1 && AllDigits(s[1..]) then
        var v: int := DigitsValue(s[1..]);
        Some(if s[0] == '-' then -v else v)
      else None
    else if |s| > 0 && AllDigits(s) then Some(DigitsValue(s))
    else None
  }

  /** `str(n)` is a non-empty digit string whose value is `n`. */
  lemma {:induction false} ShowNatDigits(n: nat)
    ensures |ShowNat(n)| > 0 && AllDigits(ShowNat(n))
    ensures DigitsValue(ShowNat(n)) == n
  {
    if n >= 10 {
      ShowNatDigits(n / 10);
      var s := ShowNat(n);
      assert s[..|s| - 1] == ShowNat(n / 10);
    }
  }

  /** `int(str(n)) == n`. */
  lemma ParseShowRoundTrip(n: int)
    ensures ParseInt(ShowInt(n)) == Some(n)
  {
    if n < 0 {
      ShowNatDigits(-n);
      assert ShowInt(n)[1..] == ShowNat(-n);
    } else {
      ShowNatDigits(n);
      assert ShowNat(n)[0] != '-' && ShowNat(n)[0] != '+' by {
        assert IsDigit(ShowNat(n)[0]);
      }
    }
  }

  // ---------------------------------------------------------------------
  // str.strip()
  // ---------------------------------------------------------------------

  /** Python's `str.isspace()` for one character. */
  predicate IsSpace(c: char)
  {
    c == ' ' || ('\t' <= c <= '\r') || ('\U{1C}' <= c <= '\U{1F}')
    || c == '\U{85}' || c == '\U{A0}' || c == '\U{1680}'
    || ('\U{2000}' <= c <= '\U{200A}') || c == '\U{2028}' || c == '\U{2029}'
    || c == '\U{202F}' || c == '\U{205F}' || c == '\U{3000}'
  }

  /** The number of white-space characters that open `s`. */
  function LeadingSpaces(s: string): (n: nat)
    ensures n <= |s|
    ensures forall i :: 0 <= i < n ==> IsSpace(s[i])
    ensures n < |s| ==> !IsSpace(s[n])
  {
    if |s| > 0 && IsSpace(s[0]) then 1 + LeadingSpaces(s[1..]) else 0
  }

  /** The number of white-space characters that close `s`. */
  function TrailingSpaces(s: string): (n: nat)
    ensures n <= |s|
    ensures forall i :: |s| - n <= i < |s| ==> IsSpace(s[i])
    ensures n < |s| ==> !IsSpace(s[|s| - 1 - n])
  {
    if |s| > 0 && IsSpace(s[|s| - 1]) then 1 + TrailingSpaces(s[..|s| - 1]) else 0
  }

  /** `s.strip()`. */
  function Strip(s: string): string
  {
    var a := LeadingSpaces(s);
    s[a..|s| - TrailingSpaces(s[a..])]
  }

  /** The stripped text has no surrounding white space, is a contiguous part
      of the input, and only white space was removed around it. */
  lemma StripShape(s: string)
    ensures var r := Strip(s); var k := LeadingSpaces(s);
      && (|r| > 0 ==> !IsSpace(r[0]) && !IsSpace(r[|r| - 1]))
      && k + |r| <= |s| && s[k..k + |r|] == r
      && (forall i :: 0 <= i < k ==> IsSpace(s[i]))
      && (forall i :: k + |r| <= i < |s| ==> IsSpace(s[i]))
  {
    StripSlice(s);
    StripTrailing(s);
    StripEdges(s);
  }

  /** Stripping adds no character: what the input avoids, the result
      avoids too. */
  lemma StripAvoids(s: string, bad: set<char>)
    requires forall i :: 0 <= i < |s| ==> s[i] !in bad
    ensures forall i :: 0 <= i < |Strip(s)| ==> Strip(s)[i] !in bad
  {
    StripSlice(s);
    var r, k := Strip(s), LeadingSpaces(s);
    forall i | 0 <= i < |r|
      ensures r[i] !in bad
    {
      assert r[i] == s[k + i];
    }
  }

  lemma StripSlice(s: string)
    ensures var r := Strip(s); var k := LeadingSpaces(s);
      k + |r| <= |s| && s[k..k + |r|] == r
  {
  }

  lemma StripTrailing(s: string)
    ensures var r := Strip(s); var k := LeadingSpaces(s);
      forall i :: k + |r| <= i < |s| ==> IsSpace(s[i])
  {
    var k := LeadingSpaces(s);
    var t := s[k..];
    var r := Strip(s);
    forall i | k + |r| <= i < |s|
      ensures IsSpace(s[i])
    {
      assert s[i] == t[i - k];
    }
  }

  lemma StripEdges(s: string)
    ensures var r := Strip(s); |r| > 0 ==> !IsSpace(r[0]) && !IsSpace(r[|r| - 1])
  {
    var k := LeadingSpaces(s);
    var t := s[k..];
    var b := TrailingSpaces(t);
    var r := Strip(s);
    if |r| > 0 {
      assert r[0] == t[0];
      assert r[|r| - 1] == t[|t| - 1 - b];
    }
  }

  /** Stripping twice is stripping once. */
  lemma StripIdempotent(s: string)
    ensures Strip(Strip(s)) == Strip(s)
  {
    var r := Strip(s);
    StripShape(s);
    if |r| > 0 {
      assert LeadingSpaces(r) == 0;
      assert r[0..] == r;
      assert TrailingSpaces(r) == 0;
    }
  }

  // ---------------------------------------------------------------------
  // Removing a set of characters (re.sub over a character alternation)
  // ---------------------------------------------------------------------

  /** The text with every character of `bad` deleted, order kept. */
  function RemoveChars(s: string, bad: set<char>): (r: string)
    ensures |r| <= |s|
    ensures forall i :: 0 <= i < |r| ==> r[i] !in bad && r[i] in s
  {
    if |s| == 0 then ""
    else if s[0] in bad then RemoveChars(s[1..], bad)
    else [s[0]] + RemoveChars(s[1..], bad)
  }

  /** Deleting characters that do not occur changes nothing. */
  lemma {:induction false} RemoveCharsAbsent(s: string, bad: set<char>)
    requires forall i :: 0 <= i < |s| ==> s[i] !in bad
    ensures RemoveChars(s, bad) == s
  {
    if |s| > 0 {
      RemoveCharsAbsent(s[1..], bad);
      assert [s[0]] + s[1..] == s;
    }
  }

  // ---------------------------------------------------------------------
  // str.split(sep)[1]
  // ---------------------------------------------------------------------

  /** Occurrences in the tail are the occurrences in the whole text shifted by one. */
  lemma OccursShift(s: string, sep: string)
    requires |s| > 0
    ensures forall j :: 1 <= j ==> (OccursAt(s, sep, j) <==> OccursAt(s[1..], sep, j - 1))
  {
    forall j | 1 <= j
      ensures OccursAt(s, sep, j) <==> OccursAt(s[1..], sep, j - 1)
    {
      if j + |sep| <= |s| {
        assert s[1..][j - 1..j - 1 + |sep|] == s[j..j + |sep|];
      }
    }
  }

  /** The position of the first occurrence of `sep` in `s`, if any. */
  function Find(s: string, sep: string): (r: Option<nat>)
    requires |sep| > 0
    ensures r.Some? ==> (OccursAt(s, sep, r.value)
      && forall j :: 0 <= j < r.value ==> !OccursAt(s, sep, j))
    ensures r.None? ==> forall j :: 0 <= j <= |s| - |sep| ==> !OccursAt(s, sep, j)
    decreases |s|
  {
    if |s| < |sep| then None
    else if s[..|sep|] == sep then Some(0)
    else
      OccursShift(s, sep);
      assert !OccursAt(s, sep, 0) by { assert s[0..|sep|] == s[..|sep|]; }
      match Find(s[1..], sep)
      case None => None
      case Some(k) => Some(k + 1)
  }

  /** `s.split(sep)[1]`: the text between the first and the second occurrence
      of `sep` (or the end); `IndexError` when `sep` does not occur. */
  function SplitSecond(s: string, sep: string): Option<string>
    requires |sep| > 0
  {
    match Find(s, sep)
    case None => None
    case Some(i) =>
      var rest := s[i + |sep|..];
      match Find(rest, sep)
      case None => Some(rest)
      case Some(j) => Some(rest[..j])
  }

  /** For a text made of the separator followed by separator-free text, the
      second split part is exactly that text. */
  lemma SplitSecondAfterPrefix(sep: string, rest: string)
    requires |sep| > 0
    requires forall j :: 0 <= j <= |rest| - |sep| ==> !OccursAt(rest, sep, j)
    ensures SplitSecond(sep + rest, sep) == Some(rest)
  {
    var s := sep + rest;
    assert s[..|sep|] == sep;
    assert Find(s, sep) == Some(0);
    assert s[|sep|..] == rest;
  }
}
