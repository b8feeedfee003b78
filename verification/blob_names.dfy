/** Blob naming shared by the three thumbnail functions: the URL sanitiser and
    the six-character random suffix. */
module BlobNames {
  import opened Text

  /** The characters of a thumbnail URL replaced by an underscore, in the
      order the replacements are applied. */
  const CharsToReplace: seq<char> := [':', '/', '.', '?', '#', '&', '=', '+']

  /** `for ch in chars: s = s.replace(ch, '_')`. */
  function ReplaceEach(s: string, chars: seq<char>): string
    decreases |chars|
  {
    if |chars| == 0 then s else ReplaceEach(ReplaceAll(s, [chars[0]], "_"), chars[1..])
  }

  /** The loop of replacements substitutes `_` for every listed character
      and keeps every other character in place. */
  lemma {:induction false} ReplaceEachPointwise(s: string, chars: seq<char>)
    ensures |ReplaceEach(s, chars)| == |s|
    ensures forall i :: 0 <= i < |s| ==>
      ReplaceEach(s, chars)[i] == (if s[i] in chars then '_' else s[i])
    decreases |chars|
  {
    if |chars| > 0 {
      var t := ReplaceAll(s, [chars[0]], "_");
      ReplaceCharPointwise(s, chars[0], '_');
      ReplaceEachPointwise(t, chars[1..]);
      forall i | 0 <= i < |s|
        ensures ReplaceEach(s, chars)[i] == (if s[i] in chars then '_' else s[i])
      {
        assert s[i] in chars <==> s[i] == chars[0] || s[i] in chars[1..] by {
          assert chars == [chars[0]] + chars[1..];
        }
      }
    }
  }

  /** `s.replace('___', '_').replace('__', '_')`: one pass of each, not a
      repeated collapse. */
  function CollapseUnderscores(s: string): string
  {
    ReplaceAll(ReplaceAll(s, "___", "_"), "__", "_")
  }

  /** The sanitised URL that ends every cropout file name. */
  function SanitiseUrl(url: string): (r: string)
    ensures |r| <= |url|
    ensures forall i :: 0 <= i < |r| ==> r[i] !in CharsToReplace
  {
    var replaced := ReplaceEach(url, CharsToReplace);
    ReplaceEachClears(url);
    CollapseKeepsAbsence(replaced);
    CollapseUnderscores(replaced)
  }

  lemma ReplaceEachClears(url: string)
    ensures |ReplaceEach(url, CharsToReplace)| == |url|
    ensures forall i :: 0 <= i < |url| ==> ReplaceEach(url, CharsToReplace)[i] !in CharsToReplace
  {
    ReplaceEachPointwise(url, CharsToReplace);
  }

  /** The collapse never lengthens a text nor brings in a replaced character. */
  lemma CollapseKeepsAbsence(s: string)
    requires forall i :: 0 <= i < |s| ==> s[i] !in CharsToReplace
    ensures |CollapseUnderscores(s)| <= |s|
    ensures forall i :: 0 <= i < |CollapseUnderscores(s)| ==> CollapseUnderscores(s)[i] !in CharsToReplace
  {
    var once := ReplaceAll(s, "___", "_");
    ReplaceAllCharsFrom(s, "___", "_");
    ReplaceAllShrinks(s, "___", "_");
    ReplaceAllCharsFrom(once, "__", "_");
    ReplaceAllShrinks(once, "__", "_");
  }

  /** `str(uuid.uuid4())[-6:]`: the last six characters (all of a shorter text). */
  function UuidSuffix(uuid: string): (r: string)
    ensures |uuid| >= 6 ==> |r| == 6 && uuid == uuid[..|uuid| - 6] + r
    ensures |uuid| < 6 ==> r == uuid
  {
    if |uuid| >= 6 then uuid[|uuid| - 6..] else uuid
  }

  // ---------------------------------------------------------------------
  // What the collapse keeps
  // ---------------------------------------------------------------------

  lemma {:induction false} RemoveCharsConcat(a: string, b: string, bad: set<char>)
    ensures RemoveChars(a + b, bad) == RemoveChars(a, bad) + RemoveChars(b, bad)
  {
    if |a| > 0 {
      RemoveCharsConcat(a[1..], b, bad);
      assert (a + b)[1..] == a[1..] + b;
    } else {
      assert a + b == b;
    }
  }

  predicate AllUnderscores(s: string)
  {
    forall i :: 0 <= i < |s| ==> s[i] == '_'
  }

  lemma {:induction false} RemoveUnderscoresOfUnderscores(s: string)
    requires AllUnderscores(s)
    ensures RemoveChars(s, {'_'}) == ""
  {
    if |s| > 0 {
      RemoveUnderscoresOfUnderscores(s[1..]);
    }
  }

  /** Replacing one run of underscores by another only changes underscores:
      with underscores deleted, input and output agree. */
  lemma {:induction false} ReplaceUnderscoresKeepsRest(s: string, pat: string, rep: string)
    requires |pat| > 0 && AllUnderscores(pat) && AllUnderscores(rep)
    ensures RemoveChars(ReplaceAll(s, pat, rep), {'_'}) == RemoveChars(s, {'_'})
    decreases |s|
  {
    if |s| < |pat| {
    } else if s[..|pat|] == pat {
      ReplaceUnderscoresKeepsRest(s[|pat|..], pat, rep);
      RemoveCharsConcat(rep, ReplaceAll(s[|pat|..], pat, rep), {'_'});
      RemoveUnderscoresOfUnderscores(rep);
      RemoveCharsConcat(pat, s[|pat|..], {'_'});
      RemoveUnderscoresOfUnderscores(pat);
      assert s == pat + s[|pat|..];
    } else {
      ReplaceUnderscoresKeepsRest(s[1..], pat, rep);
      RemoveCharsConcat([s[0]], ReplaceAll(s[1..], pat, rep), {'_'});
      RemoveCharsConcat([s[0]], s[1..], {'_'});
      assert s == [s[0]] + s[1..];
    }
  }

  /** Deleting underscores after the character replacement is deleting the
      replaced characters and the underscores from the original. */
  lemma {:induction false} RemoveAfterReplaceEach(s: string, chars: seq<char>)
    ensures RemoveChars(ReplaceEach(s, chars), {'_'}) == RemoveChars(s, set c | c in chars + ['_'])
    decreases |s|
  {
    var bad := set c | c in chars + ['_'];
    ReplaceEachPointwise(s, chars);
    var t := ReplaceEach(s, chars);
    if |s| > 0 {
      ReplaceEachPointwise(s[1..], chars);
      assert ReplaceEach(s[1..], chars) == t[1..];
      RemoveAfterReplaceEach(s[1..], chars);
      assert t == [t[0]] + t[1..];
      RemoveCharsConcat([t[0]], t[1..], {'_'});
      assert s[0] in bad <==> s[0] in chars || s[0] == '_';
    }
  }

  /** Apart from underscores, the sanitised URL is exactly the original URL
      with the eight replaced characters (and its own underscores) deleted:
      the collapse removes underscores only, never other characters. */
  lemma SanitiseKeepsOtherCharacters(url: string)
    ensures RemoveChars(SanitiseUrl(url), {'_'})
         == RemoveChars(url, set c | c in CharsToReplace + ['_'])
  {
    var replaced := ReplaceEach(url, CharsToReplace);
    var once := ReplaceAll(replaced, "___", "_");
    ReplaceUnderscoresKeepsRest(replaced, "___", "_");
    ReplaceUnderscoresKeepsRest(once, "__", "_");
    RemoveAfterReplaceEach(url, CharsToReplace);
  }

  // ---------------------------------------------------------------------
  // Worked examples
  // ---------------------------------------------------------------------

  /** The character loop, checked position by position. */
  lemma ReplaceEachMatches(url: string, want: string)
    requires |url| == |want|
    requires forall i :: 0 <= i < |url| ==>
      want[i] == (if url[i] in CharsToReplace then '_' else url[i])
    ensures ReplaceEach(url, CharsToReplace) == want
  {
    ReplaceEachPointwise(url, CharsToReplace);
  }

  /** A text with no two adjacent underscores holds no run of two or three. */
  lemma NoAdjacentUnderscores(s: string, pat: string)
    requires pat == "__" || pat == "___"
    requires forall i :: 0 <= i < |s| - 1 ==> s[i] != '_' || s[i + 1] != '_'
    ensures ReplaceAll(s, pat, "_") == s
  {
    forall i | 0 <= i <= |s| - |pat|
      ensures !OccursAt(s, pat, i)
    {
      assert s[i..i + |pat|][0] == s[i] && s[i..i + |pat|][1] == s[i + 1];
    }
    ReplaceAllAbsent(s, pat, "_");
  }

  /** An underscore-free prefix is copied verbatim by a pass whose pattern
      starts with an underscore. */
  lemma SkipUnderscoreFree(a: string, t: string, pat: string, rep: string)
    requires '_' !in a && |pat| > 0 && pat[0] == '_'
    ensures ReplaceAll(a + t, pat, rep) == a + ReplaceAll(t, pat, rep)
  {
    var s := a + t;
    forall i | 0 <= i < |a|
      ensures !OccursAt(s, pat, i)
    {
      assert a[i] in a;
      if i + |pat| <= |s| {
        assert s[i..i + |pat|][0] == s[i] == a[i];
      }
    }
    ReplaceAllSkip(s, pat, rep, |a|);
    assert s[..|a|] == a && s[|a|..] == t;
  }

  /** A text that opens with the pattern has it replaced first. */
  lemma ReplaceAllHead(pat: string, t: string, rep: string)
    requires |pat| > 0
    ensures ReplaceAll(pat + t, pat, rep) == rep + ReplaceAll(t, pat, rep)
  {
    var s := pat + t;
    assert s[..|pat|] == pat && s[|pat|..] == t;
  }

  lemma FirstPassOneRun(a: string, b: string)
    requires '_' !in a
    requires forall i :: 0 <= i < |b| - 1 ==> b[i] != '_' || b[i + 1] != '_'
    ensures ReplaceAll(a + "___" + b, "___", "_") == a + "_" + b
  {
    assert a + "___" + b == a + ("___" + b);
    SkipUnderscoreFree(a, "___" + b, "___", "_");
    ReplaceAllHead("___", b, "_");
    NoAdjacentUnderscores(b, "___");
  }

  lemma SecondPassOneRun(a: string, b: string)
    requires '_' !in a
    requires |b| > 0 && b[0] != '_'
    requires forall i :: 0 <= i < |b| - 1 ==> b[i] != '_' || b[i + 1] != '_'
    ensures ReplaceAll(a + "_" + b, "__", "_") == a + "_" + b
  {
    var once := a + "_" + b;
    forall i | 0 <= i < |once| - 1
      ensures once[i] != '_' || once[i + 1] != '_'
    {
      if i < |a| {
        assert once[i] == a[i] && a[i] in a;
      } else if i == |a| {
        assert once[i + 1] == b[0];
      } else {
        assert once[i] == b[i - |a| - 1] && once[i + 1] == b[i - |a|];
      }
    }
    NoAdjacentUnderscores(once, "__");
  }

  /** A single run of three underscores between underscore-free text and
      text without doubled underscores collapses to one underscore. */
  lemma CollapseOneRun(a: string, b: string)
    requires '_' !in a
    requires |b| > 0 && b[0] != '_'
    requires forall i :: 0 <= i < |b| - 1 ==> b[i] != '_' || b[i + 1] != '_'
    ensures CollapseUnderscores(a + "___" + b) == a + "_" + b
  {
    FirstPassOneRun(a, b);
    SecondPassOneRun(a, b);
  }
}
