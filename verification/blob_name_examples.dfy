/** What the URL sanitiser does to the shapes of URL it meets: the scheme
    separator of a thumbnail URL, and runs of underscores longer than three. */
module BlobNameExamples {
  import opened Text
  import opened BlobNames

  /** The character loop distributes over concatenation. */
  lemma ReplaceEachConcat(x: string, y: string)
    ensures ReplaceEach(x + y, CharsToReplace)
         == ReplaceEach(x, CharsToReplace) + ReplaceEach(y, CharsToReplace)
  {
    ReplaceEachPointwise(x + y, CharsToReplace);
    ReplaceEachPointwise(x, CharsToReplace);
    ReplaceEachPointwise(y, CharsToReplace);
  }

  lemma SchemeSeparatorReplaced()
    ensures ReplaceEach("://", CharsToReplace) == "___"
  {
    ReplaceEachMatches("://", "___");
  }

  /** The scheme separator of a URL becomes three underscores, which the
      first pass collapses to one: `https://i.ytimg.com/vi/abc/hq720.jpg`
      (scheme `https`) becomes `https_i_ytimg_com_vi_abc_hq720_jpg`. */
  lemma SchemeSeparatorCollapses(scheme: string, rest: string)
    requires '_' !in scheme
    requires forall i :: 0 <= i < |scheme| ==> scheme[i] !in CharsToReplace
    requires var b := ReplaceEach(rest, CharsToReplace);
      |b| > 0 && b[0] != '_' &&
      forall i :: 0 <= i < |b| - 1 ==> b[i] != '_' || b[i + 1] != '_'
    ensures SanitiseUrl(scheme + "://" + rest)
         == scheme + "_" + ReplaceEach(rest, CharsToReplace)
  {
    ReplaceEachConcat(scheme + "://", rest);
    ReplaceEachConcat(scheme, "://");
    ReplaceEachMatches(scheme, scheme);
    SchemeSeparatorReplaced();
    CollapseOneRun(scheme, ReplaceEach(rest, CharsToReplace));
  }

  /** The collapse is a single pass: five underscores become two, not one. */
  lemma FiveUnderscoresBecomeTwo()
    ensures CollapseUnderscores("_____") == "__"
    ensures SanitiseUrl("_____") == "__"
  {
    assert ReplaceAll("_____", "___", "_") == "___";
    assert ReplaceAll("___", "__", "_") == "__";
    ReplaceEachPointwise("_____", CharsToReplace);
    assert ReplaceEach("_____", CharsToReplace) == "_____";
  }
}
