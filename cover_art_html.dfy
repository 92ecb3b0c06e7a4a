/**
 * The pure parts of CoverArtReportGenerator: the HTML escaper, the wording of a missing-cover
 * reason and which sections of the page a report gets.
 */
module CoverArtHtml {
  import opened Wrappers
  import opened Text
  import opened CoverArtReports

  /** escapeHtml: null gives ""; otherwise &, <, > and " are replaced, & first, each in one pass. */
  function EscapeHtml(text: Option<string>): (r: string)
    ensures text.None? ==> r == ""
    ensures text.Some? ==> r == EscapeAll(text.value)
  {
    if text.None? then ""
    else
      EscapeChainIsOnePass(text.value);
      Chain(text.value)
  }

  /** The entity a single character becomes; every other character stands for itself. */
  function EscapeChar(c: char): string {
    if c == '&' then "&amp;"
    else if c == '<' then "&lt;"
    else if c == '>' then "&gt;"
    else if c == '"' then "&quot;"
    else [c]
  }

  /** The reference escaper: every character replaced by its entity in a single left-to-right pass. */
  function EscapeAll(s: string): (r: string)
    ensures '<' !in r && '>' !in r && '"' !in r
  {
    if s == [] then [] else EscapeChar(s[0]) + EscapeAll(s[1..])
  }

  /** Replacing one character distributes over concatenation. */
  lemma {:induction false} ReplaceAppend(a: string, b: string, c: char, t: string)
    ensures ReplaceChar(a + b, c, t) == ReplaceChar(a, c, t) + ReplaceChar(b, c, t)
  {
    if a == [] {
      assert a + b == b;
    } else {
      assert (a + b)[0] == a[0];
      assert (a + b)[1..] == a[1..] + b;
      ReplaceAppend(a[1..], b, c, t);
    }
  }

  /** The four replacements of escapeHtml, in the source's order. */
  function Chain(s: string): string {
    ReplaceChar(ReplaceChar(ReplaceChar(ReplaceChar(s, '&', "&amp;"), '<', "&lt;"), '>', "&gt;"), '"', "&quot;")
  }

  lemma ChainAppend(a: string, b: string)
    ensures Chain(a + b) == Chain(a) + Chain(b)
  {
    ReplaceAppend(a, b, '&', "&amp;");
    var a1, b1 := ReplaceChar(a, '&', "&amp;"), ReplaceChar(b, '&', "&amp;");
    ReplaceAppend(a1, b1, '<', "&lt;");
    var a2, b2 := ReplaceChar(a1, '<', "&lt;"), ReplaceChar(b1, '<', "&lt;");
    ReplaceAppend(a2, b2, '>', "&gt;");
    var a3, b3 := ReplaceChar(a2, '>', "&gt;"), ReplaceChar(b2, '>', "&gt;");
    ReplaceAppend(a3, b3, '"', "&quot;");
  }

  lemma ReplaceOne(c: char, x: char, t: string)
    ensures c == x ==> ReplaceChar([c], x, t) == t
    ensures c != x ==> ReplaceChar([c], x, t) == [c]
  {
    assert [c][1..] == [];
  }

  /** The rest of the chain leaves an entity alone: none of them holds <, > or ". */
  lemma ChainRest(e: string)
    requires '<' !in e && '>' !in e && '"' !in e
    ensures ReplaceChar(ReplaceChar(ReplaceChar(e, '<', "&lt;"), '>', "&gt;"), '"', "&quot;") == e
  {
  }

  lemma LeavesAlone(e: string, x: char, t: string)
    requires x !in e
    ensures ReplaceChar(e, x, t) == e
  {
  }

  lemma ChainAmpersand()
    ensures Chain("&") == "&amp;"
  {
    ReplaceOne('&', '&', "&amp;");
    ChainRest("&amp;");
  }

  lemma ChainLess()
    ensures Chain("<") == "&lt;"
  {
    ReplaceOne('<', '&', "&amp;");
    ReplaceOne('<', '<', "&lt;");
    LeavesAlone("&lt;", '>', "&gt;");
    LeavesAlone("&lt;", '"', "&quot;");
  }

  lemma ChainGreater()
    ensures Chain(">") == "&gt;"
  {
    ReplaceOne('>', '&', "&amp;");
    ReplaceOne('>', '<', "&lt;");
    ReplaceOne('>', '>', "&gt;");
    LeavesAlone("&gt;", '"', "&quot;");
  }

  lemma ChainOther(c: char)
    requires c !in "&<>\""
    ensures Chain([c]) == [c]
  {
    ReplaceOne(c, '&', "&amp;");
    ReplaceOne(c, '<', "&lt;");
    ReplaceOne(c, '>', "&gt;");
    ReplaceOne(c, '"', "&quot;");
  }

  /** On one character the chain yields its entity: replacing & first keeps the later entities intact. */
  lemma ChainChar(c: char)
    ensures Chain([c]) == EscapeChar(c)
  {
    if c == '&' {
      ChainAmpersand();
    } else if c == '<' {
      ChainLess();
    } else if c == '>' {
      ChainGreater();
    } else if c == '"' {
      ReplaceOne(c, '&', "&amp;");
      ReplaceOne(c, '<', "&lt;");
      ReplaceOne(c, '>', "&gt;");
      ReplaceOne(c, '"', "&quot;");
    } else {
      ChainOther(c);
    }
  }

  /** The chain of replace calls escapes exactly like the single pass. */
  lemma {:induction false} EscapeChainIsOnePass(s: string)
    ensures Chain(s) == EscapeAll(s)
  {
    if s != [] {
      assert s == [s[0]] + s[1..];
      ChainAppend([s[0]], s[1..]);
      ChainChar(s[0]);
      EscapeChainIsOnePass(s[1..]);
    }
  }

  /** A text without the four special characters, apostrophes included, comes out unchanged. */
  lemma {:induction false} EscapeLeavesPlainText(s: string)
    requires forall i :: 0 <= i < |s| ==> s[i] !in "&<>\""
    ensures EscapeHtml(Some(s)) == s
    ensures EscapeAll(s) == s
  {
    if s != [] {
      assert s[0] !in "&<>\"";
      EscapeLeavesPlainText(s[1..]);
    }
  }

  /** Reading the entities back, & being the one that opens each of them. */
  function UnescapeHtml(t: string): (s: string)
    decreases |t|
  {
    if t == [] then []
    else if StartsWith(t, "&amp;") then "&" + UnescapeHtml(t[5..])
    else if StartsWith(t, "&lt;") then "<" + UnescapeHtml(t[4..])
    else if StartsWith(t, "&gt;") then ">" + UnescapeHtml(t[4..])
    else if StartsWith(t, "&quot;") then "\"" + UnescapeHtml(t[6..])
    else [t[0]] + UnescapeHtml(t[1..])
  }

  lemma DiffersAt(t: string, p: string, k: nat)
    requires k < |t| && k < |p| && t[k] != p[k]
    ensures !StartsWith(t, p)
  {
    if |p| <= |t| {
      assert t[..|p|][k] == t[k];
    }
  }

  lemma UnescapeEntity(c: char, rest: string)
    ensures UnescapeHtml(EscapeChar(c) + rest) == [c] + UnescapeHtml(rest)
  {
    var t := EscapeChar(c) + rest;
    if c == '&' {
      assert t[..5] == "&amp;" && t[5..] == rest;
    } else if c == '<' {
      assert t[..4] == "&lt;" && t[4..] == rest;
      DiffersAt(t, "&amp;", 1);
    } else if c == '>' {
      assert t[..4] == "&gt;" && t[4..] == rest;
      DiffersAt(t, "&amp;", 1);
      DiffersAt(t, "&lt;", 1);
    } else if c == '"' {
      assert t[..6] == "&quot;" && t[6..] == rest;
      DiffersAt(t, "&amp;", 1);
      DiffersAt(t, "&lt;", 1);
      DiffersAt(t, "&gt;", 1);
    } else {
      assert t[0] == c && t[1..] == rest;
      assert !StartsWith(t, "&amp;") && !StartsWith(t, "&lt;") && !StartsWith(t, "&gt;") && !StartsWith(t, "&quot;");
    }
  }

  /** Unescaping the escaped text gives back the original. */
  lemma {:induction false} EscapeRoundTrip(s: string)
    ensures UnescapeHtml(EscapeHtml(Some(s))) == s
    ensures UnescapeHtml(EscapeAll(s)) == s
  {
    if s != [] {
      UnescapeEntity(s[0], EscapeAll(s[1..]));
      EscapeRoundTrip(s[1..]);
      assert s == [s[0]] + s[1..];
    }
  }

  /** formatReason: the three known reasons get their wording, null reads "Unknown", any other reason is shown as it is. */
  function FormatReason(reason: Option<string>): (r: string)
    ensures reason.None? ==> r == "Unknown"
    ensures reason == Some("no_tags") ==> r == "No artist/album tags"
    ensures reason == Some("not_found") ==> r == "Not found on MusicBrainz"
    ensures reason == Some("no_embedded") ==> r == "No embedded artwork"
    ensures reason.Some? && reason.value !in {"no_tags", "not_found", "no_embedded"} ==> r == reason.value
  {
    match reason
    case None => "Unknown"
    case Some(s) =>
      if s == "no_tags" then "No artist/album tags"
      else if s == "not_found" then "Not found on MusicBrainz"
      else if s == "no_embedded" then "No embedded artwork"
      else s
  }

  /**
   * Two different reasons read the same only when one of them is already the wording of the
   * other: a null and the text "Unknown", or a known reason and its own label.
   */
  lemma FormatReasonCollisions(a: Option<string>, b: Option<string>)
    requires a != b && FormatReason(a) == FormatReason(b)
    ensures || {a, b} == {None, Some("Unknown")}
            || {a, b} == {Some("no_tags"), Some("No artist/album tags")}
            || {a, b} == {Some("not_found"), Some("Not found on MusicBrainz")}
            || {a, b} == {Some("no_embedded"), Some("No embedded artwork")}
  {
  }

  /** The optional blocks of the page, in the order generate writes them. */
  datatype Section = FromTags | Downloaded | StillMissing | AllDone

  function Rank(s: Section): nat {
    match s
    case FromTags => 0
    case Downloaded => 1
    case StillMissing => 2
    case AllDone => 3
  }

  /** The sections generate emits for a report, after the summary cards. */
  function Sections(report: CoverArtReport): (r: seq<Section>)
    reads report
    ensures forall i, j :: 0 <= i < j < |r| ==> Rank(r[i]) < Rank(r[j])
  {
    (if report.extractedFromTags != [] then [FromTags] else [])
    + (if report.downloadedOnline != [] then [Downloaded] else [])
    + (if report.missingCovers != [] then [StillMissing] else [])
    + (if report.TotalExtracted() == 0 && report.missingCovers == [] then [AllDone] else [])
  }

  /**
   * Each list gets its section exactly when it is non-empty; the "all done" message appears
   * exactly when no other section does, so a page always carries at least one of them.
   */
  lemma SectionsOfReport(report: CoverArtReport)
    ensures FromTags in Sections(report) <==> report.extractedFromTags != []
    ensures Downloaded in Sections(report) <==> report.downloadedOnline != []
    ensures StillMissing in Sections(report) <==> report.missingCovers != []
    ensures AllDone in Sections(report) <==> Sections(report) == [AllDone]
    ensures Sections(report) != []
  {
    var r := Sections(report);
    if report.TotalExtracted() == 0 {
      assert report.extractedFromTags == [] && report.downloadedOnline == [];
    }
    if AllDone in r {
      assert report.TotalExtracted() == 0;
    }
  }
}
