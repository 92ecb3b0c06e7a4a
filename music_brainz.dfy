/**
 * The pure parts of MusicBrainzFetcher: the Lucene escaping of search terms, the text of the
 * release query, and the arithmetic of the one-request-per-1100-ms rate limit.
 */
module MusicBrainz {
  import opened Wrappers
  import opened Text

  /** The characters escapeQuery puts a backslash before; & and | are not among them. */
  const LuceneSpecials: string := "+-!(){}[]^\"~*?:\\/"

  predicate IsLuceneSpecial(c: char) {
    c in LuceneSpecials
  }

  /** The text one character becomes: a special one is preceded by a backslash. */
  function EscapeQueryChar(c: char): string {
    if IsLuceneSpecial(c) then ['\\', c] else [c]
  }

  /** escapeQuery: every Lucene special character gets a backslash in front; nothing else changes. */
  function EscapeQuery(s: string): (r: string)
    ensures |r| == |s| + CountSpecials(s)
  {
    if s == [] then [] else EscapeQueryChar(s[0]) + EscapeQuery(s[1..])
  }

  /** How many characters of s are Lucene special characters. */
  function CountSpecials(s: string): (n: nat)
    ensures n <= |s|
  {
    if s == [] then 0 else (if IsLuceneSpecial(s[0]) then 1 else 0) + CountSpecials(s[1..])
  }

  /** A term without special characters, & and | included, is passed on as it is. */
  lemma {:induction false} EscapeQueryPlain(s: string)
    requires forall i :: 0 <= i < |s| ==> !IsLuceneSpecial(s[i])
    ensures EscapeQuery(s) == s
    ensures !IsLuceneSpecial('&') && !IsLuceneSpecial('|')
  {
    if s != [] {
      EscapeQueryPlain(s[1..]);
    }
  }

  /** Escaping distributes over concatenation. */
  lemma {:induction false} EscapeQueryAppend(a: string, b: string)
    ensures EscapeQuery(a + b) == EscapeQuery(a) + EscapeQuery(b)
  {
    if a == [] {
      assert a + b == b;
    } else {
      assert (a + b)[0] == a[0];
      assert (a + b)[1..] == a[1..] + b;
      EscapeQueryAppend(a[1..], b);
    }
  }

  /** The reverse of escapeQuery: a backslash takes the next character literally. */
  function UnescapeQuery(t: string): string
    decreases |t|
  {
    if t == [] then []
    else if t[0] == '\\' && |t| >= 2 then [t[1]] + UnescapeQuery(t[2..])
    else [t[0]] + UnescapeQuery(t[1..])
  }

  /** Unescaping an escaped term gives back the term. */
  lemma {:induction false} EscapeQueryRoundTrip(s: string)
    ensures UnescapeQuery(EscapeQuery(s)) == s
  {
    if s != [] {
      var rest := EscapeQuery(s[1..]);
      var t := EscapeQueryChar(s[0]) + rest;
      if IsLuceneSpecial(s[0]) {
        assert t[0] == '\\' && t[1] == s[0] && t[2..] == rest;
      } else {
        assert s[0] != '\\' by { assert '\\' == LuceneSpecials[15]; }
        assert t[0] == s[0] && t[1..] == rest;
      }
      EscapeQueryRoundTrip(s[1..]);
      assert s == [s[0]] + s[1..];
    }
  }

  /** The search query of searchRelease, before URL encoding. */
  function Query(album: string, artist: string): (q: string)
    ensures ParseQuery(q) == Some((album, artist))
  {
    QueryParses(album, artist);
    ReleasePrefix + EscapeQuery(album) + ArtistInfix + EscapeQuery(artist) + "\""
  }

  /** The fixed pieces of the query around the escaped album and artist. */
  const ReleasePrefix: string := "release:\""
  const ArtistInfix: string := "\" AND artist:\""

  /** Reads a quoted term up to its closing unescaped quote: the term and what follows the quote. */
  function ReadQuoted(t: string): Option<(string, string)>
    decreases |t|
  {
    if t == [] then None
    else if t[0] == '"' then Some(([], t[1..]))
    else if t[0] == '\\' then
      if |t| < 2 then None
      else match ReadQuoted(t[2..])
        case None => None
        case Some(p) => Some(([t[1]] + p.0, p.1))
    else match ReadQuoted(t[1..])
      case None => None
      case Some(p) => Some(([t[0]] + p.0, p.1))
  }

  /** Reads the album and artist terms back out of a query text. */
  function ParseQuery(q: string): Option<(string, string)> {
    if !StartsWith(q, ReleasePrefix) then None
    else match ReadQuoted(q[|ReleasePrefix|..])
      case None => None
      case Some(first) =>
        if !StartsWith(first.1, ArtistInfix[1..]) then None
        else match ReadQuoted(first.1[|ArtistInfix| - 1..])
          case None => None
          case Some(second) => if second.1 == [] then Some((first.0, second.0)) else None
  }

  /** An escaped term is read back up to the quote that closes it: escaping keeps every inner quote. */
  lemma {:induction false} ReadQuotedEscaped(s: string, rest: string)
    ensures ReadQuoted(EscapeQuery(s) + "\"" + rest) == Some((s, rest))
  {
    var t := EscapeQuery(s) + "\"" + rest;
    if s == [] {
      assert t == "\"" + rest;
      assert t[1..] == rest;
    } else {
      var tail := EscapeQuery(s[1..]) + "\"" + rest;
      assert t == EscapeQueryChar(s[0]) + tail;
      ReadQuotedEscaped(s[1..], rest);
      if IsLuceneSpecial(s[0]) {
        assert t[0] == '\\' && t[1] == s[0] && t[2..] == tail;
      } else {
        assert s[0] != '"' by { assert '"' == LuceneSpecials[10]; }
        assert s[0] != '\\' by { assert '\\' == LuceneSpecials[15]; }
        assert t[0] == s[0] && t[1..] == tail;
      }
      assert s == [s[0]] + s[1..];
    }
  }

  /** A prefix is found at the head of any text it opens, and the rest follows it. */
  lemma PrefixOf(p: string, rest: string)
    ensures StartsWith(p + rest, p) && (p + rest)[|p|..] == rest
  {
    assert (p + rest)[..|p|] == p;
  }

  /** The query text determines both terms, so different albums or artists give different queries. */
  lemma QueryParses(album: string, artist: string)
    ensures ParseQuery(ReleasePrefix + EscapeQuery(album) + ArtistInfix + EscapeQuery(artist) + "\"")
      == Some((album, artist))
  {
    var tailArtist := EscapeQuery(artist) + "\"";
    var andPart := ArtistInfix[1..] + tailArtist;
    var tailAlbum := EscapeQuery(album) + "\"" + andPart;
    var q := ReleasePrefix + tailAlbum;
    assert ArtistInfix == "\"" + ArtistInfix[1..];
    assert q == ReleasePrefix + EscapeQuery(album) + ArtistInfix + EscapeQuery(artist) + "\"";
    PrefixOf(ReleasePrefix, tailAlbum);
    ReadQuotedEscaped(album, andPart);
    PrefixOf(ArtistInfix[1..], tailArtist);
    assert tailArtist == EscapeQuery(artist) + "\"" + [];
    ReadQuotedEscaped(artist, []);
  }

  /** Two requests to MusicBrainz are at least this many milliseconds apart. */
  const RateLimitMs: int := 1100

  /**
   * The sleep of rateLimitWait when the last request went out at last and the clock reads now:
   * the rest of the 1100 ms, or nothing once they have passed.
   */
  function SleepFor(last: int, now: int): (ms: int)
    ensures ms >= 0
    ensures ms > 0 <==> now - last < RateLimitMs
    ensures now + ms - last >= RateLimitMs
    ensures ms > 0 ==> now + ms - last == RateLimitMs
  {
    var elapsed := now - last;
    if elapsed < RateLimitMs then RateLimitMs - elapsed else 0
  }

  /**
   * With a clock that never runs backwards, the request sent after a wait starts at least
   * 1100 ms after the one before it.
   */
  lemma RequestsSpaced(last: int, now: int, later: int)
    requires now >= last && later >= now + SleepFor(last, now)
    ensures later - last >= RateLimitMs
  {
  }

  class MusicBrainzFetcher {
    /** When the previous request went out, in milliseconds; 0 before the first one. */
    var lastRequestTime: int

    constructor()
      ensures lastRequestTime == 0
    {
      lastRequestTime := 0;
    }

    /**
     * rateLimitWait: now is the clock before the wait and later the clock after it; the method
     * returns the time slept and records later as the time of this request.
     */
    method RateLimitWait(now: int, later: int) returns (slept: int)
      modifies this
      ensures slept == SleepFor(old(lastRequestTime), now)
      ensures slept > 0 <==> now - old(lastRequestTime) < RateLimitMs
      ensures lastRequestTime == later
    {
      var elapsed := now - lastRequestTime;
      slept := 0;
      if elapsed < RateLimitMs {
        slept := RateLimitMs - elapsed;
      }
      lastRequestTime := later;
    }
  }
}
