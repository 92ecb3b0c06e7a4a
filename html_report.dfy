/**
 * The pure helpers behind the HTML report's model: the normalisations used to compare tags,
 * the labels of the charts and tables, and the derived lists (duplicate albums, small albums,
 * the catalog by artist).
 */
module HtmlReport {
  import opened Wrappers
  import opened Text
  import opened DirectoryReports

  // ---------------------------------------------------------------------------------------------
  // Filtering, as the report's stream filters do it: order kept, nothing added.

  /** stream().filter(p).toList(). */
  function Filter<T(!new)>(s: seq<T>, p: T -> bool): (r: seq<T>)
    ensures |r| <= |s|
    ensures forall i :: 0 <= i < |r| ==> p(r[i])
    decreases |s|
  {
    if s == [] then []
    else Filter(s[..|s| - 1], p) + (if p(s[|s| - 1]) then [s[|s| - 1]] else [])
  }

  /** What the filter keeps: exactly the elements of s that satisfy p. */
  lemma {:induction false} FilterMembers<T(!new)>(s: seq<T>, p: T -> bool, x: T)
    ensures x in Filter(s, p) <==> x in s && p(x)
    decreases |s|
  {
    if s != [] {
      var init := s[..|s| - 1];
      FilterMembers(init, p, x);
      assert s == init + [s[|s| - 1]];
    }
  }

  /** Two elements that both satisfy p are both kept. */
  lemma FilterKeepsPair<T(!new)>(a: T, b: T, p: T -> bool)
    requires p(a) && p(b)
    ensures Filter([a, b], p) == [a, b]
  {
    assert [a, b][..1] == [a] && [a][..0] == [];
  }

  /** Nothing is kept when no element satisfies p. */
  lemma {:induction false} FilterNone<T(!new)>(s: seq<T>, p: T -> bool)
    requires forall i :: 0 <= i < |s| ==> !p(s[i])
    ensures Filter(s, p) == []
    decreases |s|
  {
    if s != [] {
      FilterNone(s[..|s| - 1], p);
    }
  }

  /** Filtering a concatenation filters each part. */
  lemma {:induction false} FilterAppend<T(!new)>(a: seq<T>, b: seq<T>, p: T -> bool)
    ensures Filter(a + b, p) == Filter(a, p) + Filter(b, p)
    decreases |b|
  {
    if b != [] {
      var init, last := b[..|b| - 1], b[|b| - 1];
      assert (a + b)[..|a + b| - 1] == a + init && (a + b)[|a + b| - 1] == last;
      FilterAppend(a, init, p);
      var tail := if p(last) then [last] else [];
      calc {
        Filter(a + b, p);
        Filter(a + init, p) + tail;
        (Filter(a, p) + Filter(init, p)) + tail;
        Filter(a, p) + (Filter(init, p) + tail);
        Filter(a, p) + Filter(b, p);
      }
    } else {
      assert a + b == a;
    }
  }

  // ---------------------------------------------------------------------------------------------
  // normalizeForDuplicateCheck

  /** The characters the duplicate check keeps: the class [a-z0-9]. */
  predicate IsAlnum(c: char) {
    'a' <= c <= 'z' || '0' <= c <= '9'
  }

  /** replaceAll("[^a-z0-9]", ""): every other character dropped, the rest in order. */
  function KeepAlnum(s: string): (r: string)
    ensures forall c :: c in r ==> IsAlnum(c)
  {
    Filter(s, IsAlnum)
  }

  /** A string already made only of [a-z0-9] is left alone. */
  lemma {:induction false} KeepAlnumOfAlnum(s: string)
    requires forall c :: c in s ==> IsAlnum(c)
    ensures KeepAlnum(s) == s
    decreases |s|
  {
    if s != [] {
      var init := s[..|s| - 1];
      assert forall c :: c in init ==> c in s;
      assert s == init + [s[|s| - 1]];
      KeepAlnumOfAlnum(init);
    }
  }

  /**
   * normalizeForDuplicateCheck: null is the empty string; otherwise lower case, only [a-z0-9] kept,
   * then trimmed (which no longer changes anything).
   */
  function NormalizeForDuplicateCheck(s: Option<string>): (r: string)
    ensures s.None? ==> r == ""
    ensures forall c :: c in r ==> IsAlnum(c)
    ensures s.Some? ==> r == KeepAlnum(Lower(s.value))
  {
    if s.None? then ""
    else
      var kept := KeepAlnum(Lower(s.value));
      assert kept != [] ==> kept[0] in kept && kept[|kept| - 1] in kept;
      TrimOfTrimmed(kept);
      Trim(kept)
  }

  /** Lower-case letters and digits are their own lower case. */
  lemma LowerOfAlnum(s: string)
    requires forall c :: c in s ==> IsAlnum(c)
    ensures Lower(s) == s
  {
    forall i | 0 <= i < |s|
      ensures Lower(s)[i] == s[i]
    {
      assert s[i] in s;
    }
  }

  /** Normalising a normalised name changes nothing. */
  lemma NormalizeIdempotent(s: Option<string>)
    ensures NormalizeForDuplicateCheck(Some(NormalizeForDuplicateCheck(s))) == NormalizeForDuplicateCheck(s)
  {
    var n := NormalizeForDuplicateCheck(s);
    LowerOfAlnum(n);
    KeepAlnumOfAlnum(n);
  }

  /** Two spellings that differ only in ASCII letter case fall in the same duplicate group. */
  lemma NormalizeIgnoresCase(s: string)
    ensures NormalizeForDuplicateCheck(Some(Upper(s))) == NormalizeForDuplicateCheck(Some(s))
  {
    assert Lower(Upper(s)) == Lower(s) by {
      forall i | 0 <= i < |s|
        ensures Lower(Upper(s))[i] == Lower(s)[i]
      {
      }
    }
  }

  /** Lowering works character by character, so it distributes over concatenation. */
  lemma LowerAppend(x: string, y: string)
    ensures Lower(x + y) == Lower(x) + Lower(y)
  {
    assert forall i :: 0 <= i < |x + y| ==> Lower(x + y)[i] == (Lower(x) + Lower(y))[i];
  }

  /** Neither do punctuation and spaces between the letters count: a character outside [A-Za-z0-9] is dropped. */
  lemma NormalizeIgnoresPunctuation(a: string, c: char, b: string)
    requires !IsAlnum(c) && !('A' <= c <= 'Z')
    ensures NormalizeForDuplicateCheck(Some(a + [c] + b)) == NormalizeForDuplicateCheck(Some(a + b))
  {
    var la, lb := Lower(a), Lower(b);
    assert a + [c] + b == a + ([c] + b);
    calc {
      NormalizeForDuplicateCheck(Some(a + [c] + b));
      KeepAlnum(Lower(a + ([c] + b)));
      { LowerAppend(a, [c] + b); LowerAppend([c], b); assert Lower([c]) == [c]; }
      Filter(la + ([c] + lb), IsAlnum);
      { FilterAppend(la, [c] + lb, IsAlnum); FilterAppend([c], lb, IsAlnum); }
      Filter(la, IsAlnum) + (Filter([c], IsAlnum) + Filter(lb, IsAlnum));
      { assert [c][..0] == []; }
      Filter(la, IsAlnum) + Filter(lb, IsAlnum);
      { FilterAppend(la, lb, IsAlnum); LowerAppend(a, b); }
      KeepAlnum(Lower(a + b));
    }
  }

  // ---------------------------------------------------------------------------------------------
  // normalizeYear

  /**
   * What replaceAll("[^0-9].*", "") leaves: the leading run of ASCII digits. (Where `.` stops at a
   * line terminator, the terminator is itself a non-digit and the next match removes the rest.)
   */
  function LeadingDigits(s: string): (r: string)
    ensures |r| <= |s| && r == s[..|r|]
    ensures forall i :: 0 <= i < |r| ==> IsDigit(r[i])
    ensures |r| < |s| ==> !IsDigit(s[|r|])
  {
    if s == [] || !IsDigit(s[0]) then []
    else [s[0]] + LeadingDigits(s[1..])
  }

  /** Whether s opens with four ASCII digits. */
  predicate HasFourDigitPrefix(s: string) {
    |s| >= 4 && IsDigit(s[0]) && IsDigit(s[1]) && IsDigit(s[2]) && IsDigit(s[3])
  }

  /**
   * normalizeYear: "Unknown" for a missing year or one containing "UNKNOWN"; otherwise the first
   * four digits when the year opens with at least four, "Unknown" when it opens with no digit,
   * and the year unchanged when it opens with one to three digits.
   */
  function NormalizeYear(year: Option<string>): (r: string)
    ensures year.None? || Contains(year.value, "UNKNOWN") ==> r == "Unknown"
    ensures year.Some? && !Contains(year.value, "UNKNOWN") ==>
      var y := year.value;
      && (HasFourDigitPrefix(y) ==> r == y[..4])
      && (y == [] || !IsDigit(y[0]) ==> r == "Unknown")
      && (y != [] && IsDigit(y[0]) && !HasFourDigitPrefix(y) ==> r == y)
  {
    if year.None? || Contains(year.value, "UNKNOWN") then "Unknown"
    else
      var normalized := LeadingDigits(year.value);
      if |normalized| >= 4 then normalized[..4]
      else if normalized == [] then "Unknown"
      else year.value
  }

  /** Nothing shorter than a part contains it. */
  lemma {:induction false} TooShortToContain(s: string, part: string)
    requires |s| < |part|
    ensures !Contains(s, part)
    decreases |s|
  {
    if s != [] {
      TooShortToContain(s[1..], part);
    }
  }

  /** "Unknown" does not contain "UNKNOWN": the comparison is case-sensitive. */
  lemma UnknownLacksMarker()
    ensures !Contains("Unknown", "UNKNOWN")
  {
    assert "Unknown"[..7][1] != "UNKNOWN"[1];
    TooShortToContain("Unknown"[1..], "UNKNOWN");
  }

  /** A string of digits only has no "UNKNOWN" in it. */
  lemma {:induction false} DigitsLackMarker(s: string)
    requires forall i :: 0 <= i < |s| ==> IsDigit(s[i])
    ensures !Contains(s, "UNKNOWN")
    decreases |s|
  {
    if s != [] {
      assert !StartsWith(s, "UNKNOWN") by {
        if |s| >= 7 {
          assert IsDigit(s[0]);
        }
      }
      DigitsLackMarker(s[1..]);
    }
  }

  /** A normalised year normalises to itself: the year chart's buckets are stable. */
  lemma NormalizeYearIdempotent(year: Option<string>)
    ensures NormalizeYear(Some(NormalizeYear(year))) == NormalizeYear(year)
  {
    var r := NormalizeYear(year);
    if r == "Unknown" {
      UnknownLacksMarker();
      assert !IsDigit(r[0]);
    } else if year.Some? && !Contains(year.value, "UNKNOWN") && HasFourDigitPrefix(year.value) {
      DigitsLackMarker(r);
      assert HasFourDigitPrefix(r) && r[..4] == r;
    } else {
      assert r == year.value;
    }
  }

  // ---------------------------------------------------------------------------------------------
  // categorizeBitrate

  /** The bitrate chart's categories, lowest first. */
  const BitrateOrder: seq<string> := ["< 128", "128", "192", "256", "320", "Lossless"]

  /** categorizeBitrate: "Unknown" for no bitrate, otherwise one of the six categories. */
  function CategorizeBitrate(bitrate: Option<int>): (r: string)
    ensures bitrate.None? <==> r == "Unknown"
    ensures bitrate.Some? ==> r in BitrateOrder
  {
    if bitrate.None? then "Unknown"
    else
      var b := bitrate.value;
      if b > 500 then "Lossless"
      else if b >= 320 then "320"
      else if b >= 256 then "256"
      else if b >= 192 then "192"
      else if b >= 128 then "128"
      else "< 128"
  }

  /** The position of a category in the chart order. */
  function BitrateRank(category: string): (i: nat)
    requires category in BitrateOrder
    ensures i < |BitrateOrder| && BitrateOrder[i] == category
  {
    var i :| 0 <= i < |BitrateOrder| && BitrateOrder[i] == category;
    i
  }

  /** A higher bitrate never lands in a lower category. */
  lemma CategorizeBitrateMonotone(lo: int, hi: int)
    requires lo <= hi
    ensures BitrateRank(CategorizeBitrate(Some(lo))) <= BitrateRank(CategorizeBitrate(Some(hi)))
  {
  }

  // ---------------------------------------------------------------------------------------------
  // formatDuration

  /** A duration split into hours, minutes below 60 and seconds below 60. */
  datatype Clock = Clock(hours: nat, minutes: nat, seconds: nat)

  /** The clock reading of a non-negative number of seconds. */
  function ClockOf(s: nat): (c: Clock)
    ensures c.hours * 3600 + c.minutes * 60 + c.seconds == s
    ensures c.minutes < 60 && c.seconds < 60
  {
    var h, rest := s / 3600, s % 3600;
    assert rest == (rest / 60) * 60 + rest % 60;
    assert rest % 60 == s % 60 by {
      assert s == h * 3600 + rest;
      assert h * 3600 == (h * 60) * 60;
    }
    Clock(h, rest / 60, s % 60)
  }

  /**
   * formatDuration: "Ns" under a minute, "Mm Ss" under an hour, "Hh Mm Ss" otherwise, with the
   * hours, minutes and seconds of the clock reading.
   */
  function FormatDuration(seconds: int): (r: string)
    ensures seconds < 60 ==> r == IntToString(seconds) + "s"
    ensures 60 <= seconds < 3600 ==>
      var c := ClockOf(seconds);
      c.hours == 0 && r == NatToString(c.minutes) + "m " + NatToString(c.seconds) + "s"
    ensures seconds >= 3600 ==>
      var c := ClockOf(seconds);
      c.hours > 0 && r == NatToString(c.hours) + "h " + NatToString(c.minutes) + "m " + NatToString(c.seconds) + "s"
  {
    if seconds < 60 then IntToString(seconds) + "s"
    else if seconds < 3600 then NatToString(seconds / 60) + "m " + NatToString(seconds % 60) + "s"
    else NatToString(seconds / 3600) + "h " + NatToString((seconds % 3600) / 60) + "m " + NatToString(seconds % 60) + "s"
  }

  // ---------------------------------------------------------------------------------------------
  // getStatusCssClass

  /** getStatusCssClass: one "status-" class per status, all five covered. */
  function StatusCssClass(status: DirStatus): (r: string)
    ensures StartsWith(r, "status-")
  {
    match status
    case Ok => "status-ok"
    case NoTag => "status-warning"
    case CopyError => "status-error"
    case Empty => "status-empty"
    case Skipped => "status-skipped"
  }

  /** Different statuses get different classes. */
  lemma StatusCssClassInjective(a: DirStatus, b: DirStatus)
    requires a != b
    ensures StatusCssClass(a) != StatusCssClass(b)
  {
  }

  // ---------------------------------------------------------------------------------------------
  // String.split with a literal separator

  /** sep occurs in s at index k. */
  predicate OccursAt(s: string, sep: string, k: nat) {
    k + |sep| <= |s| && s[k..k + |sep|] == sep
  }

  /** The first occurrence of sep in s at or after i. */
  function Find(s: string, sep: string, i: nat): (r: Option<nat>)
    requires sep != []
    ensures r.Some? ==> i <= r.value && OccursAt(s, sep, r.value)
    ensures r.Some? ==> forall k :: i <= k < r.value ==> !OccursAt(s, sep, k)
    ensures r.None? ==> forall k :: i <= k ==> !OccursAt(s, sep, k)
    decreases |s| - i
  {
    if i + |sep| > |s| then None
    else if s[i..i + |sep|] == sep then Some(i)
    else Find(s, sep, i + 1)
  }

  /** The pieces between the occurrences of sep, left to right, empty ones included. */
  function Pieces(s: string, sep: string): (r: seq<string>)
    requires sep != []
    ensures |r| >= 1
    decreases |s|
  {
    match Find(s, sep, 0)
    case None => [s]
    case Some(k) => [s[..k]] + Pieces(s[k + |sep|..], sep)
  }

  /** Trailing empty strings removed, as split with limit 0 does. */
  function DropTrailingEmpty(parts: seq<string>): (r: seq<string>)
    ensures |r| <= |parts| && r == parts[..|r|]
    ensures r != [] ==> r[|r| - 1] != ""
    ensures forall i :: |r| <= i < |parts| ==> parts[i] == ""
  {
    if parts == [] || parts[|parts| - 1] != "" then parts
    else DropTrailingEmpty(parts[..|parts| - 1])
  }

  /** String.split(sep) for a separator with no regular-expression syntax in it. */
  function Split(s: string, sep: string): seq<string>
    requires sep != []
  {
    if Find(s, sep, 0).None? then [s] else DropTrailingEmpty(Pieces(s, sep))
  }

  // ---------------------------------------------------------------------------------------------
  // Duplicate albums

  const Separator: string := " /// "

  /** A directory takes part in the duplicate check when it has an artist and an album and is not empty. */
  predicate DuplicateCandidate(d: DirValue) {
    d.artist.Some? && d.album.Some? && !d.empty
  }

  /** The grouping key: normalised artist, the separator, normalised album. */
  function DuplicateKey(d: DirValue): string {
    NormalizeForDuplicateCheck(d.artist) + Separator + NormalizeForDuplicateCheck(d.album)
  }

  /** A string of [a-z0-9] has no blank, so the separator cannot start inside it. */
  lemma NoSeparatorIn(s: string)
    requires forall c :: c in s ==> IsAlnum(c)
    ensures forall k: nat :: !OccursAt(s, Separator, k)
    ensures Find(s, Separator, 0).None?
  {
    forall k: nat
      ensures !OccursAt(s, Separator, k)
    {
      if k + 5 <= |s| {
        assert s[k] in s;
        assert s[k..k + 5][0] == s[k];
      }
    }
  }

  /** The key of two normalised names splits into exactly those two names. */
  lemma PiecesOfKey(a: string, b: string)
    requires forall c :: c in a ==> IsAlnum(c)
    requires forall c :: c in b ==> IsAlnum(c)
    ensures Find(a + Separator + b, Separator, 0) == Some(|a|)
    ensures Pieces(a + Separator + b, Separator) == [a, b]
  {
    var s := a + Separator + b;
    assert OccursAt(s, Separator, |a|) by {
      assert s[|a|..|a| + 5] == Separator;
    }
    forall k | 0 <= k < |a|
      ensures !OccursAt(s, Separator, k)
    {
      assert s[k] == a[k] && a[k] in a;
      assert k + 5 <= |s| ==> s[k..k + 5][0] == s[k];
    }
    assert s[..|a|] == a && s[|a| + 5..] == b;
    NoSeparatorIn(b);
  }

  /** How split(" /// ") cuts a key: trailing empty names are dropped, so both empty leaves nothing. */
  lemma KeySplit(a: string, b: string)
    requires forall c :: c in a ==> IsAlnum(c)
    requires forall c :: c in b ==> IsAlnum(c)
    ensures b != "" ==> Split(a + Separator + b, Separator) == [a, b]
    ensures b == "" && a != "" ==> Split(a + Separator + b, Separator) == [a]
    ensures b == "" && a == "" ==> Split(a + Separator + b, Separator) == []
  {
    PiecesOfKey(a, b);
    var parts := Split(a + Separator + b, Separator);
    assert parts == DropTrailingEmpty([a, b]);
    if b == "" {
      assert [a, b][..1] == [a];
      assert DropTrailingEmpty([a, b]) == DropTrailingEmpty([a]);
      if a == "" {
        assert [a][..0] == [];
        assert DropTrailingEmpty([a]) == DropTrailingEmpty([]);
      }
    }
  }

  /** The artist and album a duplicate group shows. */
  datatype GroupNames = GroupNames(artist: string, album: string)

  /** The group's names as the report code reads them: parts[0] fails when the split is empty. */
  function GroupNamesAsWritten(key: string): Result<GroupNames, string> {
    var parts := Split(key, Separator);
    if |parts| == 0 then Err("ArrayIndexOutOfBoundsException")
    else Result.Ok(GroupNames(parts[0], if |parts| > 1 then parts[1] else ""))
  }

  /** As written, the names come back whenever at least one of them is not empty. */
  lemma GroupNamesAsWrittenRecovers(a: string, b: string)
    requires forall c :: c in a ==> IsAlnum(c)
    requires forall c :: c in b ==> IsAlnum(c)
    requires a != "" || b != ""
    ensures GroupNamesAsWritten(a + Separator + b) == Result.Ok(GroupNames(a, b))
  {
    KeySplit(a, b);
  }

  /** As written, two normalised names that are both empty make the group fail. */
  lemma GroupNamesAsWrittenFails(d: DirValue)
    requires NormalizeForDuplicateCheck(d.artist) == "" && NormalizeForDuplicateCheck(d.album) == ""
    ensures DuplicateKey(d) == Separator
    ensures GroupNamesAsWritten(DuplicateKey(d)).Err?
  {
    PiecesOfKey("", "");
    assert "" + Separator + "" == Separator;
    assert ["", ""][..1] == [""] && [""][..0] == [];
  }

  /** An album tagged only with letters outside [A-Za-z0-9]: artist "!!!", album "???". */
  lemma PunctuationOnlyTagsFail()
    ensures NormalizeForDuplicateCheck(Some("!!!")) == ""
    ensures NormalizeForDuplicateCheck(Some("???")) == ""
    ensures GroupNamesAsWritten(Separator).Err?
  {
    assert Lower("!!!") == "!!!";
    assert Lower("???") == "???";
    FilterNone("!!!", IsAlnum);
    FilterNone("???", IsAlnum);
    PiecesOfKey("", "");
    assert "" + Separator + "" == Separator;
    assert ["", ""][..1] == [""] && [""][..0] == [];
  }

  /** The group's names, with the empty split read as two empty names. */
  function GroupNamesOf(key: string): GroupNames {
    var parts := Split(key, Separator);
    GroupNames(if |parts| > 0 then parts[0] else "", if |parts| > 1 then parts[1] else "")
  }

  /** Every key splits back into the two normalised names it was made of. */
  lemma GroupNamesOfRecovers(a: string, b: string)
    requires forall c :: c in a ==> IsAlnum(c)
    requires forall c :: c in b ==> IsAlnum(c)
    ensures GroupNamesOf(a + Separator + b) == GroupNames(a, b)
  {
    KeySplit(a, b);
  }

  /** A group's names are the normalised artist and album of each of its directories. */
  lemma GroupNamesOfDirectory(d: DirValue)
    ensures GroupNamesOf(DuplicateKey(d)) ==
      GroupNames(NormalizeForDuplicateCheck(d.artist), NormalizeForDuplicateCheck(d.album))
  {
    GroupNamesOfRecovers(NormalizeForDuplicateCheck(d.artist), NormalizeForDuplicateCheck(d.album));
  }

  // ---------------------------------------------------------------------------------------------
  // The duplicate-album list: groups of more than one directory, in key order

  /** String.compareTo(a, b) < 0: the first differing character decides, and a proper prefix comes first. */
  predicate StrLess(a: string, b: string)
    decreases |a|
  {
    if a == [] then b != []
    else b != [] && (a[0] < b[0] || (a[0] == b[0] && StrLess(a[1..], b[1..])))
  }

  lemma {:induction false} StrLessIrreflexive(a: string)
    ensures !StrLess(a, a)
    decreases |a|
  {
    if a != [] {
      StrLessIrreflexive(a[1..]);
    }
  }

  lemma {:induction false} StrLessTransitive(a: string, b: string, c: string)
    requires StrLess(a, b) && StrLess(b, c)
    ensures StrLess(a, c)
    decreases |a|
  {
    if a != [] && a[0] == b[0] && b[0] == c[0] {
      StrLessTransitive(a[1..], b[1..], c[1..]);
    }
  }

  lemma {:induction false} StrLessTotal(a: string, b: string)
    requires a != b
    ensures StrLess(a, b) || StrLess(b, a)
    decreases |a|
  {
    if a != [] && b != [] && a[0] == b[0] {
      assert a == [a[0]] + a[1..] && b == [b[0]] + b[1..];
      StrLessTotal(a[1..], b[1..]);
    }
  }

  predicate StrictlyIncreasing(ks: seq<string>) {
    forall i, j :: 0 <= i < j < |ks| ==> StrLess(ks[i], ks[j])
  }

  /** One key added to a strictly increasing list of keys, where it belongs and only once. */
  function InsertKey(ks: seq<string>, k: string): (r: seq<string>)
    requires StrictlyIncreasing(ks)
    ensures StrictlyIncreasing(r)
    ensures forall x :: x in r <==> x in ks || x == k
  {
    if ks == [] then [k]
    else if k == ks[0] then ks
    else if StrLess(k, ks[0]) then
      assert forall j :: 0 < j < |ks| ==> StrLess(k, ks[j]) by {
        forall j | 0 < j < |ks| {
          StrLessTransitive(k, ks[0], ks[j]);
        }
      }
      [k] + ks
    else
      StrLessTotal(k, ks[0]);
      var rest := InsertKey(ks[1..], k);
      assert forall x :: x in rest ==> StrLess(ks[0], x) by {
        forall x | x in rest
          ensures StrLess(ks[0], x)
        {
          if x in ks[1..] {
            var j :| 0 <= j < |ks[1..]| && ks[1..][j] == x;
            assert ks[j + 1] == x;
          }
        }
      }
      [ks[0]] + rest
  }

  /** The keys of the candidate directories of ds, each once, in increasing order (a sorted key set). */
  function SortedKeys(ds: seq<DirValue>): (r: seq<string>)
    ensures StrictlyIncreasing(r)
    ensures forall k :: k in r <==> Filter(ds, InGroup(k)) != []
    decreases |ds|
  {
    if ds == [] then []
    else
      var init, last := ds[..|ds| - 1], ds[|ds| - 1];
      var keys := SortedKeys(init);
      if DuplicateCandidate(last) then InsertKey(keys, DuplicateKey(last)) else keys
  }

  /** The directories of a group: candidates with that key, in their original order. */
  function InGroup(key: string): DirValue -> bool {
    d => DuplicateCandidate(d) && DuplicateKey(d) == key
  }

  /** One entry of the duplicate-album list. */
  datatype DuplicateGroup = DuplicateGroup(key: string, names: GroupNames, count: nat, directories: seq<DirValue>)

  /** The group of one key: its names, how many directories, and which. */
  function GroupOf(ds: seq<DirValue>, key: string): DuplicateGroup {
    var members := Filter(ds, InGroup(key));
    DuplicateGroup(key, GroupNamesOf(key), |members|, members)
  }

  /** The groups of the given keys, in the keys' order, that hold more than one directory. */
  function GroupsFor(ds: seq<DirValue>, keys: seq<string>): (r: seq<DuplicateGroup>)
    ensures forall i :: 0 <= i < |r| ==> r[i].key in keys && r[i] == GroupOf(ds, r[i].key) && r[i].count > 1
  {
    if keys == [] then []
    else
      var g := GroupOf(ds, keys[0]);
      var rest := GroupsFor(ds, keys[1..]);
      assert forall k :: k in keys[1..] ==> k in keys;
      if g.count > 1 then [g] + rest else rest
  }

  /** Every key whose group holds more than one directory has its entry. */
  lemma {:induction false} GroupsForComplete(ds: seq<DirValue>, keys: seq<string>, k: string)
    requires k in keys && GroupOf(ds, k).count > 1
    ensures exists i :: 0 <= i < |GroupsFor(ds, keys)| && GroupsFor(ds, keys)[i].key == k
    decreases |keys|
  {
    var r := GroupsFor(ds, keys);
    var g := GroupOf(ds, keys[0]);
    var rest := GroupsFor(ds, keys[1..]);
    assert r == if g.count > 1 then [g] + rest else rest;
    if k == keys[0] {
      assert r[0] == g;
    } else {
      assert k in keys[1..];
      GroupsForComplete(ds, keys[1..], k);
      var i :| 0 <= i < |rest| && rest[i].key == k;
      if g.count > 1 {
        assert r[i + 1] == rest[i];
      } else {
        assert r[i] == rest[i];
      }
    }
  }

  /** Increasing keys give groups in increasing key order. */
  lemma {:induction false} GroupsForOrdered(ds: seq<DirValue>, keys: seq<string>)
    requires StrictlyIncreasing(keys)
    ensures KeysIncreasing(GroupsFor(ds, keys))
    decreases |keys|
  {
    if keys != [] {
      var tail := keys[1..];
      assert StrictlyIncreasing(tail);
      GroupsForOrdered(ds, tail);
      var rest := GroupsFor(ds, tail);
      assert forall i :: 0 <= i < |rest| ==> StrLess(keys[0], rest[i].key) by {
        forall i | 0 <= i < |rest|
          ensures StrLess(keys[0], rest[i].key)
        {
          var j :| 0 <= j < |tail| && tail[j] == rest[i].key;
          assert keys[j + 1] == tail[j];
        }
      }
      var g := GroupOf(ds, keys[0]);
      if g.count > 1 {
        KeysIncreasingCons(g, rest);
      }
    }
  }

  /** The groups are in strictly increasing key order. */
  predicate KeysIncreasing(gs: seq<DuplicateGroup>) {
    forall i, j :: 0 <= i < j < |gs| ==> StrLess(gs[i].key, gs[j].key)
  }

  /** A group whose key comes before every key of an ordered list can go in front of it. */
  lemma KeysIncreasingCons(g: DuplicateGroup, rest: seq<DuplicateGroup>)
    requires forall i :: 0 <= i < |rest| ==> StrLess(g.key, rest[i].key)
    requires KeysIncreasing(rest)
    ensures KeysIncreasing([g] + rest)
  {
    var r := [g] + rest;
    forall i, j | 0 <= i < j < |r|
      ensures StrLess(r[i].key, r[j].key)
    {
      assert r[j] == rest[j - 1];
      if i > 0 {
        assert r[i] == rest[i - 1];
      }
    }
  }

  /**
   * The duplicate-album list: one group per key with more than one candidate directory, the
   * groups in increasing key order, each with its directories in their original order.
   */
  function DuplicateGroups(ds: seq<DirValue>): (r: seq<DuplicateGroup>)
    ensures forall i, j :: 0 <= i < j < |r| ==> StrLess(r[i].key, r[j].key)
    ensures forall i :: 0 <= i < |r| ==> r[i] == GroupOf(ds, r[i].key) && r[i].count > 1
    ensures forall d :: d in ds && DuplicateCandidate(d) && GroupOf(ds, DuplicateKey(d)).count > 1 ==>
      exists i :: 0 <= i < |r| && r[i].key == DuplicateKey(d)
  {
    var keys := SortedKeys(ds);
    GroupsForOrdered(ds, keys);
    forall d | d in ds && DuplicateCandidate(d) && GroupOf(ds, DuplicateKey(d)).count > 1
      ensures exists i :: 0 <= i < |GroupsFor(ds, keys)| && GroupsFor(ds, keys)[i].key == DuplicateKey(d)
    {
      FilterMembers(ds, InGroup(DuplicateKey(d)), d);
      GroupsForComplete(ds, keys, DuplicateKey(d));
    }
    GroupsFor(ds, keys)
  }

  /**
   * As written, two candidate folders whose artist and album both normalise to nothing form a
   * duplicate group (two directories under the key of two empty names), and reading that
   * group's names fails.
   */
  lemma DuplicateGroupAsWrittenFails(a: DirValue, b: DirValue)
    requires DuplicateCandidate(a) && DuplicateCandidate(b)
    requires NormalizeForDuplicateCheck(a.artist) == "" && NormalizeForDuplicateCheck(a.album) == ""
    requires NormalizeForDuplicateCheck(b.artist) == "" && NormalizeForDuplicateCheck(b.album) == ""
    ensures exists i :: 0 <= i < |DuplicateGroups([a, b])| && DuplicateGroups([a, b])[i].key == Separator &&
                        DuplicateGroups([a, b])[i].count == 2 && GroupNamesAsWritten(DuplicateGroups([a, b])[i].key).Err?
  {
    GroupNamesAsWrittenFails(a);
    GroupNamesAsWrittenFails(b);
    var ds := [a, b];
    FilterKeepsPair(a, b, InGroup(Separator));
    var r := DuplicateGroups(ds);
    assert a in ds && GroupOf(ds, DuplicateKey(a)).count > 1;
    var i :| 0 <= i < |r| && r[i].key == Separator;
    assert r[i] == GroupOf(ds, Separator);
  }

  /** Every directory of a group shows the group's names: its own normalised artist and album. */
  lemma DuplicateGroupNames(ds: seq<DirValue>, i: nat, d: DirValue)
    requires i < |DuplicateGroups(ds)| && d in DuplicateGroups(ds)[i].directories
    ensures DuplicateCandidate(d)
    ensures DuplicateGroups(ds)[i].names == GroupNames(NormalizeForDuplicateCheck(d.artist), NormalizeForDuplicateCheck(d.album))
  {
    var g := DuplicateGroups(ds)[i];
    FilterMembers(ds, InGroup(g.key), d);
    GroupNamesOfDirectory(d);
  }

  // ---------------------------------------------------------------------------------------------
  // The small-album list: non-empty directories with at most two files, fewest files first

  predicate IsSmallAlbum(d: DirValue) {
    !d.empty && FilesCount(d) <= 2
  }

  /** s is in non-decreasing order of key. */
  predicate SortedBy<T>(s: seq<T>, key: T -> int) {
    forall i, j :: 0 <= i < j < |s| ==> key(s[i]) <= key(s[j])
  }

  /** x placed after every element whose key is at most its own, before the first with a larger key. */
  function InsertBy<T(!new)>(s: seq<T>, x: T, key: T -> int): (r: seq<T>)
    requires SortedBy(s, key)
    ensures SortedBy(r, key)
    ensures multiset(r) == multiset(s) + multiset{x}
    ensures forall y :: y in r <==> y in s || y == x
  {
    if s == [] then [x]
    else if key(x) < key(s[0]) then
      InsertFront(s, x, key);
      [x] + s
    else
      var rest := InsertBy(s[1..], x, key);
      InsertBehind(s, x, key, rest);
      [s[0]] + rest
  }

  /** x with a key below the first one goes in front. */
  lemma InsertFront<T>(s: seq<T>, x: T, key: T -> int)
    requires SortedBy(s, key) && s != [] && key(x) < key(s[0])
    ensures SortedBy([x] + s, key)
  {
    forall y | y in s
      ensures key(x) <= key(y)
    {
      var j :| 0 <= j < |s| && s[j] == y;
    }
    SortedByCons(x, s, key);
  }

  /** x with a key at least the first one goes into the rest, behind the first element. */
  lemma InsertBehind<T>(s: seq<T>, x: T, key: T -> int, rest: seq<T>)
    requires SortedBy(s, key) && s != [] && key(s[0]) <= key(x)
    requires SortedBy(rest, key) && multiset(rest) == multiset(s[1..]) + multiset{x}
    requires forall y :: y in rest <==> y in s[1..] || y == x
    ensures SortedBy([s[0]] + rest, key)
    ensures multiset([s[0]] + rest) == multiset(s) + multiset{x}
    ensures forall y :: y in [s[0]] + rest <==> y in s || y == x
  {
    assert s == [s[0]] + s[1..];
    forall y | y in rest
      ensures key(s[0]) <= key(y)
    {
      if y != x {
        var j :| 0 <= j < |s[1..]| && s[1..][j] == y;
        assert s[j + 1] == y;
      }
    }
    SortedByCons(s[0], rest, key);
  }

  /** An element whose key is at most every key of a sorted list can go in front of it. */
  lemma SortedByCons<T>(x: T, s: seq<T>, key: T -> int)
    requires SortedBy(s, key) && forall y :: y in s ==> key(x) <= key(y)
    ensures SortedBy([x] + s, key)
  {
    var r := [x] + s;
    forall i, j | 0 <= i < j < |r|
      ensures key(r[i]) <= key(r[j])
    {
      assert r[j] == s[j - 1] && s[j - 1] in s;
      if i > 0 {
        assert r[i] == s[i - 1];
      }
    }
  }

  /** A stable sort on an integer key, as Stream.sorted(Comparator.comparing(key)) is. */
  function SortBy<T(!new)>(s: seq<T>, key: T -> int): (r: seq<T>)
    ensures SortedBy(r, key)
    ensures multiset(r) == multiset(s)
    decreases |s|
  {
    if s == [] then []
    else
      assert s == s[..|s| - 1] + [s[|s| - 1]];
      InsertBy(SortBy(s[..|s| - 1], key), s[|s| - 1], key)
  }

  /** The elements whose key is c. */
  function KeyIs<T>(key: T -> int, c: int): T -> bool {
    x => key(x) == c
  }

  /** In a sorted list, nothing has a smaller key than the first. */
  lemma SortedNoneBelow<T(!new)>(s: seq<T>, key: T -> int, c: int)
    requires SortedBy(s, key) && s != [] && c < key(s[0])
    ensures Filter(s, KeyIs(key, c)) == []
  {
    FilterNone(s, KeyIs(key, c));
  }

  /** x placed in front of a sorted list whose keys all exceed its own. */
  lemma InsertFrontStable<T(!new)>(s: seq<T>, x: T, key: T -> int, c: int)
    requires SortedBy(s, key) && s != [] && key(x) < key(s[0])
    ensures Filter([x] + s, KeyIs(key, c)) == Filter(s, KeyIs(key, c)) + Filter([x], KeyIs(key, c))
  {
    var p := KeyIs(key, c);
    FilterAppend([x], s, p);
    if key(x) == c {
      SortedNoneBelow(s, key, c);
    } else {
      assert [x][..0] == [];
    }
  }

  /** Inserting keeps the order among elements of equal key, with x behind its equals. */
  lemma {:induction false} InsertByStable<T(!new)>(s: seq<T>, x: T, key: T -> int, c: int)
    requires SortedBy(s, key)
    ensures Filter(InsertBy(s, x, key), KeyIs(key, c)) == Filter(s, KeyIs(key, c)) + Filter([x], KeyIs(key, c))
    decreases |s|
  {
    var p := KeyIs(key, c);
    if s == [] {
      assert [] + [x] == [x];
    } else if key(x) < key(s[0]) {
      InsertFrontStable(s, x, key, c);
    } else {
      var rest := InsertBy(s[1..], x, key);
      calc {
        Filter(InsertBy(s, x, key), p);
        Filter([s[0]] + rest, p);
        { FilterAppend([s[0]], rest, p); }
        Filter([s[0]], p) + Filter(rest, p);
        { InsertByStable(s[1..], x, key, c); }
        Filter([s[0]], p) + (Filter(s[1..], p) + Filter([x], p));
        { FilterAppend([s[0]], s[1..], p); assert s == [s[0]] + s[1..]; }
        Filter(s, p) + Filter([x], p);
      }
    }
  }

  /** The sort is stable: elements with the same key keep their relative order. */
  lemma {:induction false} SortByStable<T(!new)>(s: seq<T>, key: T -> int, c: int)
    ensures Filter(SortBy(s, key), KeyIs(key, c)) == Filter(s, KeyIs(key, c))
    decreases |s|
  {
    if s != [] {
      var init, last, p := s[..|s| - 1], s[|s| - 1], KeyIs(key, c);
      calc {
        Filter(SortBy(s, key), p);
        Filter(InsertBy(SortBy(init, key), last, key), p);
        { InsertByStable(SortBy(init, key), last, key, c); }
        Filter(SortBy(init, key), p) + Filter([last], p);
        { SortByStable(init, key, c); }
        Filter(init, p) + Filter([last], p);
        { FilterAppend(init, [last], p); assert s == init + [last]; }
        Filter(s, p);
      }
    }
  }

  /** getFilesCount as the sort key. */
  function FileCountKey(d: DirValue): int {
    FilesCount(d)
  }

  /** smallAlbums: the small albums of ds, fewest files first, equal counts in their original order. */
  function SmallAlbums(ds: seq<DirValue>): (r: seq<DirValue>)
    ensures SortedBy(r, FileCountKey)
    ensures multiset(r) == multiset(Filter(ds, IsSmallAlbum))
    ensures forall i :: 0 <= i < |r| ==> IsSmallAlbum(r[i])
  {
    var small := Filter(ds, IsSmallAlbum);
    var r := SortBy(small, FileCountKey);
    assert forall i :: 0 <= i < |r| ==> r[i] in multiset(small);
    r
  }

  /** Small albums with the same number of files appear in the order of the directory reports. */
  lemma SmallAlbumsStable(ds: seq<DirValue>, c: int)
    ensures Filter(SmallAlbums(ds), KeyIs(FileCountKey, c)) == Filter(Filter(ds, IsSmallAlbum), KeyIs(FileCountKey, c))
  {
    SortByStable(Filter(ds, IsSmallAlbum), FileCountKey, c);
  }

  // ---------------------------------------------------------------------------------------------
  // The catalog: albums grouped by artist

  /** A catalog entry: a non-empty directory with files and an artist other than exactly "UNKNOWN_ARTIST". */
  predicate InCatalog(d: DirValue) {
    !d.empty && FilesCount(d) > 0 && d.artist.Some? && d.artist.value != "UNKNOWN_ARTIST"
  }

  /** The catalog entries of one artist. */
  function ByArtist(artist: string): DirValue -> bool {
    d => InCatalog(d) && d.artist == Some(artist)
  }

  /**
   * catalogByArtist: for each artist of a catalog entry, that artist's entries in their original
   * order; no other artist has a key.
   */
  function CatalogByArtist(ds: seq<DirValue>): (r: map<string, seq<DirValue>>)
    ensures forall a :: a in r ==> r[a] == Filter(ds, ByArtist(a)) && r[a] != []
    ensures forall a :: a !in r ==> Filter(ds, ByArtist(a)) == []
    decreases |ds|
  {
    if ds == [] then map[]
    else
      var r := CatalogByArtist(ds[..|ds| - 1]);
      CatalogAddKeepsGroups(ds, r);
      CatalogAdd(r, ds[|ds| - 1])
  }

  /** One more directory: a catalog entry joins the end of its artist's list; anything else is dropped. */
  function CatalogAdd(r: map<string, seq<DirValue>>, d: DirValue): map<string, seq<DirValue>> {
    if InCatalog(d) then
      var a := d.artist.value;
      r[a := (if a in r then r[a] else []) + [d]]
    else r
  }

  /** Adding the last directory to the catalog of the others gives the catalog of all of them. */
  lemma CatalogAddKeepsGroups(ds: seq<DirValue>, r: map<string, seq<DirValue>>)
    requires ds != []
    requires forall a :: a in r ==> r[a] == Filter(ds[..|ds| - 1], ByArtist(a)) && r[a] != []
    requires forall a :: a !in r ==> Filter(ds[..|ds| - 1], ByArtist(a)) == []
    ensures forall a :: a in CatalogAdd(r, ds[|ds| - 1]) ==>
      CatalogAdd(r, ds[|ds| - 1])[a] == Filter(ds, ByArtist(a)) && CatalogAdd(r, ds[|ds| - 1])[a] != []
    ensures forall a :: a !in CatalogAdd(r, ds[|ds| - 1]) ==> Filter(ds, ByArtist(a)) == []
  {
    var init, last := ds[..|ds| - 1], ds[|ds| - 1];
    var r' := CatalogAdd(r, last);
    forall a
      ensures a in r' ==> r'[a] == Filter(ds, ByArtist(a)) && r'[a] != []
      ensures a !in r' ==> Filter(ds, ByArtist(a)) == []
    {
      if ByArtist(a)(last) {
        assert Filter(ds, ByArtist(a)) == Filter(init, ByArtist(a)) + [last];
        assert r'[a] == (if a in r then r[a] else []) + [last];
      } else {
        assert Filter(ds, ByArtist(a)) == Filter(init, ByArtist(a)) + [];
        assert a in r' <==> a in r;
        assert a in r ==> r'[a] == r[a];
      }
    }
  }

  /** Only the exact default is dropped: every catalog entry's artist has a key, "UNKNOWN_ARTIST" none. */
  lemma CatalogArtists(ds: seq<DirValue>, d: DirValue)
    ensures d in ds && InCatalog(d) ==> d.artist.value in CatalogByArtist(ds)
    ensures "UNKNOWN_ARTIST" !in CatalogByArtist(ds)
  {
    var r := CatalogByArtist(ds);
    if d in ds && InCatalog(d) {
      FilterMembers(ds, ByArtist(d.artist.value), d);
    }
  }
}
