/**
 * MusicScanner: the depth-first walk over the input tree that builds one DirectoryReport per
 * directory and reads the directory's metadata from the first tagged audio file.
 */
module Scanner {
  import opened Wrappers
  import opened Text
  import opened Disk
  import opened Configuration
  import opened FileReports
  import opened DirectoryReports
  import opened Totals
  import opened Events

  /** isImageFile: the lowered name ends with one of six picture suffixes. */
  predicate IsImageName(name: string) {
    var lower := Lower(name);
    EndsWith(lower, ".jpg") || EndsWith(lower, ".jpeg") || EndsWith(lower, ".png")
    || EndsWith(lower, ".gif") || EndsWith(lower, ".bmp") || EndsWith(lower, ".webp")
  }

  /** What one scan needs besides the tree: the captured settings and the two outside inputs. */
  datatype ScanEnv = ScanEnv(
    extensions: set<string>,
    defaultArtist: Option<string>,
    defaultAlbum: Option<string>,
    defaultYear: Option<string>,
    reader: TagReader,
    cancelAt: Option<nat>)

  /** listFiles with the isAudioFile name filter: it sees folders and files alike, in listing order. */
  function AudioEntries(extensions: set<string>, entries: seq<Node>): seq<Node> {
    if entries == [] then []
    else (if IsAudioName(extensions, entries[0].name) then [entries[0]] else []) + AudioEntries(extensions, entries[1..])
  }

  /** listFiles with the isImageFile name filter. */
  function ImageEntries(entries: seq<Node>): seq<Node> {
    if entries == [] then []
    else (if IsImageName(entries[0].name) then [entries[0]] else []) + ImageEntries(entries[1..])
  }

  /** The audio entries are exactly the entries with an audio name, in listing order. */
  lemma {:induction false} AudioEntriesExactly(extensions: set<string>, entries: seq<Node>)
    ensures |AudioEntries(extensions, entries)| <= |entries|
    ensures forall n :: n in AudioEntries(extensions, entries) <==> n in entries && IsAudioName(extensions, n.name)
  {
    if entries != [] {
      AudioEntriesExactly(extensions, entries[1..]);
      assert entries == [entries[0]] + entries[1..];
    }
  }

  /** The image entries are exactly the entries with an image name. */
  lemma {:induction false} ImageEntriesExactly(entries: seq<Node>)
    ensures |ImageEntries(entries)| <= |entries|
    ensures forall n :: n in ImageEntries(entries) <==> n in entries && IsImageName(n.name)
  {
    if entries != [] {
      ImageEntriesExactly(entries[1..]);
      assert entries == [entries[0]] + entries[1..];
    }
  }

  /** AudioFileIO.read on an entry: a folder cannot be read as audio. */
  function ReadEntry(reader: TagReader, dir: Path, n: Node): AudioRead {
    if n.Folder? then ReadFailed else reader(Resolve(dir, n.name))
  }

  function ReadAll(reader: TagReader, dir: Path, ns: seq<Node>): (r: seq<AudioRead>)
    ensures |r| == |ns|
    ensures forall i :: 0 <= i < |ns| ==> r[i] == ReadEntry(reader, dir, ns[i])
  {
    seq(|ns|, i requires 0 <= i < |ns| => ReadEntry(reader, dir, ns[i]))
  }

  predicate HasTag(r: AudioRead) {
    r.Read? && r.tag.Some?
  }

  /** The tag the scanner adopts and the header it keeps. */
  datatype TagChoice = TagChoice(tag: Option<Tag>, header: Option<AudioHeader>)

  /**
   * The tag loop, file by file: a failed read is skipped, a successful one replaces the
   * header, and the first one with a tag ends the search.
   */
  function TagSearch(rds: seq<AudioRead>, header: Option<AudioHeader>): TagChoice
    decreases |rds|
  {
    if rds == [] then TagChoice(None, header)
    else if rds[0].ReadFailed? then TagSearch(rds[1..], header)
    else if rds[0].tag.Some? then TagChoice(rds[0].tag, rds[0].header)
    else TagSearch(rds[1..], rds[0].header)
  }

  /** The header of the last successful read, or h when no read succeeds. */
  function LastHeader(rds: seq<AudioRead>, h: Option<AudioHeader>): Option<AudioHeader> {
    if rds == [] then h
    else if rds[|rds| - 1].Read? then rds[|rds| - 1].header
    else LastHeader(rds[..|rds| - 1], h)
  }

  /** The adopted tag and header come from the first read that has a tag. */
  lemma {:induction false} TagSearchFirstTagged(rds: seq<AudioRead>, h: Option<AudioHeader>, i: nat)
    requires i < |rds| && HasTag(rds[i])
    requires forall j :: 0 <= j < i ==> !HasTag(rds[j])
    ensures TagSearch(rds, h) == TagChoice(rds[i].tag, rds[i].header)
    decreases i
  {
    if i > 0 {
      assert !HasTag(rds[0]);
      var next := if rds[0].Read? then rds[0].header else h;
      TagSearchFirstTagged(rds[1..], next, i - 1);
    }
  }

  lemma LastHeaderOfTail(rds: seq<AudioRead>, h: Option<AudioHeader>)
    requires rds != []
    ensures LastHeader(rds, h) == LastHeader(rds[1..], if rds[0].Read? then rds[0].header else h)
    decreases |rds|
  {
    if |rds| > 1 {
      var init := rds[..|rds| - 1];
      assert init[1..] == rds[1..][..|rds| - 2];
      LastHeaderOfTail(init, h);
    } else {
      assert rds[..0] == [];
    }
  }

  /** With no tagged file, nothing is adopted and the header is that of the last readable file. */
  lemma {:induction false} TagSearchUntagged(rds: seq<AudioRead>, h: Option<AudioHeader>)
    requires forall j :: 0 <= j < |rds| ==> !HasTag(rds[j])
    ensures TagSearch(rds, h) == TagChoice(None, LastHeader(rds, h))
    decreases |rds|
  {
    if rds != [] {
      assert !HasTag(rds[0]);
      var next := if rds[0].Read? then rds[0].header else h;
      TagSearchUntagged(rds[1..], next);
      LastHeaderOfTail(rds, h);
    }
  }

  /** A tag is adopted exactly when some file reads with a tag. */
  lemma TagFoundIff(rds: seq<AudioRead>, h: Option<AudioHeader>)
    ensures TagSearch(rds, h).tag.Some? <==> exists i :: 0 <= i < |rds| && HasTag(rds[i])
  {
    if exists i :: 0 <= i < |rds| && HasTag(rds[i]) {
      var i := FirstTagged(rds);
      TagSearchFirstTagged(rds, h, i);
    } else {
      TagSearchUntagged(rds, h);
    }
  }

  /** The index of the first read with a tag. */
  function FirstTagged(rds: seq<AudioRead>): (i: nat)
    requires exists i :: 0 <= i < |rds| && HasTag(rds[i])
    ensures i < |rds| && HasTag(rds[i])
    ensures forall j :: 0 <= j < i ==> !HasTag(rds[j])
    decreases |rds|
  {
    if HasTag(rds[0]) then 0
    else
      var i :| 0 <= i < |rds| && HasTag(rds[i]);
      assert HasTag(rds[1..][i - 1]);
      1 + FirstTagged(rds[1..])
  }

  /** The loop of scanDirectory that looks for a tag, with its break. */
  method FindTag(reader: TagReader, dir: Path, audio: seq<Node>) returns (tag: Option<Tag>, header: Option<AudioHeader>)
    ensures TagChoice(tag, header) == TagSearch(ReadAll(reader, dir, audio), None)
  {
    ghost var rds := ReadAll(reader, dir, audio);
    tag, header := None, None;
    var i := 0;
    while i < |audio|
      invariant 0 <= i <= |audio|
      invariant tag.None?
      invariant TagSearch(rds, None) == TagSearch(rds[i..], header)
    {
      var read := ReadEntry(reader, dir, audio[i]);
      assert rds[i..][0] == read && rds[i..][1..] == rds[i + 1..];
      if read.ReadFailed? {
        i := i + 1;
        continue;
      }
      header := read.header;
      if read.tag.Some? {
        tag := read.tag;
        break;
      }
      i := i + 1;
    }
  }

  /** A tag value replaces the current one only when it is present and not empty. */
  function Override(current: Option<string>, tagValue: Option<string>): (r: Option<string>)
    ensures tagValue.Some? && tagValue.value != "" ==> r == tagValue
    ensures tagValue.None? || tagValue.value == "" ==> r == current
  {
    if tagValue.Some? && tagValue.value != "" then tagValue else current
  }

  /** Java string concatenation renders null as "null". */
  function JavaString(s: Option<string>): string {
    if s.None? then "null" else s.value
  }

  /** The album default: the configured default followed by " (" + directory name + ")". */
  function AlbumDefault(defaultAlbum: Option<string>, dirName: string): string {
    JavaString(defaultAlbum) + " (" + dirName + ")"
  }

  datatype Metadata = Metadata(artist: Option<string>, album: Option<string>, year: Option<string>)

  /** The defaults, each overridden by the adopted tag's non-empty value. */
  function MetadataOf(env: ScanEnv, tag: Option<Tag>, dirName: string): Metadata {
    var base := Metadata(env.defaultArtist, Some(AlbumDefault(env.defaultAlbum, dirName)), env.defaultYear);
    if tag.None? then base
    else Metadata(Override(base.artist, tag.value.artist), Override(base.album, tag.value.album),
                  Override(base.year, tag.value.year))
  }

  /**
   * Without a tag the album names the directory; with one, each field is the tag's value when
   * that is non-empty and the default otherwise. No field is ever set to the empty string by a tag.
   */
  lemma MetadataChoice(env: ScanEnv, tag: Option<Tag>, dirName: string)
    ensures var m := MetadataOf(env, tag, dirName);
      && (tag.None? ==> m == Metadata(env.defaultArtist, Some(AlbumDefault(env.defaultAlbum, dirName)), env.defaultYear))
      && (m.artist.Some? && m.artist != env.defaultArtist ==> tag.Some? && m.artist == tag.value.artist && m.artist.value != "")
      && (m.year.Some? && m.year != env.defaultYear ==> tag.Some? && m.year == tag.value.year && m.year.value != "")
      && (EndsWith(m.album.value, " (" + dirName + ")") || (tag.Some? && m.album == tag.value.album && m.album.value != ""))
  {
  }

  lemma DefaultMetadataNeverEmpty(env: ScanEnv, tag: Option<Tag>, dirName: string)
    requires env.defaultArtist.Some? && env.defaultArtist.value != ""
    requires env.defaultYear.Some? && env.defaultYear.value != ""
    ensures var m := MetadataOf(env, tag, dirName);
      m.artist.Some? && m.artist.value != "" && m.album.Some? && m.album.value != "" && m.year.Some? && m.year.value != ""
  {
  }

  /** The format fields the header gives; a header-less directory keeps the initial values. */
  datatype FormatInfo = FormatInfo(format: Option<string>, variableBitrate: bool, bitrate: Option<int>, sampleRate: Option<int>)

  function FormatOf(header: Option<AudioHeader>): FormatInfo {
    if header.None? then FormatInfo(None, false, None, None)
    else
      var h := header.value;
      FormatInfo(Some(Upper(h.format)), Contains(h.bitRate, "~"),
                 ParseInt(ReplaceChar(h.bitRate, '~', "")), ParseInt(h.sampleRate))
  }

  lemma StartsWithContains(s: string, part: string)
    requires StartsWith(s, part)
    ensures Contains(s, part)
  {
  }

  /** A bit-rate text "~n" is variable with bitrate n; a text "n" is constant with bitrate n. */
  lemma {:induction false} BitRateText(h: AudioHeader, n: int)
    requires 0 <= n <= IntMax
    ensures h.bitRate == "~" + IntToString(n) ==> FormatOf(Some(h)).variableBitrate && FormatOf(Some(h)).bitrate == Some(n)
    ensures h.bitRate == IntToString(n) ==> !FormatOf(Some(h)).variableBitrate && FormatOf(Some(h)).bitrate == Some(n)
  {
    var digits := IntToString(n);
    assert '~' !in digits;
    ParseIntOfToString(n);
    if h.bitRate == "~" + digits {
      assert StartsWith(h.bitRate, "~");
      StartsWithContains(h.bitRate, "~");
      assert h.bitRate[1..] == digits;
      assert ReplaceChar(h.bitRate, '~', "") == ReplaceChar(digits, '~', "");
    }
    if h.bitRate == digits {
      NoTildeNotContained(digits);
    }
  }

  lemma {:induction false} NoTildeNotContained(s: string)
    requires '~' !in s
    ensures !Contains(s, "~")
    decreases |s|
  {
    if s != [] {
      assert s[0] in s;
      assert '~' !in s[1..];
      NoTildeNotContained(s[1..]);
    }
  }

  /** The cover image and the audio paths, which every folder records. */
  function DirBase(extensions: set<string>, entries: seq<Node>, path: Path, depth: int): DirValue {
    var images := ImageEntries(entries);
    NewDir(path, depth).(
      hasImageFile := images != [],
      coverImagePath := if images == [] then None else Some(Resolve(path, images[0].name)),
      audioFilePaths := PathsOf(path, AudioEntries(extensions, entries)))
  }

  lemma DirBaseFields(extensions: set<string>, entries: seq<Node>, path: Path, depth: int)
    ensures var images := ImageEntries(entries);
      DirBase(extensions, entries, path, depth) == NewDir(path, depth).(hasImageFile := images != [],
        coverImagePath := if images == [] then None else Some(Resolve(path, images[0].name)),
        audioFilePaths := PathsOf(path, AudioEntries(extensions, entries)))
  {
  }

  /** The outcome of the tag search recorded in a report. */
  function WithMetadata(d: DirValue, tagFound: bool, m: Metadata): DirValue {
    d.(tagFound := tagFound, artist := m.artist, album := m.album, year := m.year)
  }

  /** The header's format fields recorded in a report. */
  function WithFormat(d: DirValue, f: FormatInfo): DirValue {
    d.(format := f.format, variableBitrate := f.variableBitrate, bitrate := f.bitrate, sampleRate := f.sampleRate)
  }

  /** What a folder with audio files adds to its report: the count, the tag search and the format. */
  function WithAudio(env: ScanEnv, audio: seq<Node>, path: Path, d: DirValue): DirValue {
    var found := TagSearch(ReadAll(env.reader, path, audio), None);
    var m := MetadataOf(env, found.tag, FileName(path));
    WithFormat(WithMetadata(d.(scannedFilesCount := |audio|), found.tag.Some?, m), FormatOf(found.header))
  }

  lemma WithAudioFields(env: ScanEnv, audio: seq<Node>, path: Path, d: DirValue)
    ensures var found := TagSearch(ReadAll(env.reader, path, audio), None);
      var m := MetadataOf(env, found.tag, FileName(path));
      var f := FormatOf(found.header);
      WithAudio(env, audio, path, d) == d.(scannedFilesCount := |audio|, tagFound := found.tag.Some?,
        artist := m.artist, album := m.album, year := m.year, format := f.format,
        variableBitrate := f.variableBitrate, bitrate := f.bitrate, sampleRate := f.sampleRate)
  {
  }

  /** The report scanDirectory builds for a folder from its listing (the tree further down does not matter). */
  function DirSpec(env: ScanEnv, entries: seq<Node>, path: Path, depth: int): DirValue {
    var audio := AudioEntries(env.extensions, entries);
    var base := DirBase(env.extensions, entries, path, depth);
    if audio == [] then base.(empty := Subdirectories(entries) == [])
    else WithAudio(env, audio, path, base)
  }

  /**
   * A folder without audio files is EMPTY only when it has no subfolders either; otherwise it is
   * NO_TAG with no metadata. A folder with audio files records their number and is NO_TAG exactly
   * when none of them reads with a tag.
   */
  lemma DirSpecStatus(env: ScanEnv, entries: seq<Node>, path: Path, depth: int)
    ensures var d := DirSpec(env, entries, path, depth);
      var audio := AudioEntries(env.extensions, entries);
      && d.path == path && d.depth == depth && d.files == []
      && (audio == [] && Subdirectories(entries) == [] ==> Status(d) == Empty)
      && (audio == [] && Subdirectories(entries) != [] ==>
            Status(d) == NoTag && d.artist.None? && d.album.None? && d.year.None? && d.format.None? && d.scannedFilesCount == 0)
      && (audio != [] ==> d.scannedFilesCount == |audio| && FilesCount(d) == |audio| && !d.empty)
      && (audio != [] ==> (Status(d) == NoTag <==>
            forall i :: 0 <= i < |audio| ==> !HasTag(ReadEntry(env.reader, path, audio[i]))))
  {
    var audio := AudioEntries(env.extensions, entries);
    if audio != [] {
      var rds := ReadAll(env.reader, path, audio);
      TagFoundIff(rds, None);
      assert (exists i :: 0 <= i < |rds| && HasTag(rds[i])) <==> (exists i :: 0 <= i < |audio| && HasTag(ReadEntry(env.reader, path, audio[i])));
    }
  }

  /** The events scanDirectory fires after the subfolders, given the processed-directory count then. */
  function FinishEvents(env: ScanEnv, entries: seq<Node>, path: Path, processed: int): seq<ScanEvent> {
    var audio := AudioEntries(env.extensions, entries);
    if audio == [] then WithoutAudioEvents(path, Subdirectories(entries) != [])
    else WithAudioEvents(env, audio, path, processed)
  }

  /** A folder without audio files: EMPTY only when it has no subfolders, then completion. */
  function WithoutAudioEvents(path: Path, hasSubdirs: bool): seq<ScanEvent> {
    (if hasSubdirs then [] else [DirEmpty(path)]) + [DirCompleted(path)]
  }

  function WithAudioEvents(env: ScanEnv, audio: seq<Node>, path: Path, processed: int): seq<ScanEvent> {
    var found := TagSearch(ReadAll(env.reader, path, audio), None);
    [DirFilesFound(path, |audio|), TagEvent(path, found.tag.Some?, MetadataOf(env, found.tag, FileName(path))),
     DirsProgress(processed, -1), DirCompleted(path)]
  }

  /** onTagsRead with the chosen values, or onTagsMissing. */
  function TagEvent(path: Path, tagFound: bool, m: Metadata): ScanEvent {
    if tagFound then DirTagsRead(path, m.artist, m.album, m.year) else DirTagsMissing(path)
  }

  /** The scanner's mutable counters: the cancel flag, processedDirs and the two file counters of RunTotals. */
  datatype ScanState = ScanState(cancelled: bool, processed: nat, totalFiles: int, nonAudioFiles: int)

  /** A folder the walk entered: its listing, its path and its depth below the input directory. */
  datatype Visited = Visited(entries: seq<Node>, path: Path, depth: int)

  /** What a visit leaves: the new state, the folders it reported in order and the events it fired. */
  datatype VisitResult = VisitResult(state: ScanState, visited: seq<Visited>, events: seq<ScanEvent>)

  /**
   * The per-folder part of scanDirectory, as the walk sees it: the cancel schedule, the two file
   * counts, the finished report and the events after the subfolders, each a function of the
   * folder's listing. RulesOf gives the scanner's own; the walk below is stated for any rules
   * that agree with them, which keeps the folder details out of the reasoning about the recursion.
   */
  datatype Rules = Rules(
    cancelAt: Option<nat>,
    files: seq<Node> -> int,
    nonAudio: seq<Node> -> int,
    report: (seq<Node>, Path, int) -> DirValue,
    finish: (seq<Node>, Path, int) -> seq<ScanEvent>)

  /**
   * The rules applied. Each is a function of its own so that a fact about one application,
   * once known, holds in every later heap of a method.
   */
  function FileCount(rules: Rules, entries: seq<Node>): int {
    rules.files(entries)
  }

  function NonAudioCount(rules: Rules, entries: seq<Node>): int {
    rules.nonAudio(entries)
  }

  function FolderReport(rules: Rules, entries: seq<Node>, path: Path, depth: int): DirValue {
    rules.report(entries, path, depth)
  }

  function FolderFinish(rules: Rules, entries: seq<Node>, path: Path, processed: int): seq<ScanEvent> {
    rules.finish(entries, path, processed)
  }

  function RulesOf(env: ScanEnv): Rules {
    Rules(env.cancelAt,
          entries => |RegularFiles(entries)|,
          entries => |RegularFiles(entries)| - |AudioEntries(env.extensions, entries)|,
          (entries, path, depth) => DirSpec(env, entries, path, depth),
          (entries, path, processed) => FinishEvents(env, entries, path, processed))
  }

  /** The rules agree with the scanner's settings and outside inputs. */
  ghost predicate Follows(rules: Rules, env: ScanEnv) {
    && rules.cancelAt == env.cancelAt
    && (forall entries {:trigger RegularFiles(entries)} :: FileCount(rules, entries) == |RegularFiles(entries)|)
    && (forall entries {:trigger AudioEntries(env.extensions, entries)} ::
          NonAudioCount(rules, entries) == |RegularFiles(entries)| - |AudioEntries(env.extensions, entries)|)
    && (forall entries, path, depth {:trigger DirSpec(env, entries, path, depth)} ::
          FolderReport(rules, entries, path, depth) == DirSpec(env, entries, path, depth))
    && (forall entries, path, processed {:trigger FinishEvents(env, entries, path, processed)} ::
          FolderFinish(rules, entries, path, processed) == FinishEvents(env, entries, path, processed))
  }

  lemma RulesOfFollows(env: ScanEnv)
    ensures Follows(RulesOf(env), env)
  {
  }

  /** The reports built for visited folders, in the same order. */
  function Reports(rules: Rules, vs: seq<Visited>): (r: seq<DirValue>)
    ensures |r| == |vs|
  {
    if vs == [] then [] else [Report(rules, vs[0])] + Reports(rules, vs[1..])
  }

  /** The report a visited folder ends up with. */
  function Report(rules: Rules, v: Visited): DirValue {
    FolderReport(rules, v.entries, v.path, v.depth)
  }

  /** Reports are built folder by folder, in visiting order. */
  lemma {:induction false} ReportsAt(rules: Rules, vs: seq<Visited>)
    ensures forall i :: 0 <= i < |vs| ==> Reports(rules, vs)[i] == Report(rules, vs[i])
  {
    if vs != [] {
      ReportsAt(rules, vs[1..]);
    }
  }

  lemma ReportsCons(rules: Rules, v: Visited, vs: seq<Visited>)
    ensures Reports(rules, [v] + vs) == [Report(rules, v)] + Reports(rules, vs)
  {
    assert ([v] + vs)[1..] == vs;
  }

  /** The cancel check at the start of a visit: the flag is set, or the outside cancel has arrived by now. */
  predicate CancelSeen(rules: Rules, st: ScanState) {
    st.cancelled || (rules.cancelAt.Some? && st.processed >= rules.cancelAt.value)
  }

  /** scanDirectory as a function of the state before it. */
  function Visit(rules: Rules, node: Node, path: Path, depth: int, st: ScanState): VisitResult
    requires node.Folder?
    decreases node, 1
  {
    if CancelSeen(rules, st) then VisitResult(st.(cancelled := true), [], [])
    else
      var kids := VisitFrom(rules, node, path, depth, 0, st.(processed := st.processed + 1));
      var done := kids.state.(totalFiles := kids.state.totalFiles + FileCount(rules, node.entries),
                              nonAudioFiles := kids.state.nonAudioFiles + NonAudioCount(rules, node.entries));
      VisitResult(done, [Visited(node.entries, path, depth)] + kids.visited,
                  [DirEntered(path, depth)] + kids.events + FolderFinish(rules, node.entries, path, kids.state.processed))
  }

  /** A visit that does not see the cancel flag: the folder, its subfolders, then its own files. */
  lemma VisitEnters(rules: Rules, node: Node, path: Path, depth: int, st: ScanState)
    requires node.Folder? && !CancelSeen(rules, st)
    ensures var kids := VisitFrom(rules, node, path, depth, 0, st.(processed := st.processed + 1));
      Visit(rules, node, path, depth, st)
        == VisitResult(kids.state.(totalFiles := kids.state.totalFiles + FileCount(rules, node.entries),
                                   nonAudioFiles := kids.state.nonAudioFiles + NonAudioCount(rules, node.entries)),
                       [Visited(node.entries, path, depth)] + kids.visited,
                       [DirEntered(path, depth)] + kids.events + FolderFinish(rules, node.entries, path, kids.state.processed))
  {
  }

  /** The visits of the subfolders from the i-th on, in listing order. */
  function VisitFrom(rules: Rules, node: Node, path: Path, depth: int, i: nat, st: ScanState): VisitResult
    requires node.Folder? && i <= |Subdirectories(node.entries)|
    decreases node, 0, |Subdirectories(node.entries)| - i
  {
    var subs := Subdirectories(node.entries);
    if i == |subs| then VisitResult(st, [], [])
    else
      assert subs[i] in node.entries;
      var v := Visit(rules, subs[i], Resolve(path, subs[i].name), depth + 1, st);
      var rest := VisitFrom(rules, node, path, depth, i + 1, v.state);
      VisitResult(rest.state, v.visited + rest.visited, v.events + rest.events)
  }

  /** Every folder of the tree in pre-order, subfolders in listing order. */
  function PreOrder(node: Node, path: Path, depth: int): (r: seq<Visited>)
    requires node.Folder?
    ensures r != []
    decreases node, 1
  {
    [Visited(node.entries, path, depth)] + PreOrderFrom(node, path, depth, 0)
  }

  function PreOrderFrom(node: Node, path: Path, depth: int, i: nat): seq<Visited>
    requires node.Folder? && i <= |Subdirectories(node.entries)|
    decreases node, 0, |Subdirectories(node.entries)| - i
  {
    var subs := Subdirectories(node.entries);
    if i == |subs| then []
    else
      assert subs[i] in node.entries;
      PreOrder(subs[i], Resolve(path, subs[i].name), depth + 1) + PreOrderFrom(node, path, depth, i + 1)
  }

  predicate IsPrefix<T(==)>(a: seq<T>, b: seq<T>) {
    |a| <= |b| && a == b[..|a|]
  }

  /** What a visit promises about the folders it reports, its counter and the cancel flag. */
  predicate VisitKeeps(rules: Rules, st: ScanState, r: VisitResult, all: seq<Visited>) {
    && IsPrefix(r.visited, all)
    && r.state.processed == st.processed + |r.visited|
    && (|r.visited| < |all| ==> r.state.cancelled)
    && (r.state.cancelled ==> st.cancelled || rules.cancelAt.Some?)
    && (st.cancelled ==> r == VisitResult(st, [], []))
  }

  lemma PrefixConcat<T>(a: seq<T>, b: seq<T>, x: seq<T>, y: seq<T>)
    requires IsPrefix(a, x) && IsPrefix(b, y)
    requires |a| < |x| ==> b == []
    ensures IsPrefix(a + b, x + y)
  {
    if |a| < |x| {
      assert a + b == a;
      assert (x + y)[..|a|] == x[..|a|];
    } else {
      assert a == x;
      assert (x + y)[..|a + b|] == x + y[..|b|];
    }
  }

  /**
   * The folders a visit reports are a prefix of the pre-order listing of its tree, one per
   * processed directory; a shorter prefix means the visit saw the cancel flag, which only an
   * outside cancel or an earlier one can set; and a visit that starts cancelled does nothing.
   */
  lemma {:induction false} VisitIsPreOrderPrefix(rules: Rules, node: Node, path: Path, depth: int, st: ScanState)
    requires node.Folder?
    ensures VisitKeeps(rules, st, Visit(rules, node, path, depth, st), PreOrder(node, path, depth))
    decreases node, 1
  {
    if !CancelSeen(rules, st) {
      var entered := st.(processed := st.processed + 1);
      VisitFromIsPreOrderPrefix(rules, node, path, depth, 0, entered);
      var kids := VisitFrom(rules, node, path, depth, 0, entered);
      var here := [Visited(node.entries, path, depth)];
      PrefixConcat(here, kids.visited, here, PreOrderFrom(node, path, depth, 0));
    }
  }

  lemma {:induction false} VisitFromIsPreOrderPrefix(rules: Rules, node: Node, path: Path, depth: int, i: nat, st: ScanState)
    requires node.Folder? && i <= |Subdirectories(node.entries)|
    ensures VisitKeeps(rules, st, VisitFrom(rules, node, path, depth, i, st), PreOrderFrom(node, path, depth, i))
    decreases node, 0, |Subdirectories(node.entries)| - i
  {
    var subs := Subdirectories(node.entries);
    if i < |subs| {
      assert subs[i] in node.entries;
      var child, childPath := subs[i], Resolve(path, subs[i].name);
      VisitIsPreOrderPrefix(rules, child, childPath, depth + 1, st);
      var v := Visit(rules, child, childPath, depth + 1, st);
      VisitFromIsPreOrderPrefix(rules, node, path, depth, i + 1, v.state);
      var rest := VisitFrom(rules, node, path, depth, i + 1, v.state);
      var all, childAll := PreOrderFrom(node, path, depth, i), PreOrder(child, childPath, depth + 1);
      var restAll := PreOrderFrom(node, path, depth, i + 1);
      assert all == childAll + restAll;
      if |v.visited| < |childAll| {
        assert v.state.cancelled;
        assert rest == VisitResult(v.state, [], []);
      }
      PrefixConcat(v.visited, rest.visited, childAll, restAll);
      var r := VisitFrom(rules, node, path, depth, i, st);
      assert r == VisitResult(rest.state, v.visited + rest.visited, v.events + rest.events);
      assert |r.visited| == |v.visited| + |rest.visited|;
      if st.cancelled {
        assert v == VisitResult(st, [], []) && rest == VisitResult(st, [], []);
        assert v.visited + rest.visited == [] && v.events + rest.events == [];
      }
    }
  }

  /** Without an outside cancel, a scan that starts uncancelled reports every folder of the tree. */
  lemma UncancelledVisitReportsAll(rules: Rules, node: Node, path: Path, depth: int, st: ScanState)
    requires node.Folder? && rules.cancelAt.None? && !st.cancelled
    ensures Visit(rules, node, path, depth, st).visited == PreOrder(node, path, depth)
    ensures !Visit(rules, node, path, depth, st).state.cancelled
  {
    VisitIsPreOrderPrefix(rules, node, path, depth, st);
  }

  /** Every folder in the listing of a tree lies below its root, with depth counting the extra components. */
  lemma {:induction false} PreOrderBelowRoot(node: Node, path: Path, depth: int)
    requires node.Folder?
    ensures PreOrder(node, path, depth)[0] == Visited(node.entries, path, depth)
    ensures forall v :: v in PreOrder(node, path, depth) ==>
      |path| <= |v.path| && v.path[..|path|] == path && v.depth - depth == |v.path| - |path|
    decreases node, 1
  {
    PreOrderFromBelowRoot(node, path, depth, 0);
  }

  lemma {:induction false} PreOrderFromBelowRoot(node: Node, path: Path, depth: int, i: nat)
    requires node.Folder? && i <= |Subdirectories(node.entries)|
    ensures forall v :: v in PreOrderFrom(node, path, depth, i) ==>
      |path| < |v.path| && v.path[..|path|] == path && v.depth - depth == |v.path| - |path|
    decreases node, 0, |Subdirectories(node.entries)| - i
  {
    var subs := Subdirectories(node.entries);
    if i < |subs| {
      assert subs[i] in node.entries;
      var childPath := Resolve(path, subs[i].name);
      PreOrderBelowRoot(subs[i], childPath, depth + 1);
      PreOrderFromBelowRoot(node, path, depth, i + 1);
      forall v | v in PreOrder(subs[i], childPath, depth + 1)
        ensures |path| < |v.path| && v.path[..|path|] == path && v.depth - depth == |v.path| - |path|
      {
        assert v.path[..|childPath|] == childPath;
        assert v.path[..|path|] == v.path[..|childPath|][..|path|];
      }
    }
  }

  lemma {:induction false} ReportsAppend(rules: Rules, a: seq<Visited>, b: seq<Visited>)
    ensures Reports(rules, a + b) == Reports(rules, a) + Reports(rules, b)
  {
    if a == [] {
      assert a + b == b;
    } else {
      assert (a + b)[1..] == a[1..] + b;
      ReportsAppend(rules, a[1..], b);
    }
  }

  /** A visit's result with some folders and events already done in front of it. */
  function Join(visited: seq<Visited>, events: seq<ScanEvent>, r: VisitResult): VisitResult {
    VisitResult(r.state, visited + r.visited, events + r.events)
  }

  lemma JoinAssoc(visited: seq<Visited>, events: seq<ScanEvent>, v: VisitResult, rest: VisitResult)
    ensures Join(visited, events, VisitResult(rest.state, v.visited + rest.visited, v.events + rest.events))
         == Join(visited + v.visited, events + v.events, rest)
  {
    assert visited + (v.visited + rest.visited) == (visited + v.visited) + rest.visited;
    assert events + (v.events + rest.events) == (events + v.events) + rest.events;
  }

  /** Past the last subfolder nothing is left to visit: the joined result is what was done. */
  lemma JoinAll(rules: Rules, node: Node, path: Path, depth: int, st: ScanState, visited: seq<Visited>, events: seq<ScanEvent>)
    requires node.Folder?
    ensures Join(visited, events, VisitFrom(rules, node, path, depth, |Subdirectories(node.entries)|, st))
         == VisitResult(st, visited, events)
  {
    assert visited + [] == visited && events + [] == events;
  }

  /** One step of the loop over subfolders: the i-th visit followed by the rest. */
  lemma VisitFromStep(rules: Rules, node: Node, path: Path, depth: int, i: nat, st: ScanState)
    requires node.Folder? && i < |Subdirectories(node.entries)|
    ensures var subs := Subdirectories(node.entries);
      subs[i] in node.entries && subs[i].Folder? &&
      var v := Visit(rules, subs[i], Resolve(path, subs[i].name), depth + 1, st);
      var rest := VisitFrom(rules, node, path, depth, i + 1, v.state);
      VisitFrom(rules, node, path, depth, i, st) == VisitResult(rest.state, v.visited + rest.visited, v.events + rest.events)
  {
    var subs := Subdirectories(node.entries);
    assert subs[i] in node.entries;
  }

  /** Why scan refuses to start. */
  datatype ScanError = NoInputDirectory | NotADirectory(input: Path)

  class MusicScanner {
    const inputDirectory: Option<Path>
    const audioExtensions: set<string>
    const defaultArtist: Option<string>
    const defaultAlbum: Option<string>
    const defaultYear: Option<string>
    const runTotals: RunTotals
    var listeners: seq<ScanListener>
    var cancelled: bool
    var processedDirs: nat

    /** The settings a scan works with, and the two outside inputs. */
    function Env(reader: TagReader, cancelAt: Option<nat>): ScanEnv {
      ScanEnv(audioExtensions, defaultArtist, defaultAlbum, defaultYear, reader, cancelAt)
    }

    function State(): ScanState
      reads this, runTotals
    {
      ScanState(cancelled, processedDirs, runTotals.totalFilesCount, runTotals.nonAudioFilesCount)
    }

    /** A fresh scanner: no listeners, not cancelled, empty totals. */
    ghost predicate Initial()
      reads this, runTotals
    {
      && listeners == [] && !cancelled && processedDirs == 0
      && runTotals.Valid() && runTotals.directoryReports == []
      && runTotals.startTime.None? && runTotals.endTime.None?
      && runTotals.totalFilesCount == 0 && runTotals.nonAudioFilesCount == 0
    }

    /** The scanner with the default extensions and placeholders. */
    constructor (inputDirectory: Option<Path>)
      ensures this.inputDirectory == inputDirectory && audioExtensions == DefaultExtensions
      ensures defaultArtist == Some(DefaultArtist) && defaultAlbum == Some(DefaultAlbum) && defaultYear == Some(DefaultYear)
      ensures fresh(runTotals) && Initial()
    {
      this.inputDirectory := inputDirectory;
      audioExtensions := DefaultExtensions;
      defaultArtist, defaultAlbum, defaultYear := Some(DefaultArtist), Some(DefaultAlbum), Some(DefaultYear);
      runTotals := new RunTotals();
      listeners, cancelled, processedDirs := [], false, 0;
    }

    /** The scanner with a configuration's settings, read once at construction. */
    constructor FromConfig(config: SortConfiguration)
      ensures inputDirectory == config.inputDirectory && audioExtensions == config.audioExtensions
      ensures defaultArtist == config.defaultArtist && defaultAlbum == config.defaultAlbum && defaultYear == config.defaultYear
      ensures fresh(runTotals) && Initial()
    {
      inputDirectory := config.inputDirectory;
      audioExtensions := config.audioExtensions;
      defaultArtist, defaultAlbum, defaultYear := config.defaultArtist, config.defaultAlbum, config.defaultYear;
      runTotals := new RunTotals();
      listeners, cancelled, processedDirs := [], false, 0;
    }

    constructor WithSettings(inputDirectory: Option<Path>, audioExtensions: set<string>,
                             defaultArtist: Option<string>, defaultAlbum: Option<string>, defaultYear: Option<string>)
      ensures this.inputDirectory == inputDirectory && this.audioExtensions == audioExtensions
      ensures this.defaultArtist == defaultArtist && this.defaultAlbum == defaultAlbum && this.defaultYear == defaultYear
      ensures fresh(runTotals) && Initial()
    {
      this.inputDirectory := inputDirectory;
      this.audioExtensions := audioExtensions;
      this.defaultArtist, this.defaultAlbum, this.defaultYear := defaultArtist, defaultAlbum, defaultYear;
      runTotals := new RunTotals();
      listeners, cancelled, processedDirs := [], false, 0;
    }

    method AddListener(l: ScanListener)
      modifies this
      ensures listeners == old(listeners) + [l]
      ensures cancelled == old(cancelled) && processedDirs == old(processedDirs)
    {
      listeners := listeners + [l];
    }

    method RemoveListener(l: ScanListener)
      modifies this
      ensures listeners == RemoveFirst(old(listeners), l)
      ensures cancelled == old(cancelled) && processedDirs == old(processedDirs)
    {
      listeners := RemoveFirst(listeners, l);
    }

    method Cancel()
      modifies this
      ensures cancelled && listeners == old(listeners) && processedDirs == old(processedDirs)
    {
      cancelled := true;
    }

    function IsCancelled(): bool
      reads this
    {
      cancelled
    }

    /** One fire method: every listener, in registration order. */
    method Fire(e: ScanEvent, log: EventLog)
      modifies log
      ensures log.trace == old(log.trace) + FireScan(listeners, e)
    {
      var i := 0;
      while i < |listeners|
        invariant 0 <= i <= |listeners|
        invariant log.trace == old(log.trace) + FireScan(listeners[..i], e)
      {
        assert listeners[..i + 1][..i] == listeners[..i];
        log.trace := log.trace + [ToScan(listeners[i], e)];
        i := i + 1;
      }
      assert listeners[..i] == listeners;
    }

    /** The cover image and the audio file paths. */
    method RecordPaths(entries: seq<Node>, report: DirectoryReport)
      requires report.files == [] && report.Head() == NewDir(report.path, report.depth)
      modifies report
      ensures report.files == [] && report.Head() == DirBase(audioExtensions, entries, report.path, report.depth)
    {
      var path := report.path;
      var audio := AudioEntries(audioExtensions, entries);
      var images := ImageEntries(entries);
      if images != [] {
        report.SetHasImageFile(true);
        report.SetCoverImagePath(Some(Resolve(path, images[0].name)));
      }
      RecordAudioPaths(path, audio, report);
      assert [] + PathsOf(path, audio) == PathsOf(path, audio);
      DirBaseFields(audioExtensions, entries, path, report.depth);
    }

    /** The loop adding each audio file's path, in listing order. */
    method RecordAudioPaths(path: Path, audio: seq<Node>, report: DirectoryReport)
      modifies report
      ensures report.files == old(report.files)
      ensures report.Head() == old(report.Head()).(audioFilePaths := old(report.audioFilePaths) + PathsOf(path, audio))
    {
      ghost var before := report.audioFilePaths;
      assert audio[..0] == [] && before + [] == before;
      var i := 0;
      while i < |audio|
        invariant 0 <= i <= |audio|
        invariant report.files == old(report.files)
        invariant report.audioFilePaths == before + PathsOf(path, audio[..i])
        invariant report.Head() == old(report.Head()).(audioFilePaths := report.audioFilePaths)
      {
        var p := Resolve(path, audio[i].name);
        assert PathsOf(path, audio[..i + 1]) == PathsOf(path, audio[..i]) + [p];
        AppendAssoc(before, PathsOf(path, audio[..i]), [p]);
        report.AddAudioFilePath(p);
        i := i + 1;
      }
      assert audio[..i] == audio;
    }

    /** The tag search, the metadata it gives and the event that reports it. */
    method RecordTag(reader: TagReader, cancelAt: Option<nat>, audio: seq<Node>, report: DirectoryReport, log: EventLog)
      returns (header: Option<AudioHeader>)
      requires report.files == []
      modifies report, log
      ensures var found := TagSearch(ReadAll(reader, report.path, audio), None);
        var m := MetadataOf(Env(reader, cancelAt), found.tag, FileName(report.path));
        && header == found.header
        && report.files == []
        && report.Head() == WithMetadata(old(report.Head()), found.tag.Some?, m)
        && log.trace == old(log.trace) + FireScan(listeners, TagEvent(report.path, found.tag.Some?, m))
    {
      var path := report.path;
      var tag;
      tag, header := FindTag(reader, path, audio);
      var m := MetadataOf(Env(reader, cancelAt), tag, FileName(path));
      if tag.Some? {
        report.SetTagFound(true);
        Fire(DirTagsRead(path, m.artist, m.album, m.year), log);
      } else {
        report.SetTagFound(false);
        Fire(DirTagsMissing(path), log);
      }
      report.SetArtist(m.artist);
      report.SetAlbum(m.album);
      report.SetYear(m.year);
    }

    /** The format, the VBR flag, and the two numbers when they parse. */
    method RecordFormat(header: Option<AudioHeader>, report: DirectoryReport)
      requires report.files == [] && report.format.None? && !report.variableBitrate && report.bitrate.None? && report.sampleRate.None?
      modifies report
      ensures report.files == [] && report.Head() == WithFormat(old(report.Head()), FormatOf(header))
    {
      if header.Some? {
        report.SetFormat(Some(Upper(header.value.format)));
        var bitRateText := header.value.bitRate;
        var vbr := Contains(bitRateText, "~");
        report.SetVariableBitrate(vbr);
        var bitrate := ParseInt(ReplaceChar(bitRateText, '~', ""));
        if bitrate.Some? {
          report.SetBitrate(bitrate);
        }
        var sampleRate := ParseInt(header.value.sampleRate);
        if sampleRate.Some? {
          report.SetSampleRate(sampleRate);
        }
      }
    }

    /** A folder without audio files: it is marked empty when it has no subfolders either. */
    method FinishWithoutAudio(hasSubdirs: bool, report: DirectoryReport, log: EventLog)
      requires report.files == [] && !report.empty
      modifies report, log
      ensures report.files == [] && report.Head() == old(report.Head()).(empty := !hasSubdirs)
      ensures log.trace == old(log.trace) + FireScanAll(listeners, WithoutAudioEvents(report.path, hasSubdirs))
    {
      var path := report.path;
      ghost var fired: seq<ScanEvent> := [];
      if !hasSubdirs {
        report.SetEmpty(true);
        Fire(DirEmpty(path), log);
        FireScanAllSnoc(listeners, fired, DirEmpty(path));
        fired := fired + [DirEmpty(path)];
      }
      Fire(DirCompleted(path), log);
      FireScanAllSnoc(listeners, fired, DirCompleted(path));
    }

    /** A folder with audio files: their number, the tag search, the format and the progress event. */
    method FinishWithAudio(reader: TagReader, cancelAt: Option<nat>, audio: seq<Node>, report: DirectoryReport, log: EventLog)
      requires report.files == [] && report.format.None? && !report.variableBitrate
      requires report.bitrate.None? && report.sampleRate.None?
      modifies report, log
      ensures report.files == []
      ensures report.Head() == WithAudio(Env(reader, cancelAt), audio, report.path, old(report.Head()))
      ensures log.trace == old(log.trace) + FireScanAll(listeners, WithAudioEvents(Env(reader, cancelAt), audio, report.path, processedDirs))
    {
      var path := report.path;
      ghost var es := WithAudioEvents(Env(reader, cancelAt), audio, path, processedDirs);
      ghost var t0 := log.trace;
      ghost var found := TagSearch(ReadAll(reader, path, audio), None);
      ghost var m := MetadataOf(Env(reader, cancelAt), found.tag, FileName(path));
      Fire(DirFilesFound(path, |audio|), log);
      ghost var t1 := log.trace;
      assert t1 == t0 + FireScan(listeners, es[0]);
      report.SetScannedFilesCount(|audio|);
      ghost var v1 := report.Head();
      var header := RecordTag(reader, cancelAt, audio, report, log);
      ghost var t2 := log.trace;
      assert t2 == t1 + FireScan(listeners, es[1]);
      assert report.Head() == WithMetadata(v1, found.tag.Some?, m);
      RecordFormat(header, report);
      assert report.Head() == WithMetadata(v1, found.tag.Some?, m).(format := FormatOf(found.header).format,
        variableBitrate := FormatOf(found.header).variableBitrate, bitrate := FormatOf(found.header).bitrate,
        sampleRate := FormatOf(found.header).sampleRate);
      Fire(DirsProgress(processedDirs, -1), log);
      Fire(DirCompleted(path), log);
      assert log.trace == t2 + FireScan(listeners, es[2]) + FireScan(listeners, es[3]);
      FireScanAllFour(listeners, es);
      ConcatFour(t0, FireScan(listeners, es[0]), FireScan(listeners, es[1]), FireScan(listeners, es[2]), FireScan(listeners, es[3]));
      WithAudioFields(Env(reader, cancelAt), audio, path, old(report.Head()));
    }

    /**
     * The second half of scanDirectory, after the subfolders: the file counts, then the folder's
     * own files. The subfolders' reports are other objects and stay as they are.
     */
    method FinishFolder(reader: TagReader, cancelAt: Option<nat>, ghost env: ScanEnv, ghost rules: Rules,
                        entries: seq<Node>, report: DirectoryReport, ghost done: seq<DirectoryReport>, log: EventLog)
      requires env == Env(reader, cancelAt) && Follows(rules, env) == true
      requires report.files == [] && report.Head() == NewDir(report.path, report.depth) && report !in done
      modifies report, runTotals, log
      ensures State() == old(State()).(totalFiles := old(State()).totalFiles + FileCount(rules, entries),
                                       nonAudioFiles := old(State()).nonAudioFiles + NonAudioCount(rules, entries))
      ensures runTotals.directoryReports == old(runTotals.directoryReports)
      ensures runTotals.startTime == old(runTotals.startTime) && runTotals.endTime == old(runTotals.endTime)
      ensures report.files == [] && report.Head() == FolderReport(rules, entries, report.path, report.depth)
      ensures log.trace == old(log.trace) + FireScanAll(listeners, FolderFinish(rules, entries, report.path, processedDirs))
      ensures Heads(done) == old(Heads(done)) && (old(NoFileReports(done)) ==> NoFileReports(done))
    {
      CountFiles(env, rules, entries);
      ScanFiles(reader, cancelAt, env, rules, entries, report, log);
    }

    /** The folder's own files: the cover image, the audio paths, then either the empty case or the tag search and the metadata. */
    method ScanFiles(reader: TagReader, cancelAt: Option<nat>, ghost env: ScanEnv, ghost rules: Rules,
                     entries: seq<Node>, report: DirectoryReport, log: EventLog)
      requires env == Env(reader, cancelAt) && Follows(rules, env) == true
      requires report.files == [] && report.Head() == NewDir(report.path, report.depth)
      modifies report, log
      ensures report.files == [] && report.Head() == FolderReport(rules, entries, report.path, report.depth)
      ensures log.trace == old(log.trace) + FireScanAll(listeners, FolderFinish(rules, entries, report.path, processedDirs))
    {
      var audio := AudioEntries(audioExtensions, entries);
      var subdirCount := |Subdirectories(entries)|;
      RecordPaths(entries, report);
      DirBaseFields(audioExtensions, entries, report.path, report.depth);
      if audio == [] {
        FinishWithoutAudio(subdirCount != 0, report, log);
      } else {
        FinishWithAudio(reader, cancelAt, audio, report, log);
      }
      assert report.Head() == DirSpec(env, entries, report.path, report.depth);
      assert log.trace == old(log.trace) + FireScanAll(listeners, FinishEvents(env, entries, report.path, processedDirs));
    }

    /** The file counts of scanDirectory: every regular file, and those that are not audio. */
    method CountFiles(ghost env: ScanEnv, ghost rules: Rules, entries: seq<Node>)
      requires env.extensions == audioExtensions && Follows(rules, env) == true
      modifies runTotals
      ensures State() == old(State()).(totalFiles := old(State()).totalFiles + FileCount(rules, entries),
                                       nonAudioFiles := old(State()).nonAudioFiles + NonAudioCount(rules, entries))
      ensures runTotals.directoryReports == old(runTotals.directoryReports)
      ensures runTotals.startTime == old(runTotals.startTime) && runTotals.endTime == old(runTotals.endTime)
    {
      var allFiles := RegularFiles(entries);
      var audio := AudioEntries(audioExtensions, entries);
      runTotals.AddFileCounts(|allFiles|, |allFiles| - |audio|);
    }

    /** The start of scanDirectory past the cancel check: onDirectoryEntered, the new report, one more processed directory. */
    method EnterDirectory(path: Path, depth: int, log: EventLog) returns (report: DirectoryReport)
      modifies this, runTotals, log
      ensures fresh(report) && report.path == path && report.depth == depth
      ensures report.files == [] && report.Head() == NewDir(path, depth)
      ensures runTotals.directoryReports == old(runTotals.directoryReports) + [report]
      ensures Distinct(old(runTotals.directoryReports)) ==> Distinct(runTotals.directoryReports)
      ensures runTotals.startTime == old(runTotals.startTime) && runTotals.endTime == old(runTotals.endTime)
      ensures listeners == old(listeners) && State() == old(State()).(processed := old(processedDirs) + 1)
      ensures log.trace == old(log.trace) + FireScan(listeners, DirEntered(path, depth))
    {
      Fire(DirEntered(path, depth), log);
      report := new DirectoryReport(path, depth);
      DistinctSnoc(runTotals.directoryReports, report);
      runTotals.AddDirectoryReport(report);
      processedDirs := processedDirs + 1;
    }

    /**
     * scanDirectory: unless cancelled, report the folder, walk its subfolders depth-first in
     * listing order, then record its own files. The outside cancel lands once cancelAt
     * directories have been processed.
     */
    method ScanDirectory(reader: TagReader, cancelAt: Option<nat>, ghost env: ScanEnv, ghost rules: Rules,
                         node: Node, path: Path, depth: int, log: EventLog)
      returns (ghost added: seq<DirectoryReport>)
      requires env == Env(reader, cancelAt) && Follows(rules, env) == true
      requires node.Folder? && Distinct(runTotals.directoryReports)
      modifies this, runTotals, log
      decreases node, 4
      ensures listeners == old(listeners)
      ensures runTotals.directoryReports == old(runTotals.directoryReports) + added
      ensures Distinct(runTotals.directoryReports)
      ensures NoFileReports(added)
      ensures runTotals.startTime == old(runTotals.startTime) && runTotals.endTime == old(runTotals.endTime)
      ensures var v := Visit(rules, node, path, depth, old(State()));
        && State() == v.state
        && Heads(added) == Reports(rules, v.visited)
        && log.trace == old(log.trace) + FireScanAll(listeners, v.events)
    {
      if cancelAt.Some? && processedDirs >= cancelAt.value {
        cancelled := true;
      }
      if cancelled {
        return [];
      }
      added := EnterAndScan(reader, cancelAt, env, rules, node, path, depth, log);
    }

    /** scanDirectory past the cancel check. */
    method EnterAndScan(reader: TagReader, cancelAt: Option<nat>, ghost env: ScanEnv, ghost rules: Rules,
                        node: Node, path: Path, depth: int, log: EventLog)
      returns (ghost added: seq<DirectoryReport>)
      requires env == Env(reader, cancelAt) && Follows(rules, env) == true
      requires node.Folder? && Distinct(runTotals.directoryReports) && !CancelSeen(rules, State())
      modifies this, runTotals, log
      decreases node, 3
      ensures listeners == old(listeners)
      ensures runTotals.directoryReports == old(runTotals.directoryReports) + added
      ensures Distinct(runTotals.directoryReports)
      ensures NoFileReports(added)
      ensures runTotals.startTime == old(runTotals.startTime) && runTotals.endTime == old(runTotals.endTime)
      ensures var v := Visit(rules, node, path, depth, old(State()));
        && State() == v.state
        && Heads(added) == Reports(rules, v.visited)
        && log.trace == old(log.trace) + FireScanAll(listeners, v.events)
    {
      ghost var st0 := old(State());
      var report := EnterDirectory(path, depth, log);
      ghost var entered := State();
      assert entered == st0.(processed := st0.processed + 1);
      var kids := ScanContents(reader, cancelAt, env, rules, node, path, depth, report, log);
      ghost var w := VisitFrom(rules, node, path, depth, 0, entered);
      ghost var finish := FolderFinish(rules, node.entries, path, w.state.processed);
      VisitEnters(rules, node, path, depth, st0);
      ghost var v := Visit(rules, node, path, depth, st0);
      assert State() == v.state;
      FireScanAllAround(old(log.trace), listeners, DirEntered(path, depth), w.events, finish);
      added := [report] + kids;
      AppendAssoc(old(runTotals.directoryReports), [report], kids);
      HeadsCons(report, kids);
      NoFileReportsCons(report, kids);
      ReportsCons(rules, Visited(node.entries, path, depth), w.visited);
    }

    /** The rest of scanDirectory once its report is listed: the subfolders, then the folder's own files. */
    method ScanContents(reader: TagReader, cancelAt: Option<nat>, ghost env: ScanEnv, ghost rules: Rules,
                        node: Node, path: Path, depth: int, report: DirectoryReport, log: EventLog)
      returns (ghost kids: seq<DirectoryReport>)
      requires env == Env(reader, cancelAt) && Follows(rules, env) == true
      requires node.Folder? && Distinct(runTotals.directoryReports) && report in runTotals.directoryReports
      requires report.path == path && report.depth == depth
      requires report.files == [] && report.Head() == NewDir(path, depth)
      modifies this, runTotals, log, report
      decreases node, 2
      ensures listeners == old(listeners)
      ensures runTotals.directoryReports == old(runTotals.directoryReports) + kids
      ensures Distinct(runTotals.directoryReports)
      ensures NoFileReports(kids) && report.files == []
      ensures runTotals.startTime == old(runTotals.startTime) && runTotals.endTime == old(runTotals.endTime)
      ensures var w := VisitFrom(rules, node, path, depth, 0, old(State()));
        && State() == w.state.(totalFiles := w.state.totalFiles + FileCount(rules, node.entries),
                               nonAudioFiles := w.state.nonAudioFiles + NonAudioCount(rules, node.entries))
        && Heads(kids) == Reports(rules, w.visited)
        && report.Head() == FolderReport(rules, node.entries, path, depth)
        && log.trace == old(log.trace) + FireScanAll(listeners, w.events) + FireScanAll(listeners, FolderFinish(rules, node.entries, path, w.state.processed))
    {
      kids := ScanSubdirectories(reader, cancelAt, env, rules, node, path, depth, log);
      DistinctDisjoint(old(runTotals.directoryReports), kids, report);
      FinishFolder(reader, cancelAt, env, rules, node.entries, report, kids, log);
    }

    /** The loop of scanDirectory over the subfolders, in listing order. */
    method ScanSubdirectories(reader: TagReader, cancelAt: Option<nat>, ghost env: ScanEnv, ghost rules: Rules,
                              node: Node, path: Path, depth: int, log: EventLog)
      returns (ghost kids: seq<DirectoryReport>)
      requires env == Env(reader, cancelAt) && Follows(rules, env) == true
      requires node.Folder? && Distinct(runTotals.directoryReports)
      modifies this, runTotals, log
      decreases node, 1
      ensures listeners == old(listeners)
      ensures runTotals.directoryReports == old(runTotals.directoryReports) + kids
      ensures Distinct(runTotals.directoryReports)
      ensures NoFileReports(kids)
      ensures runTotals.startTime == old(runTotals.startTime) && runTotals.endTime == old(runTotals.endTime)
      ensures var w := VisitFrom(rules, node, path, depth, 0, old(State()));
        && State() == w.state
        && Heads(kids) == Reports(rules, w.visited)
        && log.trace == old(log.trace) + FireScanAll(listeners, w.events)
    {
      ghost var whole := VisitFrom(rules, node, path, depth, 0, State());
      kids := [];
      ghost var doneVisited: seq<Visited> := [];
      ghost var doneEvents: seq<ScanEvent> := [];
      var subdirs := Subdirectories(node.entries);
      var i := 0;
      while i < |subdirs|
        invariant 0 <= i <= |subdirs|
        invariant listeners == old(listeners)
        invariant runTotals.directoryReports == old(runTotals.directoryReports) + kids
        invariant Distinct(runTotals.directoryReports)
        invariant NoFileReports(kids)
        invariant runTotals.startTime == old(runTotals.startTime) && runTotals.endTime == old(runTotals.endTime)
        invariant Heads(kids) == Reports(rules, doneVisited)
        invariant whole == Join(doneVisited, doneEvents, VisitFrom(rules, node, path, depth, i, State()))
        invariant log.trace == old(log.trace) + FireScanAll(listeners, doneEvents)
      {
        kids, doneVisited, doneEvents := ScanSubdirectory(reader, cancelAt, env, rules, node, path, depth, i, whole,
                                                          old(runTotals.directoryReports), kids, doneVisited,
                                                          old(log.trace), doneEvents, log);
        i := i + 1;
      }
      JoinAll(rules, node, path, depth, State(), doneVisited, doneEvents);
    }

    /**
     * One turn of the loop over the subfolders: scan the i-th subfolder and extend what the
     * loop has reported, visited and fired so far.
     */
    method ScanSubdirectory(reader: TagReader, cancelAt: Option<nat>, ghost env: ScanEnv, ghost rules: Rules,
                            node: Node, path: Path, depth: int, i: nat, ghost whole: VisitResult,
                            ghost base: seq<DirectoryReport>, ghost kids: seq<DirectoryReport>, ghost visited: seq<Visited>,
                            ghost baseTrace: seq<Delivery>, ghost events: seq<ScanEvent>, log: EventLog)
      returns (ghost kids': seq<DirectoryReport>, ghost visited': seq<Visited>, ghost events': seq<ScanEvent>)
      requires env == Env(reader, cancelAt) && Follows(rules, env) == true
      requires node.Folder? && i < |Subdirectories(node.entries)|
      requires runTotals.directoryReports == base + kids && Distinct(runTotals.directoryReports) && NoFileReports(kids)
      requires Heads(kids) == Reports(rules, visited)
      requires whole == Join(visited, events, VisitFrom(rules, node, path, depth, i, State()))
      requires log.trace == baseTrace + FireScanAll(listeners, events)
      modifies this, runTotals, log
      decreases node, 0
      ensures listeners == old(listeners)
      ensures runTotals.directoryReports == base + kids' && Distinct(runTotals.directoryReports) && NoFileReports(kids')
      ensures runTotals.startTime == old(runTotals.startTime) && runTotals.endTime == old(runTotals.endTime)
      ensures Heads(kids') == Reports(rules, visited')
      ensures whole == Join(visited', events', VisitFrom(rules, node, path, depth, i + 1, State()))
      ensures log.trace == baseTrace + FireScanAll(listeners, events')
    {
      var subdirs := Subdirectories(node.entries);
      assert subdirs[i] in node.entries;
      var child, childPath := subdirs[i], Resolve(path, subdirs[i].name);
      ghost var v := Visit(rules, child, childPath, depth + 1, State());
      ghost var rest := VisitFrom(rules, node, path, depth, i + 1, v.state);
      VisitFromStep(rules, node, path, depth, i, State());
      JoinAssoc(visited, events, v, rest);
      var more := ScanDirectory(reader, cancelAt, env, rules, child, childPath, depth + 1, log);
      assert NoFileReports(kids) && Heads(kids) == Reports(rules, visited);
      AppendAssoc(base, kids, more);
      HeadsAppend(kids, more);
      NoFileReportsAppend(kids, more);
      ReportsAppend(rules, visited, v.visited);
      FireScanAllExtend(baseTrace, listeners, events, v.events);
      kids', visited', events' := kids + more, visited + v.visited, events + v.events;
    }

    /**
     * scan: refuse a missing or non-directory input, otherwise reset the counters and walk the
     * tree. The reports the walk lists are returned as added, behind the reports already there.
     * The walk is described by any rules that follow the scanner's settings and inputs; RulesOf
     * gives such rules (RulesOfFollows).
     */
    method Scan(volume: Volume, reader: TagReader, cancelAt: Option<nat>, ghost rules: Rules,
                startTime: int, endTime: int, log: EventLog)
      returns (r: Result<RunTotals, ScanError>, ghost added: seq<DirectoryReport>)
      requires runTotals.Valid() && Follows(rules, Env(reader, cancelAt))
      modifies this, runTotals, log
      ensures inputDirectory.None? ==> r == Err(NoInputDirectory)
      ensures inputDirectory.Some? && !IsDirectory(volume, inputDirectory.value) ==> r == Err(NotADirectory(inputDirectory.value))
      ensures r.Err? ==> unchanged(this) && unchanged(runTotals) && unchanged(log) && added == []
      ensures listeners == old(listeners)
      ensures inputDirectory.Some? && IsDirectory(volume, inputDirectory.value) ==>
        var input := inputDirectory.value;
        var start := ScanState(false, 0, old(runTotals.totalFilesCount), old(runTotals.nonAudioFilesCount));
        var v := Visit(rules, volume(input).value, input, 0, start);
        && r == Result.Ok(runTotals) && runTotals.Valid()
        && State() == v.state
        && runTotals.directoryReports == old(runTotals.directoryReports) + added
        && NoFileReports(added) && Heads(added) == Reports(rules, v.visited)
        && runTotals.startTime == Some(startTime) && runTotals.endTime == Some(endTime)
        && log.trace == old(log.trace) + FireScanAll(listeners, [ScanStarted(input)] + v.events + [ScanCompleted])
    {
      if inputDirectory.None? {
        return Err(NoInputDirectory), [];
      }
      var input := inputDirectory.value;
      if !IsDirectory(volume, input) {
        return Err(NotADirectory(input)), [];
      }
      added := Walk(reader, cancelAt, rules, volume(input).value, input, startTime, endTime, log);
      return Result.Ok(runTotals), added;
    }

    /** The body of scan past its input checks: reset, the walk from the input folder, then the end of the run. */
    method Walk(reader: TagReader, cancelAt: Option<nat>, ghost rules: Rules, root: Node, input: Path,
                startTime: int, endTime: int, log: EventLog)
      returns (ghost added: seq<DirectoryReport>)
      requires runTotals.Valid() && Follows(rules, Env(reader, cancelAt)) && root.Folder?
      modifies this, runTotals, log
      ensures listeners == old(listeners)
      ensures var v := Visit(rules, root, input, 0, ScanState(false, 0, old(runTotals.totalFilesCount), old(runTotals.nonAudioFilesCount)));
        && runTotals.Valid()
        && State() == v.state
        && runTotals.directoryReports == old(runTotals.directoryReports) + added
        && NoFileReports(added) && Heads(added) == Reports(rules, v.visited)
        && runTotals.startTime == Some(startTime) && runTotals.endTime == Some(endTime)
        && log.trace == old(log.trace) + FireScanAll(listeners, [ScanStarted(input)] + v.events + [ScanCompleted])
    {
      StartScan(input, startTime, log);
      ghost var start := State();
      added := ScanDirectory(reader, cancelAt, Env(reader, cancelAt), rules, root, input, 0, log);
      ghost var v := Visit(rules, root, input, 0, start);
      ghost var heads := Heads(added);
      EndScan(endTime, log);
      assert Heads(added) == heads && NoFileReports(added);
      FireScanAllBracket(old(log.trace), listeners, ScanStarted(input), v.events, ScanCompleted);
    }

    /** The start of a run: the flags reset, the start time recorded, onScanStarted. */
    method StartScan(input: Path, startTime: int, log: EventLog)
      modifies this, runTotals, log
      ensures listeners == old(listeners)
      ensures State() == ScanState(false, 0, old(runTotals.totalFilesCount), old(runTotals.nonAudioFilesCount))
      ensures runTotals.directoryReports == old(runTotals.directoryReports)
      ensures runTotals.startTime == Some(startTime) && runTotals.endTime == old(runTotals.endTime)
      ensures log.trace == old(log.trace) + FireScan(listeners, ScanStarted(input))
    {
      cancelled := false;
      processedDirs := 0;
      runTotals.SetStartTime(Some(startTime));
      Fire(ScanStarted(input), log);
    }

    /** The end of a run: the end time recorded, onScanCompleted. */
    method EndScan(endTime: int, log: EventLog)
      modifies runTotals, log
      ensures State() == old(State())
      ensures runTotals.directoryReports == old(runTotals.directoryReports)
      ensures runTotals.startTime == old(runTotals.startTime) && runTotals.endTime == Some(endTime)
      ensures log.trace == old(log.trace) + FireScan(listeners, ScanCompleted)
    {
      runTotals.SetEndTime(Some(endTime));
      Fire(ScanCompleted, log);
    }
  }
}
