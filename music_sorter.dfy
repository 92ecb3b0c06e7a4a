/**
 * MusicSorter: copies the audio folders the scan reported into an artist / "[year] album"
 * tree under the output directory, one file report per copied file.
 */
module Sorter {
  import opened Wrappers
  import opened Text
  import opened Disk
  import opened FileReports
  import opened DirectoryReports
  import opened Totals
  import opened Events
  import opened Configuration

  /** The ten characters the first replacement of filterInvalidCharacters turns into '_'. */
  predicate IsInvalid(c: char) {
    c == '/' || c == '?' || c == '%' || c == '*' || c == ':' || c == '|' || c == '"' || c == '<' || c == '>' || c == '\\'
  }

  /** replaceAll with the character class of the ten: every one of them becomes '_', in one pass. */
  function ReplaceInvalid(s: string): (r: string)
    ensures |r| == |s|
    ensures forall i :: 0 <= i < |s| ==> r[i] == if IsInvalid(s[i]) then '_' else s[i]
  {
    seq(|s|, i requires 0 <= i < |s| => if IsInvalid(s[i]) then '_' else s[i])
  }

  /** The chain of replacements of filterInvalidCharacters, in source order, before the trim. */
  function Replaced(s: string): string {
    var s1 := ReplaceInvalid(s);
    var s2 := ReplaceChar(s1, '/', "-");
    var s3 := ReplaceChar(s2, '|', "-");
    var s4 := ReplaceChar(s3, '?', "-");
    var s5 := ReplaceChar(s4, '\'', " ");
    var s6 := ReplaceChar(s5, '*', "");
    var s7 := ReplaceChar(s6, '>', ")");
    var s8 := ReplaceChar(s7, '<', "(");
    ReplaceChar(s8, '\\', "-")
  }

  /** What the chain does to one character: the ten become '_', an apostrophe a space. */
  function SanitizedChar(c: char): char {
    if IsInvalid(c) then '_' else if c == '\'' then ' ' else c
  }

  /** Replacing a character by one character maps the string character by character. */
  lemma {:induction false} ReplaceCharByChar(s: string, c: char, d: char)
    ensures |ReplaceChar(s, c, [d])| == |s|
    ensures forall i :: 0 <= i < |s| ==> ReplaceChar(s, c, [d])[i] == if s[i] == c then d else s[i]
  {
    if s != [] {
      ReplaceCharByChar(s[1..], c, d);
    }
  }

  /** A text none of whose characters is one of the ten. */
  lemma NoneOfTheTen(s: string)
    requires forall i :: 0 <= i < |s| ==> !IsInvalid(s[i])
    ensures '/' !in s && '|' !in s && '?' !in s && '*' !in s && '>' !in s && '<' !in s && '\\' !in s
  {
  }

  /**
   * After the first replacement none of the ten is left, so the replacements of '/', '|', '?',
   * '*', '>', '<' and '\' change nothing: the chain maps each character on its own.
   */
  lemma ReplacedIsCharMap(s: string)
    ensures |Replaced(s)| == |s|
    ensures forall i :: 0 <= i < |s| ==> Replaced(s)[i] == SanitizedChar(s[i])
  {
    var s1 := ReplaceInvalid(s);
    NoneOfTheTen(s1);
    var s5 := ReplaceChar(s1, '\'', " ");
    ReplaceCharByChar(s1, '\'', ' ');
    NoneOfTheTen(s5);
  }

  /** The trim then the loop of filterInvalidCharacters: while the text ends in '.', drop it and trim again. */
  function StripTrailingDots(s: string): string
    decreases |s|
  {
    if EndsWith(s, ".") then StripTrailingDots(Trim(s[..|s| - 1])) else s
  }

  /** filterInvalidCharacters: "UNKNOWN" for null, otherwise the replacements, the trim and the dot loop. */
  function Sanitized(str: Option<string>): string {
    if str.None? then "UNKNOWN" else StripTrailingDots(Trim(Replaced(str.value)))
  }

  /** No blank at either end: what a trim leaves. */
  predicate Trimmed(s: string) {
    s != [] ==> !IsBlank(s[0]) && !IsBlank(s[|s| - 1])
  }

  /** The dot loop keeps a trimmed text trimmed, ends with no '.', and keeps only characters of its input. */
  lemma {:induction false} StripTrailingDotsShape(s: string)
    requires Trimmed(s)
    ensures Trimmed(StripTrailingDots(s)) && !EndsWith(StripTrailingDots(s), ".")
    ensures forall x :: x in StripTrailingDots(s) ==> x in s
    decreases |s|
  {
    if EndsWith(s, ".") {
      var t := Trim(s[..|s| - 1]);
      TrimKeepsChars(s[..|s| - 1]);
      StripTrailingDotsShape(t);
    }
  }

  /** The trim keeps only characters of its input. */
  lemma TrimKeepsChars(s: string)
    ensures forall x :: x in Trim(s) ==> x in s
  {
    var r := Trim(s);
    if r != [] {
      var i := FirstNonBlank(s);
      assert r == s[i..i + |r|];
    }
  }

  /**
   * The result never holds one of the ten or an apostrophe, has no blank at either end and
   * does not end in '.'.
   */
  lemma SanitizedIsSafe(str: Option<string>)
    ensures forall x :: x in Sanitized(str) ==> !IsInvalid(x) && x != '\''
    ensures Trimmed(Sanitized(str)) && !EndsWith(Sanitized(str), ".")
  {
    if str.Some? {
      ReplacedIsSafe(str.value);
      CleanedIsSafe(Replaced(str.value));
    } else {
      assert Sanitized(str) == "UNKNOWN";
    }
  }

  /** The replacements leave none of the ten and no apostrophe behind. */
  lemma ReplacedIsSafe(s: string)
    ensures forall x :: x in Replaced(s) ==> !IsInvalid(x) && x != '\''
  {
    ReplacedIsCharMap(s);
    forall x | x in Replaced(s)
      ensures !IsInvalid(x) && x != '\''
    {
      var i :| 0 <= i < |Replaced(s)| && Replaced(s)[i] == x;
      assert x == SanitizedChar(s[i]);
    }
  }

  /** Trimming and dropping the final dots keep a safe text safe and leave it trimmed. */
  lemma CleanedIsSafe(u: string)
    requires forall x :: x in u ==> !IsInvalid(x) && x != '\''
    ensures forall x :: x in StripTrailingDots(Trim(u)) ==> !IsInvalid(x) && x != '\''
    ensures Trimmed(StripTrailingDots(Trim(u))) && !EndsWith(StripTrailingDots(Trim(u)), ".")
  {
    TrimKeepsChars(u);
    StripTrailingDotsShape(Trim(u));
  }

  /** The chain leaves a text alone that has none of the ten and no apostrophe. */
  lemma ReplacedOfSafe(s: string)
    requires forall x :: x in s ==> !IsInvalid(x) && x != '\''
    ensures Replaced(s) == s
  {
    ReplacedIsCharMap(s);
    assert forall i :: 0 <= i < |s| ==> Replaced(s)[i] == s[i];
  }

  /** filterInvalidCharacters is idempotent. */
  lemma SanitizedIdempotent(str: Option<string>)
    ensures Sanitized(Some(Sanitized(str))) == Sanitized(str)
  {
    var r := Sanitized(str);
    SanitizedIsSafe(str);
    ReplacedOfSafe(r);
    TrimOfTrimmed(r);
  }

  /**
   * A slash between two plain parts becomes '_' ("AC/DC" gives "AC_DC"): the first replacement
   * catches it, so the later replacement of '/' by '-' never sees it.
   */
  lemma SlashBecomesUnderscore(a: string, b: string)
    requires forall x :: x in a ==> !IsInvalid(x) && x != '\''
    requires forall x :: x in b ==> !IsInvalid(x) && x != '\''
    requires a != [] && !IsBlank(a[0]) && b != [] && !IsBlank(b[|b| - 1]) && b[|b| - 1] != '.'
    ensures Sanitized(Some(a + "/" + b)) == a + "_" + b
  {
    var r := a + "_" + b;
    ReplacedSlash(a, b);
    assert r[0] == a[0] && r[|r| - 1] == b[|b| - 1];
    TrimOfTrimmed(r);
    assert !EndsWith(r, ".") by {
      assert r[|r| - 1..] == [b[|b| - 1]];
    }
  }

  /** The replacements alone turn the slash into '_' and leave both plain parts alone. */
  lemma ReplacedSlash(a: string, b: string)
    requires forall x :: x in a ==> !IsInvalid(x) && x != '\''
    requires forall x :: x in b ==> !IsInvalid(x) && x != '\''
    ensures Replaced(a + "/" + b) == a + "_" + b
  {
    var s, r := a + "/" + b, a + "_" + b;
    ReplacedIsCharMap(s);
    forall i | 0 <= i < |s|
      ensures Replaced(s)[i] == r[i]
    {
      if i < |a| {
        assert s[i] == a[i] && r[i] == a[i];
      } else if i == |a| {
        assert s[i] == '/' && r[i] == '_';
      } else {
        BehindTheMiddle(a, '/', b, i);
        BehindTheMiddle(a, '_', b, i);
      }
    }
  }

  /** Past the middle character of a + [c] + b come the characters of b. */
  lemma BehindTheMiddle(a: string, c: char, b: string, i: nat)
    requires |a| < i < |a| + 1 + |b|
    ensures (a + [c] + b)[i] == b[i - |a| - 1]
  {
  }

  /** buildAlbumFolderName's bracket: format, VBR, bit rate and sample rate as present. */
  function FormatSuffix(d: DirValue): string
    requires d.format.Some?
  {
    " - [" + d.format.value
    + (if d.variableBitrate then " VBR" else "")
    + (if d.bitrate.Some? then (if d.variableBitrate then " ~" else " ") + IntToString(d.bitrate.value) + " kBps" else "")
    + (if d.sampleRate.Some? then " " + IntToString(d.sampleRate.value) + " kHz" else "")
    + "]"
  }

  /** buildAlbumFolderName: the album alone without a format, else the album and the bracket. */
  function AlbumFolderName(album: string, d: DirValue): (r: string)
    ensures StartsWith(r, album)
    ensures r == album <==> d.format.None?
    ensures d.format.Some? ==> StartsWith(r[|album|..], " - [" + d.format.value) && EndsWith(r, "]")
  {
    if d.format.None? then album
    else
      var r := album + FormatSuffix(d);
      assert r[..|album|] == album && r[|album|..] == FormatSuffix(d);
      assert r[|r| - 1] == ']';
      r
  }

  /** The destination of a report: output, then the artist, then "[year] album folder", each name sanitized. */
  function Destination(output: Path, d: DirValue): Path {
    var artist := Sanitized(d.artist);
    var folder := AlbumFolderName(Sanitized(d.album), d);
    ResolveText(ResolveText(output, artist), "[" + Sanitized(d.year) + "] " + folder)
  }

  /**
   * The destination is one level below the output directory when the artist sanitizes to "",
   * since resolving "" gives the path itself, and two levels below otherwise, the first of them
   * the sanitized artist; the last component starts with "[year] album".
   */
  lemma DestinationShape(output: Path, d: DirValue)
    ensures var p := Destination(output, d);
      && |p| == |output| + (if Sanitized(d.artist) == "" then 1 else 2) && p[..|output|] == output
      && (Sanitized(d.artist) != "" ==> p[|output|] == Sanitized(d.artist))
      && StartsWith(p[|p| - 1], "[" + Sanitized(d.year) + "] " + Sanitized(d.album))
  {
    var front := "[" + Sanitized(d.year) + "] ";
    var folder := AlbumFolderName(Sanitized(d.album), d);
    PrefixedName(front, Sanitized(d.album), folder);
    ResolveTwice(output, Sanitized(d.artist), front + folder);
    assert front + folder == "[" + Sanitized(d.year) + "] " + folder;
  }

  /** An artist that sanitizes to "" puts the album folder directly under the output directory. */
  lemma EmptyArtistFolder(output: Path, d: DirValue)
    requires Sanitized(d.artist) == ""
    ensures Destination(output, d) == output + [Destination(output, d)[|output|]]
  {
    DestinationShape(output, d);
    var p := Destination(output, d);
    assert p == p[..|output|] + [p[|output|]];
  }

  /** An artist made of dots alone is such an artist: "..." sanitizes to "". */
  lemma DotsSanitizeToNothing()
    ensures Sanitized(Some("...")) == ""
  {
    ReplacedOfSafe("...");
    TrimOfTrimmed("...");
    DotsStripToNothing();
  }

  /** The dot loop takes "..." down to "", one dot and one trim at a time. */
  lemma DotsStripToNothing()
    ensures StripTrailingDots("...") == ""
  {
    TrimOfTrimmed("..");
    TrimOfTrimmed(".");
    TrimOfTrimmed("");
    assert "..."[..2] == ".." && ".."[..1] == "." && "."[..0] == "";
    assert EndsWith("...", ".") && EndsWith("..", ".") && EndsWith(".", ".") && !EndsWith("", ".");
  }

  /** Putting the same text in front of a name and of its prefix keeps it a prefix. */
  lemma PrefixedName(front: string, prefix: string, name: string)
    requires StartsWith(name, prefix)
    ensures StartsWith(front + name, front + prefix)
  {
    assert (front + name)[..|front| + |prefix|] == front + name[..|prefix|];
  }

  /** Files.copy: it returns after some milliseconds, or throws with a message (possibly null). */
  datatype CopyOutcome = CopyDone(duration: int) | CopyThrew(message: Option<string>)

  /**
   * The filesystem as the sort meets it: the listings and sizes, whether createDirectories
   * succeeds for a path, what Files.copy does with a source and a target, and the cancel from
   * outside, which lands once cancelAt files have been processed.
   */
  datatype SortIO = SortIO(volume: Volume, makeDirs: Path -> bool, copy: (Path, Path) -> CopyOutcome, cancelAt: Option<nat>)

  /** The sorter's cancel flag and processed-files counter. */
  datatype SortState = SortState(cancelled: bool, processedFiles: nat)

  /** The cancel check: the flag is set, or the outside cancel has arrived by now. */
  predicate StopSeen(io: SortIO, st: SortState) {
    st.cancelled || (io.cancelAt.Some? && st.processedFiles >= io.cancelAt.value)
  }

  /** Files.size of a listing entry; a folder has none. */
  function SizeOf(n: Node): Option<nat> {
    match n
    case RegularFile(_, size) => size
    case Folder(_, _) => None
  }

  /** What copying one file leaves: its report and the events fired for it. */
  datatype FileStep = FileStep(file: FileValue, events: seq<SortEvent>)

  /**
   * One turn of copyFiles past the cancel check: a report with the target set, the copy-started
   * event, then the copy, which marks the report and fires the matching event.
   */
  function CopyOne(io: SortIO, dir: Path, dest: Path, f: Node): (r: FileStep)
    ensures r.file.source == Resolve(dir, f.name) && r.file.destination == Some(Resolve(dest, f.name))
    ensures r.file.status == Copied || r.file.status == CopyFailed
    ensures r.file.sizeBytes == SizeOf(f).GetOr(0)
    ensures |r.events| == 2 && r.events[0] == FileCopyStarted(r.file.source, Resolve(dest, f.name))
    ensures r.events[1] == if r.file.status == Copied then FileCopied(r.file) else FileCopyFailed(r.file)
  {
    var source, target := Resolve(dir, f.name), Resolve(dest, f.name);
    var done := AfterCopy(io, source, target, NewFile(source, SizeOf(f)).(destination := Some(target)));
    FileStep(done, [FileCopyStarted(source, target), CopyEvent(done)])
  }

  /** Files.copy and the mark it leads to: markCopied with the time taken, or markFailed with the message. */
  function AfterCopy(io: SortIO, source: Path, target: Path, v: FileValue): (r: FileValue)
    ensures r.status == Copied || r.status == CopyFailed
    ensures r.source == v.source && r.sizeBytes == v.sizeBytes
    ensures v.destination == Some(target) ==> r.destination == v.destination
  {
    match io.copy(source, target)
    case CopyDone(t) => WithCopied(v, target, t)
    case CopyThrew(m) => WithFailed(v, m)
  }

  /** The event the outcome of a copy fires. */
  function CopyEvent(v: FileValue): SortEvent {
    if v.status == Copied then FileCopied(v) else FileCopyFailed(v)
  }

  /** What a run of the copy loop leaves: the new file reports, the state and the events. */
  datatype CopyRun = CopyRun(files: seq<FileValue>, state: SortState, events: seq<SortEvent>)

  /** The loop of copyFiles over the files fs, in order; it stops at the first cancel check that sees the flag. */
  function CopyAll(io: SortIO, dir: Path, dest: Path, fs: seq<Node>, st: SortState): CopyRun
    decreases |fs|
  {
    if fs == [] then CopyRun([], st, [])
    else
      var r := CopyAll(io, dir, dest, fs[..|fs| - 1], st);
      if StopSeen(io, r.state) then CopyRun(r.files, r.state.(cancelled := true), r.events)
      else
        var one := CopyOne(io, dir, dest, fs[|fs| - 1]);
        CopyRun(r.files + [one.file], r.state.(processedFiles := r.state.processedFiles + 1), r.events + one.events)
  }

  /** The destination of a report does not depend on its file reports. */
  lemma DestinationIgnoresFiles(output: Path, d: DirValue, fs: seq<FileValue>)
    ensures Destination(output, d.(files := fs)) == Destination(output, d)
  {
  }

  /** SortOne when the destination could not be created. */
  lemma SortOneNoDestination(io: SortIO, output: Path, d: DirValue, st: SortState)
    requires !Skipped(d) && !io.makeDirs(Destination(output, d))
    ensures var dest := Destination(output, d);
      SortOne(io, output, d, st) == ReportStep(WithCopies(d, dest, []), st, [Error(DestinationNotCreated(dest))])
  {
  }

  /** SortOne when the destination was created: the copies of the listing, then DirectoryCompleted. */
  lemma SortOneCopied(io: SortIO, output: Path, d: DirValue, st: SortState)
    requires !Skipped(d) && io.makeDirs(Destination(output, d))
    ensures var dest, files := Destination(output, d), Listing(io, d.path);
      var c := CopyAll(io, d.path, dest, files.GetOr([]), st);
      SortOne(io, output, d, st)
        == ReportStep(WithCopies(d, dest, if files.None? then [] else c.files),
                      if files.None? then st else c.state,
                      (if files.None? then [] else c.events) + [DirectoryCompleted(d.path)])
  {
    assert [] + [DirectoryCompleted(d.path)] == [DirectoryCompleted(d.path)];
  }

  /** One more report handled, when the stop was not seen before it. */
  lemma SortAllNext(io: SortIO, output: Path, ds: seq<DirValue>, st: SortState, i: nat)
    requires i < |ds| && !StopSeen(io, SortAll(io, output, ds[..i], st).state)
    ensures var s := SortAll(io, output, ds[..i], st);
      var one := SortOne(io, output, ds[i], s.state);
      SortAll(io, output, ds[..i + 1], st) == SortRun(s.reports + [one.report], one.state, s.events + one.events)
  {
    assert ds[..i + 1][..i] == ds[..i] && ds[..i + 1][i] == ds[i];
  }

  /** One more file copied, when the stop was not seen before it. */
  lemma CopyAllNext(io: SortIO, dir: Path, dest: Path, fs: seq<Node>, st: SortState, i: nat)
    requires i < |fs| && !StopSeen(io, CopyAll(io, dir, dest, fs[..i], st).state)
    ensures var c, one := CopyAll(io, dir, dest, fs[..i], st), CopyOne(io, dir, dest, fs[i]);
      CopyAll(io, dir, dest, fs[..i + 1], st)
        == CopyRun(c.files + [one.file], c.state.(processedFiles := c.state.processedFiles + 1), c.events + one.events)
  {
    assert fs[..i + 1][..i] == fs[..i] && fs[..i + 1][i] == fs[i];
  }

  /** What one report of the sort loop leaves: its new value, the state and the events. */
  datatype ReportStep = ReportStep(report: DirValue, state: SortState, events: seq<SortEvent>)

  /** The reports the sort loop passes over: empty ones and ones without audio files. */
  predicate Skipped(d: DirValue) {
    d.empty || d.scannedFilesCount == 0
  }

  /**
   * One turn of the sort loop past the cancel check: skip, or record the destination, create it
   * (an error event if that fails), copy the folder's regular files and fire the completion.
   */
  function SortOne(io: SortIO, output: Path, d: DirValue, st: SortState): ReportStep {
    if Skipped(d) then ReportStep(d, st, [])
    else
      var dest := Destination(output, d);
      if !io.makeDirs(dest) then ReportStep(WithCopies(d, dest, []), st, [Error(DestinationNotCreated(dest))])
      else
        var files := Listing(io, d.path);
        if files.None? then ReportStep(WithCopies(d, dest, []), st, [DirectoryCompleted(d.path)])
        else
          var c := CopyAll(io, d.path, dest, files.value, st);
          ReportStep(WithCopies(d, dest, c.files), c.state, c.events + [DirectoryCompleted(d.path)])
  }

  /** A report with its destination set and some file reports added after its own. */
  function WithCopies(d: DirValue, dest: Path, added: seq<FileValue>): DirValue {
    d.(destinationPath := Some(dest), files := d.files + added)
  }

  /** listFiles(File::isFile) on a folder's path: None (null) when nothing is listed there as a folder. */
  function Listing(io: SortIO, dir: Path): (r: Option<seq<Node>>)
    ensures r.Some? <==> IsDirectory(io.volume, dir)
  {
    var l := io.volume(dir);
    if l.Some? && l.value.Folder? then Some(RegularFiles(l.value.entries)) else None
  }

  /** What a run of the sort loop leaves: the reports' new values, the state and the events. */
  datatype SortRun = SortRun(reports: seq<DirValue>, state: SortState, events: seq<SortEvent>)

  /** The loop of sort over the reports, in list order; it stops at the first cancel check that sees the flag. */
  function SortAll(io: SortIO, output: Path, ds: seq<DirValue>, st: SortState): SortRun
    decreases |ds|
  {
    if ds == [] then SortRun([], st, [])
    else
      var r := SortAll(io, output, ds[..|ds| - 1], st);
      var d := ds[|ds| - 1];
      if StopSeen(io, r.state) then SortRun(r.reports + [d], r.state.(cancelled := true), r.events)
      else
        var one := SortOne(io, output, d, r.state);
        SortRun(r.reports + [one.report], one.state, r.events + one.events)
  }

  /**
   * sort once the output directory is known: the flag and counter reset, the output directory
   * created (an error event and nothing else if that fails), the start event, the loop, and the
   * completion event.
   */
  function SortWhole(io: SortIO, output: Path, ds: seq<DirValue>): SortRun {
    var st := SortState(false, 0);
    if !io.makeDirs(output) then SortRun(ds, st, [Error(OutputDirectoryNotCreated)])
    else
      var r := SortAll(io, output, ds, st);
      SortRun(r.reports, r.state, [SortStarted(None, Some(output), false)] + r.events + [SortCompleted])
  }

  /** The events fired from inside the loops: never the sort's own start or completion. */
  predicate InLoop(e: SortEvent) {
    !e.SortStarted? && !e.SortCompleted?
  }

  /** None of some events is the sort's start or completion. */
  predicate AllInLoop(es: seq<SortEvent>) {
    forall k :: 0 <= k < |es| ==> InLoop(es[k])
  }

  lemma AllInLoopAppend(a: seq<SortEvent>, b: seq<SortEvent>)
    ensures AllInLoop(a + b) <==> AllInLoop(a) && AllInLoop(b)
  {
    assert forall k :: 0 <= k < |a| ==> (a + b)[k] == a[k];
    assert forall k :: 0 <= k < |b| ==> (a + b)[|a| + k] == b[k];
    if AllInLoop(a) && AllInLoop(b) {
      forall k | 0 <= k < |a + b|
        ensures InLoop((a + b)[k])
      {
        if k >= |a| {
          assert (a + b)[k] == b[k - |a|];
        }
      }
    }
  }

  /** A file report the copy loop has finished with. */
  predicate Ended(f: FileValue) {
    f.status == Copied || f.status == CopyFailed
  }

  /** The copy loop copies a prefix of the files, in order, one report each, and counts every file it copies. */
  lemma {:induction false} CopyAllFiles(io: SortIO, dir: Path, dest: Path, fs: seq<Node>, st: SortState)
    ensures var r := CopyAll(io, dir, dest, fs, st);
      && |r.files| <= |fs|
      && (forall k :: 0 <= k < |r.files| ==> r.files[k] == CopyOne(io, dir, dest, fs[k]).file)
      && r.state.processedFiles == st.processedFiles + |r.files|
      && (|r.files| == |fs| || r.state.cancelled)
    decreases |fs|
  {
    if fs != [] {
      var init := fs[..|fs| - 1];
      CopyAllFiles(io, dir, dest, init, st);
      var r0 := CopyAll(io, dir, dest, init, st);
      if !StopSeen(io, r0.state) {
        var one := CopyOne(io, dir, dest, fs[|fs| - 1]);
        var r := CopyAll(io, dir, dest, fs, st);
        assert r.files == r0.files + [one.file];
        forall k | 0 <= k < |r.files|
          ensures r.files[k] == CopyOne(io, dir, dest, fs[k]).file
        {
          if k < |r0.files| {
            assert fs[k] == init[k];
          }
        }
      }
    }
  }

  /** The copy loop stops short only when cancelled, and without a cancel it copies every file. */
  lemma {:induction false} CopyAllCancel(io: SortIO, dir: Path, dest: Path, fs: seq<Node>, st: SortState)
    ensures var r := CopyAll(io, dir, dest, fs, st);
      && (|r.files| < |fs| ==> r.state.cancelled)
      && (st.cancelled ==> r.state.cancelled)
      && (!st.cancelled && io.cancelAt.None? ==> !r.state.cancelled && |r.files| == |fs|)
    decreases |fs|
  {
    if fs != [] {
      CopyAllCancel(io, dir, dest, fs[..|fs| - 1], st);
    }
  }

  /** The copy loop fires file events only. */
  lemma {:induction false} CopyAllEvents(io: SortIO, dir: Path, dest: Path, fs: seq<Node>, st: SortState)
    ensures AllInLoop(CopyAll(io, dir, dest, fs, st).events)
    decreases |fs|
  {
    if fs != [] {
      var r0 := CopyAll(io, dir, dest, fs[..|fs| - 1], st);
      CopyAllEvents(io, dir, dest, fs[..|fs| - 1], st);
      if !StopSeen(io, r0.state) {
        var one := CopyOne(io, dir, dest, fs[|fs| - 1]);
        AllInLoopAppend(r0.events, one.events);
      }
    }
  }

  /** Once the copy loop sees the cancel, the files after it are left alone. */
  lemma {:induction false} CopyAllStopped(io: SortIO, dir: Path, dest: Path, fs: seq<Node>, st: SortState, j: nat)
    requires j < |fs| && StopSeen(io, CopyAll(io, dir, dest, fs[..j], st).state)
    ensures var c := CopyAll(io, dir, dest, fs[..j], st);
      CopyAll(io, dir, dest, fs, st) == CopyRun(c.files, c.state.(cancelled := true), c.events)
    decreases |fs|
  {
    var init := fs[..|fs| - 1];
    if j < |fs| - 1 {
      assert init[..j] == fs[..j];
      CopyAllStopped(io, dir, dest, init, st, j);
    } else {
      assert init == fs[..j];
    }
  }

  /** File reports the copy loop has finished with. */
  predicate AllEnded(fs: seq<FileValue>) {
    forall k :: 0 <= k < |fs| ==> Ended(fs[k])
  }

  /** A report the sort loop has handled: left as it was, or sent to its destination with finished copies added. */
  predicate SortedFrom(output: Path, d: DirValue, e: DirValue) {
    e == d ||
      (&& |d.files| <= |e.files|
       && e == WithCopies(d, Destination(output, d), e.files[|d.files|..])
       && AllEnded(e.files[|d.files|..]))
  }

  /** One report is left alone or sorted, and every file report it gains is counted. */
  lemma SortOneSorted(io: SortIO, output: Path, d: DirValue, st: SortState)
    ensures var r := SortOne(io, output, d, st);
      && SortedFrom(output, d, r.report)
      && |d.files| <= |r.report.files|
      && r.state.processedFiles == st.processedFiles + |r.report.files| - |d.files|
      && (st.cancelled ==> r.state.cancelled)
  {
    if !Skipped(d) {
      var dest := Destination(output, d);
      var files := Listing(io, d.path);
      var added := if io.makeDirs(dest) && files.Some? then CopyAll(io, d.path, dest, files.value, st).files else [];
      if io.makeDirs(dest) && files.Some? {
        CopyAllFiles(io, d.path, dest, files.value, st);
        CopyAllCancel(io, d.path, dest, files.value, st);
      }
      assert (d.files + added)[|d.files|..] == added;
    }
  }

  /**
   * One report: a skipped one is left alone with nothing fired; any other gets its destination;
   * if that cannot be created no file is copied; the events are never the sort's start or completion.
   */
  lemma SortOneCases(io: SortIO, output: Path, d: DirValue, st: SortState)
    ensures var r := SortOne(io, output, d, st);
      && (Skipped(d) ==> r == ReportStep(d, st, []))
      && (!Skipped(d) ==> r.report.destinationPath == Some(Destination(output, d)))
      && (!Skipped(d) && !io.makeDirs(Destination(output, d)) ==> r.report.files == d.files && r.state == st)
      && AllInLoop(r.events)
  {
    if !Skipped(d) {
      var dest := Destination(output, d);
      var files := Listing(io, d.path);
      assert d.files + [] == d.files;
      if io.makeDirs(dest) && files.Some? {
        CopyAllEvents(io, d.path, dest, files.value, st);
        AllInLoopAppend(CopyAll(io, d.path, dest, files.value, st).events, [DirectoryCompleted(d.path)]);
      }
    }
  }

  /** Without a cancel, a report whose destination is created gets one file report per regular file, in listing order. */
  lemma SortOneCopiesAll(io: SortIO, output: Path, d: DirValue, st: SortState)
    requires !st.cancelled && io.cancelAt.None?
    requires !Skipped(d) && io.makeDirs(Destination(output, d)) && Listing(io, d.path).Some?
    ensures var r, fs := SortOne(io, output, d, st), Listing(io, d.path).value;
      && !r.state.cancelled
      && |r.report.files| == |d.files| + |fs|
      && forall k :: 0 <= k < |fs| ==> r.report.files[|d.files| + k] == CopyOne(io, d.path, Destination(output, d), fs[k]).file
  {
    CopyAllFiles(io, d.path, Destination(output, d), Listing(io, d.path).value, st);
    CopyAllCancel(io, d.path, Destination(output, d), Listing(io, d.path).value, st);
  }

  /** Every report of a list handled as SortedFrom says. */
  predicate SortedAll(output: Path, ds: seq<DirValue>, es: seq<DirValue>) {
    |es| == |ds| && forall i :: 0 <= i < |ds| ==> SortedFrom(output, ds[i], es[i])
  }

  /** The skipped reports of a list left as they were. */
  predicate SkippedKept(ds: seq<DirValue>, es: seq<DirValue>) {
    |es| == |ds| && forall i :: 0 <= i < |ds| && Skipped(ds[i]) ==> es[i] == ds[i]
  }

  /**
   * The sort loop handles every report in place, and the processed-files counter grows by the
   * number of file reports it adds.
   */
  lemma {:induction false} SortAllSorted(io: SortIO, output: Path, ds: seq<DirValue>, st: SortState)
    ensures var r := SortAll(io, output, ds, st);
      && SortedAll(output, ds, r.reports)
      && |AllFiles(ds)| <= |AllFiles(r.reports)|
      && r.state.processedFiles == st.processedFiles + |AllFiles(r.reports)| - |AllFiles(ds)|
      && (st.cancelled ==> r.state.cancelled)
    decreases |ds|
  {
    if ds != [] {
      var init, d := ds[..|ds| - 1], ds[|ds| - 1];
      SortAllSorted(io, output, init, st);
      var r0 := SortAll(io, output, init, st);
      var x := if StopSeen(io, r0.state) then d else SortOne(io, output, d, r0.state).report;
      if !StopSeen(io, r0.state) {
        SortOneSorted(io, output, d, r0.state);
      }
      SortedSnoc(output, ds, r0.reports, x);
      AllFilesSnoc(r0.reports, x);
    }
  }

  /** Two lists related element by element stay so when a related pair is added at the end. */
  lemma PairwiseSnoc<A, B>(p: (A, B) -> bool, ds: seq<A>, es: seq<B>, e: B)
    requires ds != [] && |es| == |ds| - 1 && p(ds[|ds| - 1], e)
    requires forall i :: 0 <= i < |es| ==> p(ds[i], es[i])
    ensures forall i :: 0 <= i < |ds| ==> p(ds[i], (es + [e])[i])
  {
    forall i | 0 <= i < |ds|
      ensures p(ds[i], (es + [e])[i])
    {
      if i < |es| {
        assert (es + [e])[i] == es[i];
      }
    }
  }

  lemma SortedSnoc(output: Path, ds: seq<DirValue>, es: seq<DirValue>, e: DirValue)
    requires ds != [] && SortedAll(output, ds[..|ds| - 1], es) && SortedFrom(output, ds[|ds| - 1], e)
    ensures SortedAll(output, ds, es + [e])
  {
    var init := ds[..|ds| - 1];
    assert forall i :: 0 <= i < |es| ==> ds[i] == init[i];
    PairwiseSnoc((a: DirValue, b: DirValue) => SortedFrom(output, a, b), ds, es, e);
  }

  lemma AllFilesSnoc(ds: seq<DirValue>, d: DirValue)
    ensures AllFiles(ds + [d]) == AllFiles(ds) + d.files
  {
    assert (ds + [d])[..|ds|] == ds;
  }

  /**
   * The sort loop leaves the skipped reports alone; when it ends uncancelled, every other report
   * has its destination; it never fires the sort's start or completion.
   */
  lemma {:induction false} SortAllCases(io: SortIO, output: Path, ds: seq<DirValue>, st: SortState)
    ensures var r := SortAll(io, output, ds, st);
      && SkippedKept(ds, r.reports)
      && (!r.state.cancelled ==> Destined(output, ds, r.reports))
      && AllInLoop(r.events)
    decreases |ds|
  {
    if ds != [] {
      var init, d := ds[..|ds| - 1], ds[|ds| - 1];
      SortAllCases(io, output, init, st);
      var r0 := SortAll(io, output, init, st);
      if StopSeen(io, r0.state) {
        SkippedKeptSnoc(ds, r0.reports, d);
      } else {
        var one := SortOne(io, output, d, r0.state);
        SortOneCases(io, output, d, r0.state);
        SortOneSorted(io, output, d, r0.state);
        SkippedKeptSnoc(ds, r0.reports, one.report);
        if !one.state.cancelled {
          DestinedSnoc(output, ds, r0.reports, one.report);
        }
        AllInLoopAppend(r0.events, one.events);
      }
    }
  }

  lemma SkippedKeptSnoc(ds: seq<DirValue>, es: seq<DirValue>, e: DirValue)
    requires ds != [] && SkippedKept(ds[..|ds| - 1], es) && (Skipped(ds[|ds| - 1]) ==> e == ds[|ds| - 1])
    ensures SkippedKept(ds, es + [e])
  {
    assert forall i :: 0 <= i < |es| ==> (es + [e])[i] == es[i];
  }

  lemma DestinedSnoc(output: Path, ds: seq<DirValue>, es: seq<DirValue>, e: DirValue)
    requires ds != [] && Destined(output, ds[..|ds| - 1], es)
    requires DestinedOne(output, ds[|ds| - 1], e)
    ensures Destined(output, ds, es + [e])
  {
    var init := ds[..|ds| - 1];
    assert forall i :: 0 <= i < |es| ==> ds[i] == init[i];
    PairwiseSnoc((a: DirValue, b: DirValue) => DestinedOne(output, a, b), ds, es, e);
  }


  /** A report that is not skipped was sent to its destination. */
  predicate DestinedOne(output: Path, d: DirValue, e: DirValue) {
    !Skipped(d) ==> e.destinationPath == Some(Destination(output, d))
  }

  /** Every report of a list that is not skipped sent to its destination. */
  predicate Destined(output: Path, ds: seq<DirValue>, es: seq<DirValue>) {
    |es| == |ds| && forall i :: 0 <= i < |ds| ==> DestinedOne(output, ds[i], es[i])
  }

  /** Once the sort loop sees the cancel, the reports after it are left alone. */
  lemma {:induction false} SortAllStopped(io: SortIO, output: Path, ds: seq<DirValue>, st: SortState, j: nat)
    requires j < |ds| && StopSeen(io, SortAll(io, output, ds[..j], st).state)
    ensures var s := SortAll(io, output, ds[..j], st);
      SortAll(io, output, ds, st) == SortRun(s.reports + ds[j..], s.state.(cancelled := true), s.events)
    decreases |ds|
  {
    var init := ds[..|ds| - 1];
    var s := SortAll(io, output, ds[..j], st);
    if j < |ds| - 1 {
      assert init[..j] == ds[..j];
      SortAllStopped(io, output, init, st, j);
      SuffixSnoc(ds, j);
      AppendAssoc(s.reports, init[j..], [ds[|ds| - 1]]);
    } else {
      assert init == ds[..j] && ds[j..] == [ds[j]];
    }
  }

  /**
   * A report that is not skipped, whose destination was created and whose folder lists its files
   * has gained one file report per regular file.
   */
  predicate CopiedAll(io: SortIO, output: Path, d: DirValue, e: DirValue) {
    !Skipped(d) && io.makeDirs(Destination(output, d)) && Listing(io, d.path).Some? ==>
      |e.files| == |d.files| + |Listing(io, d.path).value|
  }

  /** Every report of a list whose destination was created got one file report per regular file. */
  predicate CopiedEverything(io: SortIO, output: Path, ds: seq<DirValue>, es: seq<DirValue>) {
    |es| == |ds| && forall i :: 0 <= i < |ds| ==> CopiedAll(io, output, ds[i], es[i])
  }

  lemma CopiedEverythingSnoc(io: SortIO, output: Path, ds: seq<DirValue>, es: seq<DirValue>, e: DirValue)
    requires ds != [] && CopiedEverything(io, output, ds[..|ds| - 1], es)
    requires CopiedAll(io, output, ds[|ds| - 1], e)
    ensures CopiedEverything(io, output, ds, es + [e])
  {
    var init := ds[..|ds| - 1];
    assert forall i :: 0 <= i < |es| ==> ds[i] == init[i];
    PairwiseSnoc((a: DirValue, b: DirValue) => CopiedAll(io, output, a, b), ds, es, e);
  }


  /** Without a cancel the sort loop copies every regular file of every folder whose destination it creates. */
  lemma {:induction false} SortAllCopiesAll(io: SortIO, output: Path, ds: seq<DirValue>, st: SortState)
    requires !st.cancelled && io.cancelAt.None?
    ensures var r := SortAll(io, output, ds, st);
      !r.state.cancelled && CopiedEverything(io, output, ds, r.reports)
    decreases |ds|
  {
    if ds != [] {
      var init, d := ds[..|ds| - 1], ds[|ds| - 1];
      SortAllCopiesAll(io, output, init, st);
      var r0 := SortAll(io, output, init, st);
      var one := SortOne(io, output, d, r0.state);
      if !Skipped(d) && io.makeDirs(Destination(output, d)) && Listing(io, d.path).Some? {
        SortOneCopiesAll(io, output, d, r0.state);
      }
      SortOneCases(io, output, d, r0.state);
      if Skipped(d) || !io.makeDirs(Destination(output, d)) {
        assert one.state == r0.state;
      } else if Listing(io, d.path).None? {
        assert one.state == r0.state;
      }
      CopiedEverythingSnoc(io, output, ds, r0.reports, one.report);
    }
  }

  /** Loop events hold no start and no completion of the sort. */
  lemma {:induction false} CountInLoop(es: seq<SortEvent>)
    requires AllInLoop(es)
    ensures CountEvents(es, IsSortStarted) == 0 && CountEvents(es, IsSortCompleted) == 0
  {
    if es != [] {
      var init := es[..|es| - 1];
      assert forall k :: 0 <= k < |init| ==> init[k] == es[k];
      CountInLoop(init);
    }
  }

  /**
   * The whole sort: if the output directory cannot be created only the error is fired and the
   * reports stay as they were; otherwise exactly one start and one completion are fired, around
   * the loop, and every report is handled as the loop lemmas say.
   */
  lemma SortWholeShape(io: SortIO, output: Path, ds: seq<DirValue>)
    ensures var r := SortWhole(io, output, ds);
      && SortedAll(output, ds, r.reports) && SkippedKept(ds, r.reports)
      && (!io.makeDirs(output) ==> r.reports == ds && r.events == [Error(OutputDirectoryNotCreated)])
      && (io.makeDirs(output) ==> r.events[0] == SortStarted(None, Some(output), false) && r.events[|r.events| - 1] == SortCompleted)
      && CountEvents(r.events, IsSortStarted) == (if io.makeDirs(output) then 1 else 0)
      && CountEvents(r.events, IsSortCompleted) == (if io.makeDirs(output) then 1 else 0)
      && (io.makeDirs(output) && !r.state.cancelled ==> Destined(output, ds, r.reports))
      && (io.makeDirs(output) && io.cancelAt.None? ==> CopiedEverything(io, output, ds, r.reports))
  {
    var st := SortState(false, 0);
    if !io.makeDirs(output) {
      assert forall i :: 0 <= i < |ds| ==> SortedFrom(output, ds[i], ds[i]);
      CountEventsAppend([], [Error(OutputDirectoryNotCreated)], IsSortStarted);
      CountEventsAppend([], [Error(OutputDirectoryNotCreated)], IsSortCompleted);
    } else {
      var r := SortAll(io, output, ds, st);
      SortAllSorted(io, output, ds, st);
      SortAllCases(io, output, ds, st);
      if io.cancelAt.None? {
        SortAllCopiesAll(io, output, ds, st);
      }
      CountInLoop(r.events);
      var start: seq<SortEvent>, done: seq<SortEvent> := [SortStarted(None, Some(output), false)], [SortCompleted];
      CountEventsAppend(start, r.events, IsSortStarted);
      CountEventsAppend(start + r.events, done, IsSortStarted);
      CountEventsAppend(start, r.events, IsSortCompleted);
      CountEventsAppend(start + r.events, done, IsSortCompleted);
      assert start[..0] == [] && done[..0] == [];
    }
  }

  /** The message of the IllegalStateException sort throws without an output directory. */
  const OutputMissing: string := "Output directory is required"

  class MusicSorter {
    const outputDirectory: Option<Path>
    var listeners: seq<ListenerId>
    var cancelled: bool
    var processedFiles: nat

    function State(): SortState
      reads this
    {
      SortState(cancelled, processedFiles)
    }

    constructor (outputDirectory: Option<Path>)
      ensures this.outputDirectory == outputDirectory && listeners == [] && State() == SortState(false, 0)
    {
      this.outputDirectory := outputDirectory;
      listeners, cancelled, processedFiles := [], false, 0;
    }

    /** The output directory is read from the configuration once, at construction. */
    constructor FromConfig(config: SortConfiguration)
      ensures outputDirectory == config.outputDirectory && listeners == [] && State() == SortState(false, 0)
    {
      outputDirectory := config.outputDirectory;
      listeners, cancelled, processedFiles := [], false, 0;
    }

    method AddListener(l: ListenerId)
      modifies this
      ensures listeners == old(listeners) + [l] && State() == old(State())
    {
      listeners := listeners + [l];
    }

    method RemoveListener(l: ListenerId)
      modifies this
      ensures listeners == RemoveFirst(old(listeners), l) && State() == old(State())
    {
      listeners := RemoveFirst(listeners, l);
    }

    method Cancel()
      modifies this
      ensures cancelled && listeners == old(listeners) && processedFiles == old(processedFiles)
    {
      cancelled := true;
    }

    function IsCancelled(): bool
      reads this
    {
      cancelled
    }

    /** One fire method: every listener, in registration order. */
    method Fire(e: SortEvent, log: EventLog)
      modifies log
      ensures log.trace == old(log.trace) + FireSort(listeners, e)
    {
      var i := 0;
      while i < |listeners|
        invariant 0 <= i <= |listeners|
        invariant log.trace == old(log.trace) + FireSort(listeners[..i], e)
      {
        assert listeners[..i + 1][..i] == listeners[..i];
        log.trace := log.trace + [ToSort(listeners[i], e)];
        i := i + 1;
      }
      assert listeners[..i] == listeners;
    }

    /** Fire, stated as the deliveries of a one-event run. */
    /** Fires one event; the reports `rs` are left as they were. */
    method FireKeeping(e: SortEvent, log: EventLog, ghost rs: seq<DirectoryReport>)
      modifies log
      ensures log.trace == old(log.trace) + FireSortAll(listeners, [e])
      ensures DirValues(rs) == old(DirValues(rs))
    {
      FireOne(e, log);
      DirValuesUnchanged(rs);
    }

    method FireOne(e: SortEvent, log: EventLog)
      modifies log
      ensures log.trace == old(log.trace) + FireSortAll(listeners, [e])
    {
      Fire(e, log);
      FireSortAllSnoc(listeners, [], e);
      assert [] + [e] == [e];
    }

    /** filterInvalidCharacters: the replacements, the trim, then the loop cutting trailing dots. */
    method FilterInvalidCharacters(str: Option<string>) returns (r: string)
      ensures r == Sanitized(str)
    {
      if str.None? {
        return "UNKNOWN";
      }
      var s := ReplaceInvalid(str.value);
      s := ReplaceChar(s, '/', "-");
      s := ReplaceChar(s, '|', "-");
      s := ReplaceChar(s, '?', "-");
      s := ReplaceChar(s, '\'', " ");
      s := ReplaceChar(s, '*', "");
      s := ReplaceChar(s, '>', ")");
      s := ReplaceChar(s, '<', "(");
      s := ReplaceChar(s, '\\', "-");
      s := Trim(s);
      while EndsWith(s, ".")
        invariant StripTrailingDots(s) == Sanitized(str)
        decreases |s|
      {
        s := Trim(s[..|s| - 1]);
      }
      r := s;
    }

    /** The start of one copy: a new file report with its target, added to the folder's report, and the event. */
    method StartCopy(source: Path, target: Path, size: Option<nat>, report: DirectoryReport, log: EventLog)
      returns (f: FileReport)
      modifies report, log
      ensures fresh(f) && f.Value() == NewFile(source, size).(destination := Some(target))
      ensures report.files == old(report.files) + [f] && report.Head() == old(report.Head())
      ensures log.trace == old(log.trace) + FireSort(listeners, FileCopyStarted(source, target))
    {
      f := new FileReport(source, size);
      f.SetDestination(Some(target));
      report.AddFile(f);
      Fire(FileCopyStarted(source, target), log);
    }

    /** Files.copy, the mark on the file report and the event for it. */
    method FinishCopy(io: SortIO, source: Path, target: Path, f: FileReport, log: EventLog)
      modifies f, log
      ensures f.Value() == AfterCopy(io, source, target, old(f.Value()))
      ensures log.trace == old(log.trace) + FireSort(listeners, CopyEvent(f.Value()))
    {
      var outcome := io.copy(source, target);
      match outcome {
        case CopyDone(t) =>
          f.MarkCopied(target, t);
          Fire(FileCopied(f.Value()), log);
        case CopyThrew(m) =>
          f.MarkFailed(m);
          Fire(FileCopyFailed(f.Value()), log);
      }
    }

    /** One turn of copyFiles past the cancel check, up to the count: the copy of one file. */
    method CopyFile(io: SortIO, dir: Path, dest: Path, file: Node, report: DirectoryReport, log: EventLog)
      modifies report, log
      ensures var one := CopyOne(io, dir, dest, file);
        && report.Head() == old(report.Head())
        && FileValues(report.files) == old(FileValues(report.files)) + [one.file]
        && log.trace == old(log.trace) + FireSortAll(listeners, one.events)
    {
      ghost var before, t0 := report.files, log.trace;
      var source, target := Resolve(dir, file.name), Resolve(dest, file.name);
      var f := StartCopy(source, target, SizeOf(file), report, log);
      FinishCopy(io, source, target, f, log);
      FileValuesSnocChanged(before, f);
      FireSortAllPair(t0, listeners, CopyOne(io, dir, dest, file).events);
    }

    /**
     * The cancel check at the top of each turn of a loop. The cancel from outside is modelled as
     * landing here, once the counter has reached io.cancelAt: it sets the flag as cancel() would.
     */
    method CancelCheck(io: SortIO) returns (stop: bool)
      modifies this
      ensures stop == StopSeen(io, old(State())) && listeners == old(listeners)
      ensures State() == if stop then old(State()).(cancelled := true) else old(State())
    {
      if io.cancelAt.Some? && processedFiles >= io.cancelAt.value {
        cancelled := true;
      }
      stop := cancelled;
    }

    /** processedFiles++ at the end of a turn of copyFiles. */
    method CountFile()
      modifies this
      ensures State() == old(State()).(processedFiles := old(processedFiles) + 1) && listeners == old(listeners)
    {
      processedFiles := processedFiles + 1;
    }

    /**
     * copyFiles: list the folder's regular files (nothing happens when that gives null), then
     * copy them in order until the cancel check sees the flag.
     */
    method CopyFiles(io: SortIO, dest: Path, report: DirectoryReport, log: EventLog)
      modifies this, report, log
      ensures report.Head() == old(report.Head()) && listeners == old(listeners)
      ensures Listing(io, report.path).None? ==>
        FileValues(report.files) == old(FileValues(report.files)) && State() == old(State()) && log.trace == old(log.trace)
      ensures Listing(io, report.path).Some? ==>
        var c := CopyAll(io, report.path, dest, Listing(io, report.path).value, old(State()));
        && FileValues(report.files) == old(FileValues(report.files)) + c.files
        && State() == c.state
        && log.trace == old(log.trace) + FireSortAll(listeners, c.events)
    {
      var listing := Listing(io, report.path);
      if listing.Some? {
        CopyEach(io, report.path, dest, listing.value, report, log);
      }
    }

    /** What the loop of copyFiles has left after copying the files before those still to come. */
    ghost predicate CopiedSoFar(io: SortIO, dir: Path, dest: Path, done: seq<Node>, st0: SortState,
                                v0: seq<FileValue>, t0: seq<Delivery>, report: DirectoryReport, log: EventLog)
      reads this, report, report.files, log
    {
      var c := CopyAll(io, dir, dest, done, st0);
      && FileValues(report.files) == v0 + c.files
      && State() == c.state
      && log.trace == t0 + FireSortAll(listeners, c.events)
    }

    /** One turn of the loop of copyFiles past the cancel check: copy fs[i] and count it. */
    method CopyNext(io: SortIO, dir: Path, dest: Path, fs: seq<Node>, i: nat, ghost st0: SortState,
                    ghost v0: seq<FileValue>, ghost t0: seq<Delivery>, report: DirectoryReport, log: EventLog)
      requires i < |fs| && CopiedSoFar(io, dir, dest, fs[..i], st0, v0, t0, report, log)
      requires !StopSeen(io, State())
      modifies this, report, log
      ensures report.Head() == old(report.Head()) && listeners == old(listeners)
      ensures CopiedSoFar(io, dir, dest, fs[..i + 1], st0, v0, t0, report, log)
    {
      ghost var c := CopyAll(io, dir, dest, fs[..i], st0);
      CopyFile(io, dir, dest, fs[i], report, log);
      CountFile();
      ghost var one := CopyOne(io, dir, dest, fs[i]);
      CopyAllNext(io, dir, dest, fs, st0, i);
      AppendAssoc(v0, c.files, [one.file]);
      FireSortAllExtend(t0, listeners, c.events, one.events);
    }

    /** The loop of copyFiles over the listed files. */
    method CopyEach(io: SortIO, dir: Path, dest: Path, fs: seq<Node>, report: DirectoryReport, log: EventLog)
      modifies this, report, log
      ensures report.Head() == old(report.Head()) && listeners == old(listeners)
      ensures var c := CopyAll(io, dir, dest, fs, old(State()));
        && FileValues(report.files) == old(FileValues(report.files)) + c.files
        && State() == c.state
        && log.trace == old(log.trace) + FireSortAll(listeners, c.events)
    {
      ghost var st0, t0, v0 := State(), log.trace, FileValues(report.files);
      assert fs[..0] == [] && v0 + [] == v0 && t0 + [] == t0;
      var i := 0;
      while i < |fs|
        invariant 0 <= i <= |fs|
        invariant report.Head() == old(report.Head()) && listeners == old(listeners)
        invariant CopiedSoFar(io, dir, dest, fs[..i], st0, v0, t0, report, log)
      {
        var stop := CancelCheck(io);
        if stop {
          CopyAllStopped(io, dir, dest, fs, st0, i);
          return;
        }
        CopyNext(io, dir, dest, fs, i, st0, v0, t0, report, log);
        i := i + 1;
      }
      assert fs[..i] == fs;
    }

    /**
     * One turn of the loop of sort past its cancel check: skip the report, or name its destination,
     * create it, copy the folder's files and announce the folder as done.
     */
    method SortReport(io: SortIO, output: Path, report: DirectoryReport, log: EventLog)
      modifies this, report, log
      ensures listeners == old(listeners)
      ensures var one := SortOne(io, output, old(report.Value()), old(State()));
        && report.Value() == one.report
        && State() == one.state
        && log.trace == old(log.trace) + FireSortAll(listeners, one.events)
    {
      if report.empty || report.scannedFilesCount == 0 {
        assert log.trace + FireSortAll(listeners, []) == log.trace;
        return;
      }
      SortUnskipped(io, output, report, log);
    }

    /** The turn of the loop of sort for a report that is not skipped. */
    method SortUnskipped(io: SortIO, output: Path, report: DirectoryReport, log: EventLog)
      requires !report.empty && report.scannedFilesCount != 0
      modifies this, report, log
      ensures listeners == old(listeners)
      ensures var one := SortOne(io, output, old(report.Value()), old(State()));
        && report.Value() == one.report
        && State() == one.state
        && log.trace == old(log.trace) + FireSortAll(listeners, one.events)
    {
      ghost var d, st := report.Value(), State();
      var destAlbumDir := PlaceReport(output, report);
      if !io.makeDirs(destAlbumDir) {
        ReportNotCreated(io, output, destAlbumDir, report, log, d, st);
        return;
      }
      CopyIntoCreated(io, output, destAlbumDir, report, log, d, st);
    }

    /** The destination of a report, recorded on it before anything is created. */
    method PlaceReport(output: Path, report: DirectoryReport) returns (dest: Path)
      modifies report
      ensures dest == Destination(output, old(report.Value()))
      ensures report.Value() == WithCopies(old(report.Value()), dest, [])
    {
      ghost var d := report.Value();
      ValueFromHead(report);
      ghost var fv := FileValues(report.files);
      dest := DestinationOf(output, report);
      DestinationIgnoresFiles(output, report.Head(), d.files);
      report.SetDestinationPath(Some(dest));
      ValueFromHead(report);
      FileValuesUnchanged(report.files);
      assert d.files + [] == fv;
    }

    /** createDirectories failed: fireOnError, and the loop moves on with no copy. */
    method ReportNotCreated(io: SortIO, output: Path, dest: Path, report: DirectoryReport, log: EventLog,
                            ghost d: DirValue, ghost st: SortState)
      requires !d.empty && d.scannedFilesCount != 0 && dest == Destination(output, d) && !io.makeDirs(dest)
      requires report.Value() == WithCopies(d, dest, []) && State() == st
      modifies log
      ensures var one := SortOne(io, output, d, st);
        && report.Value() == one.report
        && State() == one.state
        && log.trace == old(log.trace) + FireSortAll(listeners, one.events)
    {
      FireOne(Error(DestinationNotCreated(dest)), log);
      SortOneNoDestination(io, output, d, st);
    }

    /** The rest of one report's sort once its destination exists: copyFiles, then the completion event. */
    method CopyIntoCreated(io: SortIO, output: Path, dest: Path, report: DirectoryReport, log: EventLog,
                           ghost d: DirValue, ghost st: SortState)
      requires !d.empty && d.scannedFilesCount != 0 && dest == Destination(output, d) && io.makeDirs(dest)
      requires report.Value() == WithCopies(d, dest, []) && State() == st
      modifies this, report, log
      ensures listeners == old(listeners)
      ensures var one := SortOne(io, output, d, st);
        && report.Value() == one.report
        && State() == one.state
        && log.trace == old(log.trace) + FireSortAll(listeners, one.events)
    {
      ValueFromHead(report);
      ghost var h := report.Head();
      assert h == d.(files := []).(destinationPath := Some(dest));
      assert FileValues(report.files) == d.files;
      CopyAndComplete(io, dest, report, log);
      ValueFromHead(report);
      SortOneCopied(io, output, d, st);
      ghost var files := Listing(io, d.path);
      ghost var added := if files.None? then [] else CopyAll(io, d.path, dest, files.GetOr([]), st).files;
      assert report.Value() == h.(files := d.files + added);
    }

    /** The names of sort: artist, album and year sanitized, the album folder, both resolves. */
    method DestinationOf(output: Path, report: DirectoryReport) returns (dest: Path)
      ensures dest == Destination(output, report.Head())
    {
      var artist := FilterInvalidCharacters(report.artist);
      var album := FilterInvalidCharacters(report.album);
      var year := FilterInvalidCharacters(report.year);
      var albumFolder := AlbumFolderName(album, report.Head());
      var destArtistDir := ResolveText(output, artist);
      dest := ResolveText(destArtistDir, "[" + year + "] " + albumFolder);
    }

    /** copyFiles into the created destination, then fireOnDirectoryCompleted. */
    method CopyAndComplete(io: SortIO, dest: Path, report: DirectoryReport, log: EventLog)
      modifies this, report, log
      ensures listeners == old(listeners) && report.Head() == old(report.Head())
      ensures var files := Listing(io, report.path);
        var c := CopyAll(io, report.path, dest, files.GetOr([]), old(State()));
        && FileValues(report.files) == old(FileValues(report.files)) + (if files.None? then [] else c.files)
        && State() == (if files.None? then old(State()) else c.state)
        && log.trace == old(log.trace) + FireSortAll(listeners, (if files.None? then [] else c.events) + [DirectoryCompleted(report.path)])
    {
      ghost var t0 := log.trace;
      CopyFiles(io, dest, report, log);
      ghost var t1 := log.trace;
      FireOne(DirectoryCompleted(report.path), log);
      ghost var es := if Listing(io, report.path).None? then [] else CopyAll(io, report.path, dest, Listing(io, report.path).value, old(State())).events;
      FireSortAllExtend(t0, listeners, es, [DirectoryCompleted(report.path)]);
      assert t0 + FireSortAll(listeners, []) == t0;
    }

    /**
     * sort: the output directory is required; the flag and the counter are reset, the output
     * directory created, and then the start event, the loop over the reports and the end event.
     */
    method Sort(totals: RunTotals, io: SortIO, log: EventLog) returns (r: Result<RunTotals, string>)
      requires totals.Valid()
      modifies this, log, totals.directoryReports
      ensures listeners == old(listeners) && totals.directoryReports == old(totals.directoryReports)
      ensures outputDirectory.None? ==>
        && r == Err(OutputMissing) && State() == old(State()) && log.trace == old(log.trace)
        && totals.Snapshot() == old(totals.Snapshot())
      ensures outputDirectory.Some? ==>
        var w := SortWhole(io, outputDirectory.value, old(totals.Snapshot()));
        && r == Result.Ok(totals) && totals.Snapshot() == w.reports && State() == w.state
        && log.trace == old(log.trace) + FireSortAll(listeners, w.events)
    {
      if outputDirectory.None? {
        return Err(OutputMissing);
      }
      r := SortInto(outputDirectory.value, totals, io, log);
    }

    /** sort once the output directory is known: the reset, the output directory, then the events around the loop. */
    method SortInto(output: Path, totals: RunTotals, io: SortIO, log: EventLog) returns (r: Result<RunTotals, string>)
      requires totals.Valid()
      modifies this, log, totals.directoryReports
      ensures listeners == old(listeners) && totals.directoryReports == old(totals.directoryReports)
      ensures var w := SortWhole(io, output, old(totals.Snapshot()));
        && r == Result.Ok(totals) && totals.Snapshot() == w.reports && State() == w.state
        && log.trace == old(log.trace) + FireSortAll(listeners, w.events)
    {
      var rs := totals.directoryReports;
      ghost var ds := totals.Snapshot();
      assert ds == DirValues(rs);
      Reset(rs);
      if !io.makeDirs(output) {
        FireKeeping(Error(OutputDirectoryNotCreated), log, rs);
        assert totals.directoryReports == rs;
        return Result.Ok(totals);
      }
      SortBetweenEvents(output, rs, io, log);
      ghost var s := SortAll(io, output, ds, SortState(false, 0));
      assert DirValues(rs) == s.reports && State() == s.state;
      assert totals.directoryReports == rs;
      return Result.Ok(totals);
    }

    /** The reset of the cancellation flag and the file counter at the start of sort; the reports `rs` are left as they were. */
    method Reset(ghost rs: seq<DirectoryReport>)
      modifies this
      ensures listeners == old(listeners) && State() == SortState(false, 0)
      ensures DirValues(rs) == old(DirValues(rs))
    {
      cancelled, processedFiles := false, 0;
      DirValuesUnchanged(rs);
    }

    /** sort past the creation of the output directory: the start event, the loop and the end event. */
    method SortBetweenEvents(output: Path, rs: seq<DirectoryReport>, io: SortIO, log: EventLog)
      requires Distinct(rs) && io.makeDirs(output)
      modifies this, log, rs
      ensures listeners == old(listeners)
      ensures var s := SortAll(io, output, old(DirValues(rs)), old(State()));
        && DirValues(rs) == s.reports && State() == s.state
        && log.trace == old(log.trace) + FireSortAll(listeners, [SortStarted(None, Some(output), false)] + s.events + [SortCompleted])
    {
      ghost var t0, snap0, st0 := log.trace, DirValues(rs), State();
      FireKeeping(SortStarted(None, Some(output), false), log, rs);
      ghost var t1 := log.trace;
      assert snap0[..0] == [] && [] + snap0[0..] == snap0 && t1 + [] == t1;
      SortLoop(io, output, rs, snap0, st0, t1, log);
      ghost var s := SortAll(io, output, snap0, st0);
      FireKeeping(SortCompleted, log, rs);
      FireSortAllExtend(t0, listeners, [SortStarted(None, Some(output), false)], s.events);
      FireSortAllExtend(t0, listeners, [SortStarted(None, Some(output), false)] + s.events, [SortCompleted]);
    }

    /** What the loop of sort has left after the reports before those still to come. */
    ghost predicate SortedSoFar(io: SortIO, output: Path, rs: seq<DirectoryReport>, ds0: seq<DirValue>, i: nat,
                                st0: SortState, t0: seq<Delivery>, log: EventLog)
      reads this, Frame(rs), log
    {
      i <= |ds0| == |rs| &&
      var s := SortAll(io, output, ds0[..i], st0);
      && DirValues(rs) == s.reports + ds0[i..]
      && State() == s.state
      && log.trace == t0 + FireSortAll(listeners, s.events)
    }

    /** The loop of sort, from the first report on. */
    method SortLoop(io: SortIO, output: Path, rs: seq<DirectoryReport>, ghost ds0: seq<DirValue>,
                    ghost st0: SortState, ghost t0: seq<Delivery>, log: EventLog)
      requires Distinct(rs) && SortedSoFar(io, output, rs, ds0, 0, st0, t0, log)
      modifies this, log, rs
      ensures listeners == old(listeners)
      ensures var s := SortAll(io, output, ds0, st0);
        && DirValues(rs) == s.reports
        && State() == s.state
        && log.trace == t0 + FireSortAll(listeners, s.events)
    {
      var i := 0;
      while i < |rs|
        invariant 0 <= i <= |rs| && listeners == old(listeners)
        invariant SortedSoFar(io, output, rs, ds0, i, st0, t0, log)
      {
        if StopSeen(io, State()) {
          StopSort(io, output, rs, ds0, i, st0, t0, log);
          return;
        }
        SortNext(io, output, rs, ds0, i, st0, t0, log);
        assert SortedSoFar(io, output, rs, ds0, i + 1, st0, t0, log);
        i := i + 1;
      }
      assert ds0[..i] == ds0 && ds0[i..] == [];
    }

    /** The loop of sort stopping at its cancel check: the flag set, the later reports left alone. */
    method StopSort(io: SortIO, output: Path, rs: seq<DirectoryReport>, ghost ds0: seq<DirValue>, i: nat,
                    ghost st0: SortState, ghost t0: seq<Delivery>, log: EventLog)
      requires i < |rs| && SortedSoFar(io, output, rs, ds0, i, st0, t0, log) && StopSeen(io, State())
      modifies this
      ensures listeners == old(listeners)
      ensures var s := SortAll(io, output, ds0, st0);
        && DirValues(rs) == s.reports
        && State() == s.state
        && log.trace == t0 + FireSortAll(listeners, s.events)
    {
      SortAllStopped(io, output, ds0, st0, i);
      cancelled := true;
      DirValuesUnchanged(rs);
    }

    /** One turn of the loop of sort past the cancel check: the report rs[i] sorted. */
    method SortNext(io: SortIO, output: Path, rs: seq<DirectoryReport>, ghost ds0: seq<DirValue>, i: nat,
                    ghost st0: SortState, ghost t0: seq<Delivery>, log: EventLog)
      requires i < |rs| && Distinct(rs) && SortedSoFar(io, output, rs, ds0, i, st0, t0, log)
      requires !StopSeen(io, State())
      modifies this, rs[i], log
      ensures listeners == old(listeners)
      ensures SortedSoFar(io, output, rs, ds0, i + 1, st0, t0, log)
    {
      ghost var s := SortAll(io, output, ds0[..i], st0);
      ghost var vs := DirValues(rs);
      ghost var one := SortOne(io, output, rs[i].Value(), State());
      SortAllNext(io, output, ds0, st0, i);
      DistinctOthers(rs, i);
      SortReport(io, output, rs[i], log);
      DirValuesUpdate(rs, i);
      UpdateAtSuffix(s.reports, ds0, i, one.report);
      FireSortAllExtend(t0, listeners, s.events, one.events);
    }
  }
}
