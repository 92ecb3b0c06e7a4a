/** DirectoryReport: what the scan found in one directory and what the sort did with it. */
module DirectoryReports {
  import opened Wrappers
  import opened Disk
  import opened FileReports

  datatype DirStatus = Ok | NoTag | CopyError | Empty | Skipped

  /** All fields of a DirectoryReport, with the file reports as values. */
  datatype DirValue = DirValue(
    path: Path,
    depth: int,
    files: seq<FileValue>,
    tagFound: bool,
    empty: bool,
    hasImageFile: bool,
    coverImagePath: Option<Path>,
    scannedFilesCount: int,
    audioFilePaths: seq<Path>,
    artist: Option<string>,
    album: Option<string>,
    year: Option<string>,
    format: Option<string>,
    bitrate: Option<int>,
    sampleRate: Option<int>,
    variableBitrate: bool,
    destinationPath: Option<Path>)

  /** The field initialisers of a new report. */
  function NewDir(path: Path, depth: int): DirValue {
    DirValue(path, depth, [], false, false, false, None, 0, [], None, None, None, None, None, None, false, None)
  }

  /** The number of files with the given status (a stream filter and count). */
  function CountStatus(fs: seq<FileValue>, s: FileStatus): (n: nat)
    ensures n <= |fs|
  {
    if fs == [] then 0
    else CountStatus(fs[..|fs| - 1], s) + (if fs[|fs| - 1].status == s then 1 else 0)
  }

  /** A count is positive exactly when some file has that status. */
  lemma {:induction false} CountStatusPositive(fs: seq<FileValue>, s: FileStatus)
    ensures CountStatus(fs, s) > 0 <==> exists i :: 0 <= i < |fs| && fs[i].status == s
  {
    if fs != [] {
      var init := fs[..|fs| - 1];
      CountStatusPositive(init, s);
      if CountStatus(init, s) > 0 {
        var i :| 0 <= i < |init| && init[i].status == s;
        assert fs[i].status == s;
      }
      if exists i :: 0 <= i < |fs| && fs[i].status == s {
        var i :| 0 <= i < |fs| && fs[i].status == s;
        if i < |init| {
          assert init[i].status == s;
        }
      }
    }
  }

  /** Two different statuses never count the same file twice. */
  lemma {:induction false} CountTwoStatuses(fs: seq<FileValue>, s: FileStatus, t: FileStatus)
    requires s != t
    ensures CountStatus(fs, s) + CountStatus(fs, t) <= |fs|
  {
    if fs != [] {
      CountTwoStatuses(fs[..|fs| - 1], s, t);
    }
  }

  /** Appending a file adds it to the count of its own status only. */
  lemma CountStatusAppend(fs: seq<FileValue>, f: FileValue, s: FileStatus)
    ensures CountStatus(fs + [f], s) == CountStatus(fs, s) + (if f.status == s then 1 else 0)
  {
    assert (fs + [f])[..|fs|] == fs;
  }

  /** getCopiedCount. */
  function CopiedCount(d: DirValue): nat {
    CountStatus(d.files, Copied)
  }

  /** getErrorCount. */
  function ErrorCount(d: DirValue): nat {
    CountStatus(d.files, CopyFailed)
  }

  /** Copied and failed files are disjoint, so together they are at most all the files. */
  lemma CopiedAndErrorsAtMostFiles(d: DirValue)
    ensures CopiedCount(d) + ErrorCount(d) <= |d.files|
  {
    CountTwoStatuses(d.files, Copied, CopyFailed);
  }

  /** getFilesCount: the scanned count when positive, otherwise the number of file reports. */
  function FilesCount(d: DirValue): (r: int)
    ensures d.scannedFilesCount > 0 ==> r == d.scannedFilesCount
    ensures d.scannedFilesCount <= 0 ==> r == |d.files|
    ensures r >= 0
  {
    if d.scannedFilesCount > 0 then d.scannedFilesCount else |d.files|
  }

  /** getStatus, derived from the two flags and the file reports. SKIPPED never comes out. */
  function Status(d: DirValue): (r: DirStatus)
    ensures d.empty ==> r == Empty
    ensures r == Empty <==> d.empty
    ensures r == NoTag <==> !d.empty && !d.tagFound
    ensures r == CopyError <==> !d.empty && d.tagFound && exists i :: 0 <= i < |d.files| && d.files[i].status == CopyFailed
    ensures r == DirStatus.Ok <==> !d.empty && d.tagFound && forall i :: 0 <= i < |d.files| ==> d.files[i].status != CopyFailed
    ensures r != DirStatus.Skipped
  {
    CountStatusPositive(d.files, CopyFailed);
    if d.empty then Empty
    else if !d.tagFound then NoTag
    else if ErrorCount(d) > 0 then CopyError
    else DirStatus.Ok
  }

  /** A new report has no tag, is not empty and has no files, so it reads as NO_TAG. */
  lemma NewDirIsNoTag(path: Path, depth: int)
    ensures Status(NewDir(path, depth)) == NoTag
    ensures FilesCount(NewDir(path, depth)) == 0
  {
  }

  class DirectoryReport {
    const path: Path
    const depth: int
    var files: seq<FileReport>
    var tagFound: bool
    var empty: bool
    var hasImageFile: bool
    var coverImagePath: Option<Path>
    var scannedFilesCount: int
    var audioFilePaths: seq<Path>
    var artist: Option<string>
    var album: Option<string>
    var year: Option<string>
    var format: Option<string>
    var bitrate: Option<int>
    var sampleRate: Option<int>
    var variableBitrate: bool
    var destinationPath: Option<Path>

    function Value(): DirValue
      reads this, files
    {
      DirValue(path, depth, FileValues(files), tagFound, empty, hasImageFile, coverImagePath,
               scannedFilesCount, audioFilePaths, artist, album, year, format, bitrate, sampleRate,
               variableBitrate, destinationPath)
    }

    /** The value leaving the file reports out: the whole value while there are none. */
    function Head(): DirValue
      reads this
    {
      DirValue(path, depth, [], tagFound, empty, hasImageFile, coverImagePath,
               scannedFilesCount, audioFilePaths, artist, album, year, format, bitrate, sampleRate,
               variableBitrate, destinationPath)
    }

    constructor (path: Path, depth: int)
      ensures Head() == NewDir(path, depth) && files == []
    {
      this.path, this.depth := path, depth;
      files, audioFilePaths := [], [];
      tagFound, empty, hasImageFile, variableBitrate := false, false, false, false;
      coverImagePath, destinationPath := None, None;
      scannedFilesCount := 0;
      artist, album, year, format := None, None, None, None;
      bitrate, sampleRate := None, None;
    }

    /** addFile appends; earlier file reports stay where they were. */
    method AddFile(f: FileReport)
      modifies this
      ensures files == old(files) + [f] && Head() == old(Head())
      ensures Value() == old(Value()).(files := old(Value()).files + [f.Value()])
    {
      files := files + [f];
    }

    method SetTagFound(b: bool)
      modifies this
      ensures files == old(files) && Head() == old(Head()).(tagFound := b)
    {
      tagFound := b;
    }

    method SetEmpty(b: bool)
      modifies this
      ensures files == old(files) && Head() == old(Head()).(empty := b)
    {
      empty := b;
    }

    method SetHasImageFile(b: bool)
      modifies this
      ensures files == old(files) && Head() == old(Head()).(hasImageFile := b)
    {
      hasImageFile := b;
    }

    method SetCoverImagePath(p: Option<Path>)
      modifies this
      ensures files == old(files) && Head() == old(Head()).(coverImagePath := p)
    {
      coverImagePath := p;
    }

    method SetScannedFilesCount(n: int)
      modifies this
      ensures files == old(files) && Head() == old(Head()).(scannedFilesCount := n)
    {
      scannedFilesCount := n;
    }

    method AddAudioFilePath(p: Path)
      modifies this
      ensures files == old(files) && Head() == old(Head()).(audioFilePaths := old(audioFilePaths) + [p])
    {
      audioFilePaths := audioFilePaths + [p];
    }

    method SetArtist(s: Option<string>)
      modifies this
      ensures files == old(files) && Head() == old(Head()).(artist := s)
    {
      artist := s;
    }

    method SetAlbum(s: Option<string>)
      modifies this
      ensures files == old(files) && Head() == old(Head()).(album := s)
    {
      album := s;
    }

    method SetYear(s: Option<string>)
      modifies this
      ensures files == old(files) && Head() == old(Head()).(year := s)
    {
      year := s;
    }

    method SetFormat(s: Option<string>)
      modifies this
      ensures files == old(files) && Head() == old(Head()).(format := s)
    {
      format := s;
    }

    method SetBitrate(n: Option<int>)
      modifies this
      ensures files == old(files) && Head() == old(Head()).(bitrate := n)
    {
      bitrate := n;
    }

    method SetSampleRate(n: Option<int>)
      modifies this
      ensures files == old(files) && Head() == old(Head()).(sampleRate := n)
    {
      sampleRate := n;
    }

    method SetVariableBitrate(b: bool)
      modifies this
      ensures files == old(files) && Head() == old(Head()).(variableBitrate := b)
    {
      variableBitrate := b;
    }

    method SetDestinationPath(p: Option<Path>)
      modifies this
      ensures files == old(files) && Head() == old(Head()).(destinationPath := p)
    {
      destinationPath := p;
    }

    /** getFilesCount: the scanned count when positive, otherwise the number of file reports. */
    function GetFilesCount(): (r: int)
      reads this, files
      ensures scannedFilesCount > 0 ==> r == scannedFilesCount
      ensures scannedFilesCount <= 0 ==> r == |files|
    {
      FilesCount(Value())
    }

    /** getCopiedCount: with the error count, at most one per file report. */
    function GetCopiedCount(): (r: nat)
      reads this, files
      ensures r + GetErrorCount() <= |files|
    {
      CopiedAndErrorsAtMostFiles(Value());
      CopiedCount(Value())
    }

    /** getErrorCount: at most one per file report. */
    function GetErrorCount(): (r: nat)
      reads this, files
      ensures r <= |files|
    {
      ErrorCount(Value())
    }

    /** getStatus: EMPTY first, then NO_TAG, then COPY_ERROR when a copy failed, else OK; never SKIPPED. */
    function GetStatus(): (r: DirStatus)
      reads this, files
      ensures r == Empty <==> empty
      ensures r == NoTag <==> !empty && !tagFound
      ensures r == CopyError <==> !empty && tagFound && GetErrorCount() > 0
      ensures r == DirStatus.Ok <==> !empty && tagFound && GetErrorCount() == 0
      ensures r != DirStatus.Skipped
    {
      Status(Value())
    }
  }

  /** A report's value is its head with its file reports' values. */
  lemma ValueFromHead(r: DirectoryReport)
    ensures r.Value() == r.Head().(files := FileValues(r.files))
  {
  }
}
