/** RunTotals: the list of directory reports of a run and every statistic derived from it. */
module Totals {
  import opened Wrappers
  import opened Disk
  import opened FileReports
  import opened DirectoryReports

  /** The number of reports with the given derived status. */
  function CountDirs(ds: seq<DirValue>, s: DirStatus): (n: nat)
    ensures n <= |ds|
  {
    if ds == [] then 0
    else CountDirs(ds[..|ds| - 1], s) + (if Status(ds[|ds| - 1]) == s then 1 else 0)
  }

  /** A status count is zero exactly when no report has that status. */
  lemma {:induction false} CountDirsZero(ds: seq<DirValue>, s: DirStatus)
    ensures CountDirs(ds, s) == 0 <==> forall i :: 0 <= i < |ds| ==> Status(ds[i]) != s
  {
    if ds != [] {
      var init := ds[..|ds| - 1];
      CountDirsZero(init, s);
      assert forall i :: 0 <= i < |init| ==> init[i] == ds[i];
    }
  }

  /** getOkDirs: at most every report, and zero exactly when no report is OK. */
  function OkDirs(ds: seq<DirValue>): (n: nat)
    ensures n <= |ds|
    ensures n == 0 <==> forall i :: 0 <= i < |ds| ==> Status(ds[i]) != DirStatus.Ok
  {
    CountDirsZero(ds, DirStatus.Ok);
    CountDirs(ds, DirStatus.Ok)
  }

  /** getNoTagDirs: at most every report, and zero exactly when no report is NO_TAG. */
  function NoTagDirs(ds: seq<DirValue>): (n: nat)
    ensures n <= |ds|
    ensures n == 0 <==> forall i :: 0 <= i < |ds| ==> Status(ds[i]) != NoTag
  {
    CountDirsZero(ds, NoTag);
    CountDirs(ds, NoTag)
  }

  /** getCopyErrorDirs: at most every report, and zero exactly when no report is COPY_ERROR. */
  function CopyErrorDirs(ds: seq<DirValue>): (n: nat)
    ensures n <= |ds|
    ensures n == 0 <==> forall i :: 0 <= i < |ds| ==> Status(ds[i]) != CopyError
  {
    CountDirsZero(ds, CopyError);
    CountDirs(ds, CopyError)
  }

  /** getEmptyDirs: at most every report, and zero exactly when no report is EMPTY. */
  function EmptyDirs(ds: seq<DirValue>): (n: nat)
    ensures n <= |ds|
    ensures n == 0 <==> forall i :: 0 <= i < |ds| ==> Status(ds[i]) != Empty
  {
    CountDirsZero(ds, Empty);
    CountDirs(ds, Empty)
  }

  /** Every report is OK, NO_TAG, COPY_ERROR or EMPTY, so the four counts add up to the total. */
  lemma {:induction false} StatusCountsSum(ds: seq<DirValue>)
    ensures OkDirs(ds) + NoTagDirs(ds) + CopyErrorDirs(ds) + EmptyDirs(ds) == |ds|
  {
    if ds != [] {
      StatusCountsSum(ds[..|ds| - 1]);
    }
  }

  /** getFilesSeen: the sum of getFilesCount. */
  function FilesSeen(ds: seq<DirValue>): nat {
    if ds == [] then 0 else FilesSeen(ds[..|ds| - 1]) + FilesCount(ds[|ds| - 1])
  }

  /** getFilesCopied: the sum of getCopiedCount. */
  function FilesCopied(ds: seq<DirValue>): nat {
    if ds == [] then 0 else FilesCopied(ds[..|ds| - 1]) + CopiedCount(ds[|ds| - 1])
  }

  /** getFilesFailed: the sum of getErrorCount. */
  function FilesFailed(ds: seq<DirValue>): nat {
    if ds == [] then 0 else FilesFailed(ds[..|ds| - 1]) + ErrorCount(ds[|ds| - 1])
  }

  /** Every file report of the run, directory by directory (the flatMap over getFiles). */
  function AllFiles(ds: seq<DirValue>): seq<FileValue> {
    if ds == [] then [] else AllFiles(ds[..|ds| - 1]) + ds[|ds| - 1].files
  }

  /** The files with a status, in order. */
  function FilesWithStatus(fs: seq<FileValue>, s: FileStatus): seq<FileValue> {
    if fs == [] then []
    else FilesWithStatus(fs[..|fs| - 1], s) + (if fs[|fs| - 1].status == s then [fs[|fs| - 1]] else [])
  }

  /** The filter keeps exactly the files with the status. */
  lemma {:induction false} FilesWithStatusMembers(fs: seq<FileValue>, s: FileStatus, f: FileValue)
    ensures f in FilesWithStatus(fs, s) <==> f in fs && f.status == s
  {
    if fs != [] {
      var init, last := fs[..|fs| - 1], fs[|fs| - 1];
      FilesWithStatusMembers(init, s, f);
      assert fs == init + [last];
    }
  }

  lemma {:induction false} FilesWithStatusCount(fs: seq<FileValue>, s: FileStatus)
    ensures |FilesWithStatus(fs, s)| == CountStatus(fs, s)
  {
    if fs != [] {
      FilesWithStatusCount(fs[..|fs| - 1], s);
    }
  }

  lemma {:induction false} FilesWithStatusAppend(a: seq<FileValue>, b: seq<FileValue>, s: FileStatus)
    ensures FilesWithStatus(a + b, s) == FilesWithStatus(a, s) + FilesWithStatus(b, s)
  {
    if b != [] {
      var b0, f := b[..|b| - 1], b[|b| - 1];
      assert (a + b)[..|a + b| - 1] == a + b0 && (a + b)[|a + b| - 1] == f;
      FilesWithStatusAppend(a, b0, s);
      var x, y, z := FilesWithStatus(a, s), FilesWithStatus(b0, s), if f.status == s then [f] else [];
      assert FilesWithStatus(a + b, s) == x + y + z;
      assert x + y + z == x + (y + z);
    } else {
      assert a + b == a;
    }
  }

  /** The filter keeps exactly the files with the status, all of them at once. */
  lemma FilesWithStatusAllMembers(fs: seq<FileValue>, s: FileStatus)
    ensures forall f :: f in FilesWithStatus(fs, s) <==> f in fs && f.status == s
  {
    forall f ensures f in FilesWithStatus(fs, s) <==> f in fs && f.status == s {
      FilesWithStatusMembers(fs, s, f);
    }
  }

  /** getFailedFiles: the COPY_FAILED file reports of every directory, in order. */
  function FailedFiles(ds: seq<DirValue>): (r: seq<FileValue>)
    ensures forall f :: f in r <==> f in AllFiles(ds) && f.status == CopyFailed
  {
    FilesWithStatusAllMembers(AllFiles(ds), CopyFailed);
    FilesWithStatus(AllFiles(ds), CopyFailed)
  }

  /** The failed-file list is as long as the filesFailed total. */
  lemma {:induction false} FailedFilesCount(ds: seq<DirValue>)
    ensures |FailedFiles(ds)| == FilesFailed(ds)
  {
    if ds != [] {
      var init := ds[..|ds| - 1];
      FailedFilesCount(init);
      FilesWithStatusAppend(AllFiles(init), ds[|ds| - 1].files, CopyFailed);
      FilesWithStatusCount(ds[|ds| - 1].files, CopyFailed);
    }
  }

  /** The COPIED file reports of the run number filesCopied, the sum of the copied counts. */
  lemma {:induction false} CopiedFilesCount(ds: seq<DirValue>)
    ensures |FilesWithStatus(AllFiles(ds), Copied)| == FilesCopied(ds)
  {
    if ds != [] {
      var init := ds[..|ds| - 1];
      CopiedFilesCount(init);
      FilesWithStatusAppend(AllFiles(init), ds[|ds| - 1].files, Copied);
      FilesWithStatusCount(ds[|ds| - 1].files, Copied);
    }
  }

  /** No file report is both copied and failed: filesCopied plus filesFailed is at most the file reports of the run. */
  lemma {:induction false} CopiedAndFailedAtMostAll(ds: seq<DirValue>)
    ensures FilesCopied(ds) + FilesFailed(ds) <= |AllFiles(ds)|
  {
    if ds != [] {
      CopiedAndFailedAtMostAll(ds[..|ds| - 1]);
      CopiedAndErrorsAtMostFiles(ds[|ds| - 1]);
    }
  }

  /** Without scanned counts, filesSeen is the number of file reports of the run. */
  lemma {:induction false} FilesSeenWithoutScans(ds: seq<DirValue>)
    requires forall i :: 0 <= i < |ds| ==> ds[i].scannedFilesCount <= 0
    ensures FilesSeen(ds) == |AllFiles(ds)|
  {
    if ds != [] {
      var init := ds[..|ds| - 1];
      assert forall i :: 0 <= i < |init| ==> init[i] == ds[i];
      FilesSeenWithoutScans(init);
    }
  }

  /** A directory with a positive scanned count adds that count to filesSeen, whatever its file reports. */
  lemma FilesSeenAppendScanned(ds: seq<DirValue>, d: DirValue)
    requires d.scannedFilesCount > 0
    ensures FilesSeen(ds + [d]) == FilesSeen(ds) + d.scannedFilesCount
  {
    assert (ds + [d])[..|ds|] == ds;
  }

  /** The sum of the sizes of some file reports. */
  function SizeSum(fs: seq<FileValue>): nat {
    if fs == [] then 0 else SizeSum(fs[..|fs| - 1]) + fs[|fs| - 1].sizeBytes
  }

  /** getTotalBytesCopied: the sizes of the COPIED file reports only. */
  function TotalBytesCopied(ds: seq<DirValue>): (n: nat)
    ensures n <= SizeSum(AllFiles(ds))
  {
    CopiedBytesAtMostAll(AllFiles(ds));
    SizeSum(FilesWithStatus(AllFiles(ds), Copied))
  }

  lemma {:induction false} SizeSumAppend(a: seq<FileValue>, b: seq<FileValue>)
    ensures SizeSum(a + b) == SizeSum(a) + SizeSum(b)
  {
    if b != [] {
      assert (a + b)[..|a + b| - 1] == a + b[..|b| - 1];
      SizeSumAppend(a, b[..|b| - 1]);
    } else {
      assert a + b == a;
    }
  }

  /** Bytes copied never exceed the sizes of all file reports. */
  lemma {:induction false} CopiedBytesAtMostAll(fs: seq<FileValue>)
    ensures SizeSum(FilesWithStatus(fs, Copied)) <= SizeSum(fs)
  {
    if fs != [] {
      var init := fs[..|fs| - 1];
      CopiedBytesAtMostAll(init);
      var last := if fs[|fs| - 1].status == Copied then [fs[|fs| - 1]] else [];
      SizeSumAppend(FilesWithStatus(init, Copied), last);
      assert SizeSum(last) <= fs[|fs| - 1].sizeBytes by {
        if last != [] {
          assert last[..0] == [];
        }
      }
    }
  }

  /** Adding a directory adds exactly the bytes of its COPIED file reports. */
  lemma TotalBytesCopiedAppend(ds: seq<DirValue>, d: DirValue)
    ensures TotalBytesCopied(ds + [d]) == TotalBytesCopied(ds) + SizeSum(FilesWithStatus(d.files, Copied))
  {
    assert (ds + [d])[..|ds|] == ds;
    FilesWithStatusAppend(AllFiles(ds), d.files, Copied);
    SizeSumAppend(FilesWithStatus(AllFiles(ds), Copied), FilesWithStatus(d.files, Copied));
  }

  /** getDirectoriesWithoutTags: the NO_TAG reports, in list order. */
  function DirectoriesWithoutTags(ds: seq<DirValue>): (r: seq<DirValue>)
    ensures forall d :: d in r ==> d in ds && Status(d) == NoTag
    ensures forall d :: d in ds && Status(d) == NoTag ==> d in r
  {
    if ds == [] then []
    else DirectoriesWithoutTags(ds[..|ds| - 1]) + (if Status(ds[|ds| - 1]) == NoTag then [ds[|ds| - 1]] else [])
  }

  /** That list is as long as the noTagDirs count. */
  lemma {:induction false} DirectoriesWithoutTagsCount(ds: seq<DirValue>)
    ensures |DirectoriesWithoutTags(ds)| == NoTagDirs(ds)
  {
    if ds != [] {
      DirectoriesWithoutTagsCount(ds[..|ds| - 1]);
    }
  }

  /** getTotalDuration: end minus start, or zero when either time is unset. */
  function TotalDuration(start: Option<int>, end: Option<int>): (r: int)
    ensures start.None? || end.None? ==> r == 0
    ensures start.Some? && end.Some? ==> r == end.value - start.value
  {
    if start.None? || end.None? then 0 else end.value - start.value
  }

  /** Every object a list of directory reports reads through: the reports and their file reports. */
  ghost function Frame(ds: seq<DirectoryReport>): set<object>
    reads ds
  {
    (set d | d in ds) + (set d, f | d in ds && f in d.files :: f)
  }

  /** The values of a list of directory reports, element by element. */
  function DirValues(ds: seq<DirectoryReport>): (r: seq<DirValue>)
    reads Frame(ds)
    ensures |r| == |ds|
    ensures forall i :: 0 <= i < |ds| ==> r[i] == ds[i].Value()
  {
    if ds == [] then []
    else
      var last := ds[|ds| - 1];
      assert forall f :: f in last.files ==> f in Frame(ds);
      DirValues(ds[..|ds| - 1]) + [last.Value()]
  }

  lemma DirValuesAppend(a: seq<DirectoryReport>, b: seq<DirectoryReport>)
    ensures DirValues(a + b) == DirValues(a) + DirValues(b)
  {
    assert forall i :: 0 <= i < |a + b| ==> DirValues(a + b)[i] == (DirValues(a) + DirValues(b))[i];
  }

  /** The reports' values leaving their file reports out, element by element. */
  function Heads(ds: seq<DirectoryReport>): (r: seq<DirValue>)
    reads ds
    ensures |r| == |ds|
  {
    if ds == [] then [] else Heads(ds[..|ds| - 1]) + [ds[|ds| - 1].Head()]
  }

  lemma {:induction false} HeadsAppend(a: seq<DirectoryReport>, b: seq<DirectoryReport>)
    ensures Heads(a + b) == Heads(a) + Heads(b)
    decreases |b|
  {
    if b == [] {
      assert a + b == a;
    } else {
      assert (a + b)[..|a + b| - 1] == a + b[..|b| - 1];
      HeadsAppend(a, b[..|b| - 1]);
    }
  }

  lemma HeadsCons(d: DirectoryReport, ds: seq<DirectoryReport>)
    ensures Heads([d] + ds) == [d.Head()] + Heads(ds)
  {
    HeadsAppend([d], ds);
    assert [d][..0] == [];
  }

  /** None of the reports holds a file report yet. */
  predicate NoFileReports(ds: seq<DirectoryReport>)
    reads ds
  {
    ds == [] || (NoFileReports(ds[..|ds| - 1]) && ds[|ds| - 1].files == [])
  }

  lemma {:induction false} NoFileReportsAppend(a: seq<DirectoryReport>, b: seq<DirectoryReport>)
    ensures NoFileReports(a + b) <==> NoFileReports(a) && NoFileReports(b)
    decreases |b|
  {
    if b == [] {
      assert a + b == a;
    } else {
      assert (a + b)[..|a + b| - 1] == a + b[..|b| - 1];
      NoFileReportsAppend(a, b[..|b| - 1]);
    }
  }

  lemma NoFileReportsCons(d: DirectoryReport, ds: seq<DirectoryReport>)
    ensures NoFileReports([d] + ds) <==> d.files == [] && NoFileReports(ds)
  {
    NoFileReportsAppend([d], ds);
    assert [d][..0] == [];
  }

  /** Reports without file reports: leaving the files out loses nothing. */
  lemma {:induction false} HeadsAreValues(ds: seq<DirectoryReport>)
    requires NoFileReports(ds)
    ensures Heads(ds) == DirValues(ds)
  {
    if ds != [] {
      HeadsAreValues(ds[..|ds| - 1]);
      assert DirValues(ds) == DirValues(ds[..|ds| - 1]) + [ds[|ds| - 1].Value()];
    }
  }

  /** Heads of untouched reports do not change. */
  twostate lemma {:induction false} HeadsUnchanged(ds: seq<DirectoryReport>)
    requires forall i :: 0 <= i < |ds| ==> unchanged(ds[i])
    ensures Heads(ds) == old(Heads(ds))
  {
    if ds != [] {
      HeadsUnchanged(ds[..|ds| - 1]);
    }
  }

  /** Untouched reports still hold no file reports. */
  twostate lemma {:induction false} NoFileReportsUnchanged(ds: seq<DirectoryReport>)
    requires forall i :: 0 <= i < |ds| ==> unchanged(ds[i])
    requires old(NoFileReports(ds))
    ensures NoFileReports(ds)
  {
    if ds != [] {
      NoFileReportsUnchanged(ds[..|ds| - 1]);
    }
  }

  /** Values of untouched reports whose file reports are untouched do not change. */
  twostate lemma DirValuesUnchanged(new ds: seq<DirectoryReport>)
    requires old(allocated(ds))
    requires forall i :: 0 <= i < |ds| ==> unchanged(ds[i])
    requires forall i, j :: 0 <= i < |ds| && 0 <= j < |ds[i].files| ==> unchanged(ds[i].files[j])
    ensures DirValues(ds) == old(DirValues(ds))
  {
    forall i | 0 <= i < |ds| ensures DirValues(ds)[i] == old(DirValues(ds))[i] {
      var fs := ds[i].files;
      assert FileValues(fs) == old(FileValues(fs)) by {
        assert forall j :: 0 <= j < |fs| ==> unchanged(fs[j]);
        FileValuesUnchanged(fs);
      }
    }
  }

  /** Values after one report of a list changed and the other reports and their file reports did not. */
  twostate lemma DirValuesUpdate(new ds: seq<DirectoryReport>, i: int)
    requires old(allocated(ds)) && 0 <= i < |ds|
    requires forall j :: 0 <= j < |ds| && j != i ==> unchanged(ds[j])
    requires forall j, k :: 0 <= j < |ds| && j != i && 0 <= k < |ds[j].files| ==> unchanged(ds[j].files[k])
    ensures DirValues(ds) == old(DirValues(ds))[i := ds[i].Value()]
  {
    forall j | 0 <= j < |ds| && j != i ensures DirValues(ds)[j] == old(DirValues(ds))[j] {
      var fs := ds[j].files;
      assert unchanged(ds[j]);
      assert FileValues(fs) == old(FileValues(fs)) by {
        assert forall k :: 0 <= k < |fs| ==> unchanged(fs[k]);
        FileValuesUnchanged(fs);
      }
    }
  }

  /** No report object is listed twice: each one is absent from the reports before it. */
  predicate Distinct(ds: seq<DirectoryReport>)
    decreases |ds|
  {
    ds == [] || (Distinct(ds[..|ds| - 1]) && ds[|ds| - 1] !in ds[..|ds| - 1])
  }

  /** Appending keeps a list duplicate-free exactly when the new element is not in it yet. */
  lemma DistinctSnoc(ds: seq<DirectoryReport>, r: DirectoryReport)
    ensures Distinct(ds + [r]) <==> Distinct(ds) && r !in ds
  {
    assert (ds + [r])[..|ds|] == ds;
  }

  /** Two positions of a duplicate-free list hold two different reports. */
  lemma {:induction false} DistinctAt(ds: seq<DirectoryReport>, i: nat, j: nat)
    requires Distinct(ds) && i < j < |ds|
    ensures ds[i] != ds[j]
    decreases |ds|
  {
    var init := ds[..|ds| - 1];
    if j < |ds| - 1 {
      DistinctAt(init, i, j);
    } else {
      assert init[i] == ds[i];
    }
  }

  /** The report at one position of a duplicate-free list is at no other position. */
  lemma DistinctOthers(ds: seq<DirectoryReport>, i: nat)
    requires Distinct(ds) && i < |ds|
    ensures forall j :: 0 <= j < |ds| && j != i ==> ds[j] != ds[i]
  {
    forall j | 0 <= j < |ds| && j != i ensures ds[j] != ds[i] {
      if j < i { DistinctAt(ds, j, i); } else { DistinctAt(ds, i, j); }
    }
  }

  /** The two parts of a duplicate-free list share no element. */
  lemma {:induction false} DistinctDisjoint(a: seq<DirectoryReport>, b: seq<DirectoryReport>, r: DirectoryReport)
    requires Distinct(a + b) && r in a
    ensures r !in b
    decreases |b|
  {
    if b != [] {
      var e, b0 := a + b, b[..|b| - 1];
      assert e[..|e| - 1] == a + b0;
      DistinctDisjoint(a, b0, r);
      assert r in e[..|e| - 1];
    }
  }

  class RunTotals {
    var directoryReports: seq<DirectoryReport>
    var startTime: Option<int>
    var endTime: Option<int>
    var totalFilesCount: int
    var nonAudioFilesCount: int

    /** No report object is listed twice. */
    ghost predicate Valid()
      reads this
    {
      Distinct(directoryReports)
    }

    /** The reports' current values, in list order. */
    function Snapshot(): seq<DirValue>
      reads this, Frame(directoryReports)
    {
      DirValues(directoryReports)
    }

    constructor ()
      ensures Valid() && directoryReports == [] && Snapshot() == []
      ensures startTime.None? && endTime.None? && totalFilesCount == 0 && nonAudioFilesCount == 0
    {
      directoryReports := [];
      startTime, endTime := None, None;
      totalFilesCount, nonAudioFilesCount := 0, 0;
    }

    /** addDirectoryReport appends; the list stays duplicate-free exactly when the report is new to it. */
    method AddDirectoryReport(r: DirectoryReport)
      modifies this
      ensures directoryReports == old(directoryReports) + [r]
      ensures Valid() <==> old(Valid()) && r !in old(directoryReports)
      ensures startTime == old(startTime) && endTime == old(endTime)
      ensures totalFilesCount == old(totalFilesCount) && nonAudioFilesCount == old(nonAudioFilesCount)
    {
      DistinctSnoc(directoryReports, r);
      directoryReports := directoryReports + [r];
    }

    method SetStartTime(t: Option<int>)
      modifies this
      ensures directoryReports == old(directoryReports) && startTime == t && endTime == old(endTime)
      ensures totalFilesCount == old(totalFilesCount) && nonAudioFilesCount == old(nonAudioFilesCount)
    {
      startTime := t;
    }

    method SetEndTime(t: Option<int>)
      modifies this
      ensures directoryReports == old(directoryReports) && startTime == old(startTime) && endTime == t
      ensures totalFilesCount == old(totalFilesCount) && nonAudioFilesCount == old(nonAudioFilesCount)
    {
      endTime := t;
    }

    /** addFileCounts adds to the two counters and changes nothing else. */
    method AddFileCounts(totalFiles: int, nonAudioFiles: int)
      modifies this
      ensures totalFilesCount == old(totalFilesCount) + totalFiles
      ensures nonAudioFilesCount == old(nonAudioFilesCount) + nonAudioFiles
      ensures directoryReports == old(directoryReports) && startTime == old(startTime) && endTime == old(endTime)
    {
      totalFilesCount := totalFilesCount + totalFiles;
      nonAudioFilesCount := nonAudioFilesCount + nonAudioFiles;
    }

    /** getTotalDuration: zero until both times are set, then end minus start. */
    function GetTotalDuration(): (r: int)
      reads this
      ensures startTime.None? || endTime.None? ==> r == 0
      ensures startTime.Some? && endTime.Some? ==> r == endTime.value - startTime.value
    {
      TotalDuration(startTime, endTime)
    }

    /** getDirectoriesTotal: the four status counts of the reports add up to it. */
    function GetDirectoriesTotal(): (n: nat)
      reads this, Frame(directoryReports)
      ensures n == OkDirs(Snapshot()) + NoTagDirs(Snapshot()) + CopyErrorDirs(Snapshot()) + EmptyDirs(Snapshot())
    {
      StatusCountsSum(Snapshot());
      |directoryReports|
    }
  }
}
