/** FileReport: the record of one file copy. */
module FileReports {
  import opened Wrappers
  import opened Disk

  datatype FileStatus = Pending | Copied | CopyFailed | Skipped

  /** All fields of a FileReport; the copy duration is an opaque number (milliseconds). */
  datatype FileValue = FileValue(
    source: Path,
    destination: Option<Path>,
    status: FileStatus,
    errorMessage: Option<string>,
    sizeBytes: nat,
    copyDuration: Option<int>)

  /**
   * A new report: PENDING, nothing set but the source, and the file's size, which is 0 when
   * Files.size fails (size is None).
   */
  function NewFile(source: Path, size: Option<nat>): (r: FileValue)
    ensures r.source == source && r.status == Pending
    ensures r.destination.None? && r.errorMessage.None? && r.copyDuration.None?
    ensures size.Some? ==> r.sizeBytes == size.value
    ensures size.None? ==> r.sizeBytes == 0
  {
    FileValue(source, None, Pending, None, size.GetOr(0), None)
  }

  /** markCopied: destination, status and duration are set; the error message is kept. */
  function WithCopied(v: FileValue, destination: Path, duration: int): (r: FileValue)
    ensures r.status == Copied && r.destination == Some(destination) && r.copyDuration == Some(duration)
    ensures r.source == v.source && r.sizeBytes == v.sizeBytes && r.errorMessage == v.errorMessage
  {
    v.(destination := Some(destination), status := Copied, copyDuration := Some(duration))
  }

  /** markFailed: status and error message are set; destination and duration are kept. */
  function WithFailed(v: FileValue, message: Option<string>): (r: FileValue)
    ensures r.status == CopyFailed && r.errorMessage == message
    ensures r.source == v.source && r.sizeBytes == v.sizeBytes
    ensures r.destination == v.destination && r.copyDuration == v.copyDuration
  {
    v.(status := CopyFailed, errorMessage := message)
  }

  /**
   * The marks have no guard and the last one decides the status: marking a failed report
   * copied leaves its error message in place, and marking a copied report failed keeps its
   * destination and duration.
   */
  lemma LastMarkWins(v: FileValue, d: Path, t: int, m: Option<string>)
    ensures WithCopied(WithFailed(v, m), d, t).status == Copied
    ensures WithCopied(WithFailed(v, m), d, t).errorMessage == m
    ensures WithFailed(WithCopied(v, d, t), m).status == CopyFailed
    ensures WithFailed(WithCopied(v, d, t), m).destination == Some(d)
    ensures WithCopied(WithCopied(v, d, t), d, t) == WithCopied(v, d, t)
    ensures WithFailed(WithFailed(v, m), m) == WithFailed(v, m)
  {
  }

  class FileReport {
    const source: Path
    const sizeBytes: nat
    var destination: Option<Path>
    var status: FileStatus
    var errorMessage: Option<string>
    var copyDuration: Option<int>

    function Value(): FileValue
      reads this
    {
      FileValue(source, destination, status, errorMessage, sizeBytes, copyDuration)
    }

    /** size is what Files.size returns for source, None when it throws. */
    constructor (source: Path, size: Option<nat>)
      ensures Value() == NewFile(source, size)
    {
      this.source := source;
      this.sizeBytes := size.GetOr(0);
      destination, status, errorMessage, copyDuration := None, Pending, None, None;
    }

    method SetDestination(d: Option<Path>)
      modifies this
      ensures Value() == old(Value()).(destination := d)
    {
      destination := d;
    }

    method SetStatus(s: FileStatus)
      modifies this
      ensures Value() == old(Value()).(status := s)
    {
      status := s;
    }

    method SetErrorMessage(m: Option<string>)
      modifies this
      ensures Value() == old(Value()).(errorMessage := m)
    {
      errorMessage := m;
    }

    method SetCopyDuration(t: Option<int>)
      modifies this
      ensures Value() == old(Value()).(copyDuration := t)
    {
      copyDuration := t;
    }

    method MarkCopied(d: Path, t: int)
      modifies this
      ensures Value() == WithCopied(old(Value()), d, t)
    {
      destination, status, copyDuration := Some(d), Copied, Some(t);
    }

    method MarkFailed(m: Option<string>)
      modifies this
      ensures Value() == WithFailed(old(Value()), m)
    {
      status, errorMessage := CopyFailed, m;
    }
  }

  /** The values of a list of file reports, element by element. */
  function FileValues(fs: seq<FileReport>): (r: seq<FileValue>)
    reads fs
    ensures |r| == |fs|
  {
    if fs == [] then [] else FileValues(fs[..|fs| - 1]) + [fs[|fs| - 1].Value()]
  }

  /** The values of file reports none of which changed do not change. */
  twostate lemma {:induction false} FileValuesUnchanged(fs: seq<FileReport>)
    requires forall k :: 0 <= k < |fs| ==> unchanged(fs[k])
    ensures FileValues(fs) == old(FileValues(fs))
  {
    if fs != [] {
      FileValuesUnchanged(fs[..|fs| - 1]);
      assert unchanged(fs[|fs| - 1]);
    }
  }

  /** A list of file reports extended by one, when the earlier ones are untouched. */
  twostate lemma FileValuesSnocChanged(fs: seq<FileReport>, new f: FileReport)
    requires forall k :: 0 <= k < |fs| ==> unchanged(fs[k])
    ensures FileValues(fs + [f]) == old(FileValues(fs)) + [f.Value()]
  {
    assert (fs + [f])[..|fs|] == fs;
    FileValuesUnchanged(fs);
  }
}
