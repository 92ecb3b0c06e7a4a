/**
 * Progress events: what the scanner and the sorter tell their listeners, the engine's bridge
 * from scan events to sort events, and the ghost log of every delivery.
 */
module Events {
  import opened Wrappers
  import opened Disk
  import opened FileReports

  /** A listener object, by identity. */
  type ListenerId = nat

  /** ScanProgressListener callbacks; a report or totals argument is recorded by its path or not at all. */
  datatype ScanEvent =
    | ScanStarted(input: Path)
    | DirEntered(directory: Path, depth: int)
    | DirFilesFound(directory: Path, count: int)
    | DirEmpty(directory: Path)
    | DirTagsRead(directory: Path, artist: Option<string>, album: Option<string>, year: Option<string>)
    | DirTagsMissing(directory: Path)
    | DirCompleted(directory: Path)
    | DirsProgress(processedDirs: int, totalDirs: int)
    | ScanCompleted
    | ScanError(message: string)

  /** Why the sorter reports an error. */
  datatype ErrorCause = OutputDirectoryNotCreated | DestinationNotCreated(destination: Path) | Scan(message: string)

  /** SortProgressListener callbacks; a file report is recorded as its value when the event fires. */
  datatype SortEvent =
    | SortStarted(input: Option<Path>, output: Option<Path>, debugMode: bool)
    | DirectoryEntered(directory: Path, depth: int)
    | FilesFound(directory: Path, count: int)
    | DirectoryEmpty(directory: Path)
    | TagsRead(directory: Path, artist: Option<string>, album: Option<string>, year: Option<string>)
    | TagsMissing(directory: Path)
    | FileCopyStarted(source: Path, destination: Path)
    | FileCopied(file: FileValue)
    | FileCopyFailed(file: FileValue)
    | DirectoryCompleted(directory: Path)
    | ProgressUpdate(processedDirs: int, totalDirs: int, processedFiles: int)
    | SortCompleted
    | Error(cause: ErrorCause)

  /**
   * ScanToSortListenerBridge: start, completion and per-directory completion are dropped,
   * progress gains a processed-files count of 0, every other event is forwarded as is.
   */
  function Bridge(e: ScanEvent): (r: Option<SortEvent>)
    ensures r.None? <==> e.ScanStarted? || e.ScanCompleted? || e.DirCompleted?
    ensures r.Some? ==> !r.value.SortStarted? && !r.value.SortCompleted? && !r.value.DirectoryCompleted?
    ensures e.DirsProgress? ==> r == Some(ProgressUpdate(e.processedDirs, e.totalDirs, 0))
  {
    match e
    case ScanStarted(_) => None
    case DirEntered(d, depth) => Some(DirectoryEntered(d, depth))
    case DirFilesFound(d, n) => Some(FilesFound(d, n))
    case DirEmpty(d) => Some(DirectoryEmpty(d))
    case DirTagsRead(d, artist, album, year) => Some(TagsRead(d, artist, album, year))
    case DirTagsMissing(d) => Some(TagsMissing(d))
    case DirCompleted(_) => None
    case DirsProgress(dirs, total) => Some(ProgressUpdate(dirs, total, 0))
    case ScanCompleted => None
    case ScanError(m) => Some(Error(Scan(m)))
  }

  /** A scan listener: one registered directly, or the engine's bridge to a sort listener. */
  datatype ScanListener = Direct(id: ListenerId) | Bridged(delegate: ListenerId)

  /**
   * One callback on one listener. A scan event delivered to the bridge stands for the sort
   * callback the bridge makes from it at once (see Received).
   */
  datatype Delivery = ToScan(scanListener: ScanListener, scanEvent: ScanEvent) | ToSort(sortListener: ListenerId, sortEvent: SortEvent)

  /** A scan event fired to every listener, in registration order. */
  function FireScan(ls: seq<ScanListener>, e: ScanEvent): (r: seq<Delivery>)
    ensures |r| == |ls|
  {
    if ls == [] then [] else FireScan(ls[..|ls| - 1], e) + [ToScan(ls[|ls| - 1], e)]
  }

  /** Every listener gets the event once, in registration order. */
  lemma {:induction false} FireScanAt(ls: seq<ScanListener>, e: ScanEvent)
    ensures forall i :: 0 <= i < |ls| ==> FireScan(ls, e)[i] == ToScan(ls[i], e)
  {
    if ls != [] {
      FireScanAt(ls[..|ls| - 1], e);
    }
  }

  /** Several scan events, one after the other. */
  function FireScanAll(ls: seq<ScanListener>, es: seq<ScanEvent>): seq<Delivery> {
    if es == [] then [] else FireScanAll(ls, es[..|es| - 1]) + FireScan(ls, es[|es| - 1])
  }

  lemma FireScanAllSnoc(ls: seq<ScanListener>, es: seq<ScanEvent>, e: ScanEvent)
    ensures FireScanAll(ls, es + [e]) == FireScanAll(ls, es) + FireScan(ls, e)
  {
    assert (es + [e])[..|es|] == es;
  }

  lemma FireScanAllFour(ls: seq<ScanListener>, es: seq<ScanEvent>)
    requires |es| == 4
    ensures FireScanAll(ls, es) == FireScan(ls, es[0]) + FireScan(ls, es[1]) + FireScan(ls, es[2]) + FireScan(ls, es[3])
  {
    FireScanAllSnoc(ls, es[..3], es[3]);
    FireScanAllSnoc(ls, es[..2], es[2]);
    FireScanAllSnoc(ls, es[..1], es[1]);
    FireScanAllSnoc(ls, [], es[0]);
    assert es[..3] + [es[3]] == es && es[..2] + [es[2]] == es[..3] && es[..1] + [es[1]] == es[..2] && [] + [es[0]] == es[..1];
  }

  lemma {:induction false} FireScanAllAppend(ls: seq<ScanListener>, a: seq<ScanEvent>, b: seq<ScanEvent>)
    ensures FireScanAll(ls, a + b) == FireScanAll(ls, a) + FireScanAll(ls, b)
    decreases |b|
  {
    if b == [] {
      assert a + b == a;
    } else {
      var b0, e := b[..|b| - 1], b[|b| - 1];
      assert (a + b)[..|a + b| - 1] == a + b0;
      assert (a + b)[|a + b| - 1] == e;
      FireScanAllAppend(ls, a, b0);
      calc {
        FireScanAll(ls, a + b);
        FireScanAll(ls, a + b0) + FireScan(ls, e);
        FireScanAll(ls, a) + FireScanAll(ls, b0) + FireScan(ls, e);
      ==  { AppendAssoc(FireScanAll(ls, a), FireScanAll(ls, b0), FireScan(ls, e)); }
        FireScanAll(ls, a) + (FireScanAll(ls, b0) + FireScan(ls, e));
        FireScanAll(ls, a) + FireScanAll(ls, b);
      }
    }
  }

  /** A log extended by one event and then by the deliveries of a and of b. */
  lemma FireScanAllAround(t: seq<Delivery>, ls: seq<ScanListener>, e: ScanEvent, a: seq<ScanEvent>, b: seq<ScanEvent>)
    ensures t + FireScan(ls, e) + FireScanAll(ls, a) + FireScanAll(ls, b) == t + FireScanAll(ls, [e] + a + b)
  {
    var one, here, kids := FireScan(ls, e), FireScanAll(ls, a), FireScanAll(ls, b);
    FireScanAllSnoc(ls, [], e);
    assert [] + [e] == [e] && [] + one == one;
    FireScanAllAppend(ls, [e], a);
    FireScanAllAppend(ls, [e] + a, b);
    assert FireScanAll(ls, [e] + a + b) == one + here + kids;
    calc {
      t + one + here + kids;
    ==  { AppendAssoc(t, one, here); }
      t + (one + here) + kids;
    ==  { AppendAssoc(t, one + here, kids); }
      t + FireScanAll(ls, [e] + a + b);
    }
  }

  /** A log extended by one event, the deliveries of a, then one more event. */
  lemma FireScanAllBracket(t: seq<Delivery>, ls: seq<ScanListener>, e: ScanEvent, a: seq<ScanEvent>, c: ScanEvent)
    ensures t + FireScan(ls, e) + FireScanAll(ls, a) + FireScan(ls, c) == t + FireScanAll(ls, [e] + a + [c])
  {
    var one, here, last := FireScan(ls, e), FireScanAll(ls, a), FireScan(ls, c);
    var front := [e] + a;
    FireScanAllSnoc(ls, [], e);
    assert [] + [e] == [e] && [] + one == one;
    FireScanAllAppend(ls, [e], a);
    assert FireScanAll(ls, front) == one + here;
    FireScanAllSnoc(ls, front, c);
    calc {
      t + one + here + last;
    ==  { AppendAssoc(t, one, here); }
      t + (one + here) + last;
    ==  { AppendAssoc(t, one + here, last); }
      t + FireScanAll(ls, front + [c]);
    }
  }

  /** Concatenation regrouped. */
  lemma AppendAssoc<T>(a: seq<T>, b: seq<T>, c: seq<T>)
    ensures a + b + c == a + (b + c)
  {
  }

  /** A suffix of a list is the suffix of its front followed by its last element. */
  lemma SuffixSnoc<T>(s: seq<T>, j: nat)
    requires j < |s|
    ensures s[..|s| - 1][j..] + [s[|s| - 1]] == s[j..]
  {
  }

  /** Replacing the first element of a suffix placed after a prefix. */
  lemma UpdateAtSuffix<T>(a: seq<T>, s: seq<T>, i: nat, x: T)
    requires i < |s|
    ensures (a + s[i..])[|a|] == s[i]
    ensures (a + s[i..])[|a| := x] == a + [x] + s[i + 1..]
  {
  }

  lemma ConcatFour<T>(t: seq<T>, a: seq<T>, b: seq<T>, c: seq<T>, d: seq<T>)
    ensures t + a + b + c + d == t + (a + b + c + d)
  {
  }

  /** A log that already holds the deliveries of a, extended by those of b. */
  lemma FireScanAllExtend(t: seq<Delivery>, ls: seq<ScanListener>, a: seq<ScanEvent>, b: seq<ScanEvent>)
    ensures t + FireScanAll(ls, a) + FireScanAll(ls, b) == t + FireScanAll(ls, a + b)
  {
    FireScanAllAppend(ls, a, b);
    assert t + FireScanAll(ls, a) + FireScanAll(ls, b) == t + (FireScanAll(ls, a) + FireScanAll(ls, b));
  }

  /** A sort event fired to every listener, in registration order. */
  function FireSort(ls: seq<ListenerId>, e: SortEvent): (r: seq<Delivery>)
    ensures |r| == |ls|
    ensures forall i :: 0 <= i < |ls| ==> r[i] == ToSort(ls[i], e)
  {
    if ls == [] then [] else FireSort(ls[..|ls| - 1], e) + [ToSort(ls[|ls| - 1], e)]
  }

  /** Several sort events, one after the other. */
  function FireSortAll(ls: seq<ListenerId>, es: seq<SortEvent>): seq<Delivery> {
    if es == [] then [] else FireSortAll(ls, es[..|es| - 1]) + FireSort(ls, es[|es| - 1])
  }

  lemma FireSortAllSnoc(ls: seq<ListenerId>, es: seq<SortEvent>, e: SortEvent)
    ensures FireSortAll(ls, es + [e]) == FireSortAll(ls, es) + FireSort(ls, e)
  {
    assert (es + [e])[..|es|] == es;
  }

  lemma {:induction false} FireSortAllAppend(ls: seq<ListenerId>, a: seq<SortEvent>, b: seq<SortEvent>)
    ensures FireSortAll(ls, a + b) == FireSortAll(ls, a) + FireSortAll(ls, b)
    decreases |b|
  {
    if b == [] {
      assert a + b == a;
    } else {
      var b0, e := b[..|b| - 1], b[|b| - 1];
      assert (a + b)[..|a + b| - 1] == a + b0;
      assert (a + b)[|a + b| - 1] == e;
      FireSortAllAppend(ls, a, b0);
      AppendAssoc(FireSortAll(ls, a), FireSortAll(ls, b0), FireSort(ls, e));
    }
  }

  /** Two events fired one after the other. */
  lemma FireSortAllPair(t: seq<Delivery>, ls: seq<ListenerId>, es: seq<SortEvent>)
    requires |es| == 2
    ensures t + FireSort(ls, es[0]) + FireSort(ls, es[1]) == t + FireSortAll(ls, es)
  {
    FireSortAllSnoc(ls, [], es[0]);
    FireSortAllSnoc(ls, [es[0]], es[1]);
    assert [] + [es[0]] == [es[0]] && [es[0]] + [es[1]] == es;
    AppendAssoc(t, FireSort(ls, es[0]), FireSort(ls, es[1]));
  }

  /** A log that already holds the deliveries of a, extended by those of b. */
  lemma FireSortAllExtend(t: seq<Delivery>, ls: seq<ListenerId>, a: seq<SortEvent>, b: seq<SortEvent>)
    ensures t + FireSortAll(ls, a) + FireSortAll(ls, b) == t + FireSortAll(ls, a + b)
  {
    FireSortAllAppend(ls, a, b);
    AppendAssoc(t, FireSortAll(ls, a), FireSortAll(ls, b));
  }

  /** How many of some events satisfy p. */
  function CountEvents(es: seq<SortEvent>, p: SortEvent -> bool): nat {
    if es == [] then 0 else CountEvents(es[..|es| - 1], p) + (if p(es[|es| - 1]) then 1 else 0)
  }

  lemma {:induction false} CountEventsAppend(a: seq<SortEvent>, b: seq<SortEvent>, p: SortEvent -> bool)
    ensures CountEvents(a + b, p) == CountEvents(a, p) + CountEvents(b, p)
  {
    if b == [] {
      assert a + b == a;
    } else {
      assert (a + b)[..|a + b| - 1] == a + b[..|b| - 1];
      CountEventsAppend(a, b[..|b| - 1], p);
    }
  }

  /** How often l occurs in a listener list. */
  function Occurrences(ls: seq<ListenerId>, l: ListenerId): nat {
    if ls == [] then 0 else Occurrences(ls[..|ls| - 1], l) + (if ls[|ls| - 1] == l then 1 else 0)
  }

  /** The sort callback a delivery makes on sort listener l, directly or through the bridge. */
  function SortCallback(d: Delivery, l: ListenerId): Option<SortEvent> {
    if d.ToSort? && d.sortListener == l then Some(d.sortEvent)
    else if d.ToScan? && d.scanListener == Bridged(l) then Bridge(d.scanEvent)
    else None
  }

  /** The sort events delivered to l that satisfy p. */
  function Received(trace: seq<Delivery>, l: ListenerId, p: SortEvent -> bool): nat {
    if trace == [] then 0
    else
      var c := SortCallback(trace[|trace| - 1], l);
      Received(trace[..|trace| - 1], l, p) + (if c.Some? && p(c.value) then 1 else 0)
  }

  lemma {:induction false} ReceivedAppend(a: seq<Delivery>, b: seq<Delivery>, l: ListenerId, p: SortEvent -> bool)
    ensures Received(a + b, l, p) == Received(a, l, p) + Received(b, l, p)
  {
    if b == [] {
      assert a + b == a;
    } else {
      assert (a + b)[..|a + b| - 1] == a + b[..|b| - 1];
      ReceivedAppend(a, b[..|b| - 1], l, p);
    }
  }

  /** A sort event fired to a listener list reaches l once per registration of l. */
  lemma {:induction false} ReceivedFireSort(ls: seq<ListenerId>, e: SortEvent, l: ListenerId, p: SortEvent -> bool)
    ensures Received(FireSort(ls, e), l, p) == if p(e) then Occurrences(ls, l) else 0
  {
    if ls != [] {
      var init := ls[..|ls| - 1];
      ReceivedFireSort(init, e, l, p);
      assert FireSort(ls, e)[..|ls| - 1] == FireSort(init, e);
    }
  }

  /** Each event fired to a listener list reaches l once per registration of l. */
  lemma {:induction false} ReceivedFireSortAll(ls: seq<ListenerId>, es: seq<SortEvent>, l: ListenerId, p: SortEvent -> bool)
    ensures Received(FireSortAll(ls, es), l, p) == Occurrences(ls, l) * CountEvents(es, p)
  {
    if es != [] {
      var init, e := es[..|es| - 1], es[|es| - 1];
      ReceivedFireSortAll(ls, init, l, p);
      ReceivedAppend(FireSortAll(ls, init), FireSort(ls, e), l, p);
      ReceivedFireSort(ls, e, l, p);
      var o, c := Occurrences(ls, l), CountEvents(init, p);
      assert es[..|es| - 1] == init;
      if p(e) {
        assert CountEvents(es, p) == c + 1;
        MulSucc(o, c);
      } else {
        assert CountEvents(es, p) == c;
      }
    }
  }

  lemma MulSucc(a: nat, b: nat)
    ensures a * (b + 1) == a * b + a
  {
  }

  predicate IsSortStarted(e: SortEvent) { e.SortStarted? }
  predicate IsSortCompleted(e: SortEvent) { e.SortCompleted? }

  /** The bridge never turns a scan event into a start or completion of the sort. */
  lemma {:induction false} ScanNeverStartsOrCompletesSort(ls: seq<ScanListener>, es: seq<ScanEvent>, l: ListenerId)
    ensures Received(FireScanAll(ls, es), l, IsSortStarted) == 0
    ensures Received(FireScanAll(ls, es), l, IsSortCompleted) == 0
  {
    if es != [] {
      ScanNeverStartsOrCompletesSort(ls, es[..|es| - 1], l);
      ReceivedAppend(FireScanAll(ls, es[..|es| - 1]), FireScan(ls, es[|es| - 1]), l, IsSortStarted);
      ReceivedAppend(FireScanAll(ls, es[..|es| - 1]), FireScan(ls, es[|es| - 1]), l, IsSortCompleted);
      FireScanNeverStartsOrCompletes(ls, es[|es| - 1], l);
    }
  }

  lemma {:induction false} FireScanNeverStartsOrCompletes(ls: seq<ScanListener>, e: ScanEvent, l: ListenerId)
    ensures Received(FireScan(ls, e), l, IsSortStarted) == 0
    ensures Received(FireScan(ls, e), l, IsSortCompleted) == 0
  {
    if ls != [] {
      var init := ls[..|ls| - 1];
      FireScanNeverStartsOrCompletes(init, e, l);
      var d := [ToScan(ls[|ls| - 1], e)];
      ReceivedAppend(FireScan(init, e), d, l, IsSortStarted);
      ReceivedAppend(FireScan(init, e), d, l, IsSortCompleted);
      assert d[..0] == [];
    }
  }

  /** The first position of x in s (List.indexOf). */
  function IndexOf<T(==)>(s: seq<T>, x: T): (i: nat)
    requires x in s
    ensures i < |s| && s[i] == x && x !in s[..i]
  {
    if s[0] == x then 0
    else
      assert x in s[1..] by {
        var k :| 0 <= k < |s| && s[k] == x;
        assert s[1..][k - 1] == x;
      }
      var i := IndexOf(s[1..], x);
      assert s[..i + 1] == [s[0]] + s[1..][..i];
      i + 1
  }

  /** List.remove(Object): the first occurrence goes and the others keep their order. */
  function RemoveFirst<T(==)>(s: seq<T>, x: T): seq<T> {
    if x in s then s[..IndexOf(s, x)] + s[IndexOf(s, x) + 1..] else s
  }

  /** Removing a listener drops exactly one registration of it, if it has one. */
  lemma RemoveFirstCounts(ls: seq<ListenerId>, x: ListenerId, l: ListenerId)
    ensures Occurrences(RemoveFirst(ls, x), l) == if l == x && x in ls then Occurrences(ls, l) - 1 else Occurrences(ls, l)
  {
    if x in ls {
      var i := IndexOf(ls, x);
      var pre, post := ls[..i], ls[i + 1..];
      SplitAt(ls, i);
      OccurrencesAround(pre, x, post, l);
      OccurrencesAppend(pre, post, l);
    }
  }

  lemma SplitAt<T>(s: seq<T>, i: nat)
    requires i < |s|
    ensures s == s[..i] + [s[i]] + s[i + 1..]
  {
  }

  lemma OccurrencesAround(pre: seq<ListenerId>, x: ListenerId, post: seq<ListenerId>, l: ListenerId)
    ensures Occurrences(pre + [x] + post, l) == Occurrences(pre, l) + (if x == l then 1 else 0) + Occurrences(post, l)
  {
    assert (pre + [x])[..|pre|] == pre;
    OccurrencesAppend(pre + [x], post, l);
  }

  lemma {:induction false} OccurrencesAppend(a: seq<ListenerId>, b: seq<ListenerId>, l: ListenerId)
    ensures Occurrences(a + b, l) == Occurrences(a, l) + Occurrences(b, l)
  {
    if b != [] {
      assert (a + b)[..|a + b| - 1] == a + b[..|b| - 1];
      OccurrencesAppend(a, b[..|b| - 1], l);
    } else {
      assert a + b == a;
    }
  }

  /** A listener is registered exactly when it occurs at least once. */
  lemma {:induction false} OccurrencesPositive(ls: seq<ListenerId>, l: ListenerId)
    ensures Occurrences(ls, l) > 0 <==> l in ls
  {
    if ls != [] {
      OccurrencesPositive(ls[..|ls| - 1], l);
      assert ls == ls[..|ls| - 1] + [ls[|ls| - 1]];
    }
  }

  /** The ghost record of every listener callback, in the order they happen. */
  class EventLog {
    ghost var trace: seq<Delivery>

    constructor ()
      ensures trace == []
    {
      trace := [];
    }
  }
}
