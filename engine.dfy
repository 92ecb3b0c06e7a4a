/**
 * AudioSorterEngine: the facade that validates the configuration, runs the scanner and then,
 * outside debug mode, the sorter, and fans the progress events out to its sort listeners.
 */
module Engine {
  import opened Wrappers
  import opened Disk
  import opened DirectoryReports
  import opened Totals
  import opened Events
  import opened Configuration
  import opened Scanner
  import opened Sorter

  /** What execute throws: the configuration check, the scan's own check or the sort's own check. */
  datatype EngineError = Invalid(config: ConfigError) | ScanFailed(scan: ScanError) | SortFailed(message: string)

  /** The bridges the engine registers with the scanner, one per sort listener, in the same order. */
  function Bridges(ls: seq<ListenerId>): (r: seq<ScanListener>)
    ensures |r| == |ls|
    ensures forall i :: 0 <= i < |ls| ==> r[i] == Bridged(ls[i])
  {
    if ls == [] then [] else Bridges(ls[..|ls| - 1]) + [Bridged(ls[|ls| - 1])]
  }

  /** The scan events of a visit from the input folder, between the start and the completion of the scan. */
  function ScanEvents(input: Path, v: VisitResult): seq<ScanEvent> {
    [ScanStarted(input)] + v.events + [ScanCompleted]
  }

  /**
   * The deliveries of an execute that got past both checks: the engine's start event, the scan
   * events through the bridges, the sorter's own events when the sort ran, the engine's completion.
   */
  function ExecuteTrace(ls: seq<ListenerId>, scanLs: seq<ScanListener>, sortLs: seq<ListenerId>, start: SortEvent,
                        scanEvents: seq<ScanEvent>, sortEvents: Option<seq<SortEvent>>): seq<Delivery>
  {
    FireSortAll(ls, [start]) + FireScanAll(scanLs, scanEvents)
      + (if sortEvents.Some? then FireSortAll(sortLs, sortEvents.value) else [])
      + FireSortAll(ls, [SortCompleted])
  }

  /** One event fired to a listener list reaches l once per registration of l, or not at all. */
  lemma ReceivedOne(ls: seq<ListenerId>, e: SortEvent, l: ListenerId, p: SortEvent -> bool)
    ensures Received(FireSortAll(ls, [e]), l, p) == if p(e) then Occurrences(ls, l) else 0
  {
    ReceivedFireSortAll(ls, [e], l, p);
    assert [e][..0] == [];
  }

  /**
   * Starts and completions an execute delivers to l: one of each per engine registration of l,
   * plus, when the sort ran, those the sorter fired once per sorter registration of l. The scan
   * phase adds none, whatever it fires.
   */
  lemma ExecuteStartsAndCompletions(ls: seq<ListenerId>, scanLs: seq<ScanListener>, sortLs: seq<ListenerId>, start: SortEvent,
                                    scanEvents: seq<ScanEvent>, sortEvents: Option<seq<SortEvent>>, l: ListenerId)
    requires start.SortStarted?
    ensures var t := ExecuteTrace(ls, scanLs, sortLs, start, scanEvents, sortEvents);
      && Received(t, l, IsSortStarted)
         == Occurrences(ls, l) + (if sortEvents.Some? then Occurrences(sortLs, l) * CountEvents(sortEvents.value, IsSortStarted) else 0)
      && Received(t, l, IsSortCompleted)
         == Occurrences(ls, l) + (if sortEvents.Some? then Occurrences(sortLs, l) * CountEvents(sortEvents.value, IsSortCompleted) else 0)
  {
    var a, b := FireSortAll(ls, [start]), FireScanAll(scanLs, scanEvents);
    var c := if sortEvents.Some? then FireSortAll(sortLs, sortEvents.value) else [];
    var d := FireSortAll(ls, [SortCompleted]);
    ReceivedAppend(a + b + c, d, l, IsSortStarted);
    ReceivedAppend(a + b, c, l, IsSortStarted);
    ReceivedAppend(a, b, l, IsSortStarted);
    ReceivedAppend(a + b + c, d, l, IsSortCompleted);
    ReceivedAppend(a + b, c, l, IsSortCompleted);
    ReceivedAppend(a, b, l, IsSortCompleted);
    ReceivedOne(ls, start, l, IsSortStarted);
    ReceivedOne(ls, start, l, IsSortCompleted);
    ReceivedOne(ls, SortCompleted, l, IsSortStarted);
    ReceivedOne(ls, SortCompleted, l, IsSortCompleted);
    ScanNeverStartsOrCompletesSort(scanLs, scanEvents, l);
    if sortEvents.Some? {
      ReceivedFireSortAll(sortLs, sortEvents.value, l, IsSortStarted);
      ReceivedFireSortAll(sortLs, sortEvents.value, l, IsSortCompleted);
    }
  }

  /**
   * Outside debug mode, with the output directory created and no listener removed, every listener
   * registered once hears two starts and two completions: the engine's and the sorter's. In debug
   * mode it hears one of each.
   */
  lemma EachListenerHearsBoth(ls: seq<ListenerId>, start: SortEvent, scanEvents: seq<ScanEvent>,
                              io: SortIO, output: Path, ds: seq<DirValue>, debugMode: bool, l: ListenerId)
    requires start.SortStarted? && Occurrences(ls, l) == 1
    ensures var sortEvents := if debugMode then None else Some(SortWhole(io, output, ds).events);
      var t := ExecuteTrace(ls, Bridges(ls), ls, start, scanEvents, sortEvents);
      var n := if !debugMode && io.makeDirs(output) then 2 else 1;
      Received(t, l, IsSortStarted) == n && Received(t, l, IsSortCompleted) == n
  {
    var sortEvents := if debugMode then None else Some(SortWhole(io, output, ds).events);
    ExecuteStartsAndCompletions(ls, Bridges(ls), ls, start, scanEvents, sortEvents, l);
    SortWholeShape(io, output, ds);
  }

  /** A listener whose engine registration was removed still hears the sorter, but not the engine. */
  lemma RemovedListenerHearsOnlySorter(ls: seq<ListenerId>, sortLs: seq<ListenerId>, start: SortEvent, scanEvents: seq<ScanEvent>,
                                       io: SortIO, output: Path, ds: seq<DirValue>, l: ListenerId)
    requires start.SortStarted? && l !in ls && Occurrences(sortLs, l) == 1 && io.makeDirs(output)
    ensures var t := ExecuteTrace(ls, Bridges(sortLs), sortLs, start, scanEvents, Some(SortWhole(io, output, ds).events));
      Received(t, l, IsSortStarted) == 1 && Received(t, l, IsSortCompleted) == 1
  {
    ExecuteStartsAndCompletions(ls, Bridges(sortLs), sortLs, start, scanEvents, Some(SortWhole(io, output, ds).events), l);
    SortWholeShape(io, output, ds);
    OccurrencesPositive(ls, l);
  }

  /**
   * Every directory report: the frame of execute, which fills in the reports its scan has just
   * created as well as those the scanner's totals held before.
   */
  ghost predicate AnyReport(d: DirectoryReport) {
    true
  }

  class AudioSorterEngine {
    const config: SortConfiguration
    const scanner: MusicScanner
    const sorter: MusicSorter
    var listeners: seq<ListenerId>

    /**
     * The registrations stay aligned: the scanner holds one bridge per sorter listener, in order,
     * and the engine's own list has lost registrations (removeListener) but never gained any the
     * sorter lacks.
     */
    ghost predicate Valid()
      reads this, scanner, sorter, scanner.runTotals
    {
      && scanner.listeners == Bridges(sorter.listeners)
      && (forall l :: Occurrences(listeners, l) <= Occurrences(sorter.listeners, l))
      && scanner.runTotals.Valid()
    }

    /** The scanner and the sorter each read the configuration once, here. */
    constructor (config: SortConfiguration)
      ensures this.config == config && listeners == [] && fresh(scanner) && fresh(sorter) && fresh(scanner.runTotals)
      ensures scanner.inputDirectory == config.inputDirectory && scanner.audioExtensions == config.audioExtensions
      ensures scanner.defaultArtist == config.defaultArtist && scanner.defaultAlbum == config.defaultAlbum
      ensures scanner.defaultYear == config.defaultYear && scanner.Initial()
      ensures sorter.outputDirectory == config.outputDirectory && sorter.listeners == [] && sorter.State() == SortState(false, 0)
      ensures Valid()
    {
      this.config := config;
      scanner := new MusicScanner.FromConfig(config);
      sorter := new MusicSorter.FromConfig(config);
      listeners := [];
    }

    /** addListener: the engine list, a bridge on the scanner and the listener itself on the sorter. */
    method AddListener(l: ListenerId)
      requires Valid()
      modifies this, scanner, sorter
      ensures Valid()
      ensures listeners == old(listeners) + [l]
      ensures scanner.listeners == old(scanner.listeners) + [Bridged(l)]
      ensures sorter.listeners == old(sorter.listeners) + [l]
      ensures scanner.State() == old(scanner.State()) && sorter.State() == old(sorter.State())
    {
      listeners := listeners + [l];
      scanner.AddListener(Bridged(l));
      sorter.AddListener(l);
      assert Bridges(sorter.listeners) == old(Bridges(sorter.listeners)) + [Bridged(l)];
      forall k ensures Occurrences(listeners, k) <= Occurrences(sorter.listeners, k) {
        OccurrencesAppend(old(listeners), [l], k);
        OccurrencesAppend(old(sorter.listeners), [l], k);
        assert [l][..0] == [];
      }
    }

    /** removeListener: only the engine's own list loses the registration. */
    method RemoveListener(l: ListenerId)
      requires Valid()
      modifies this
      ensures Valid()
      ensures listeners == RemoveFirst(old(listeners), l)
      ensures scanner.listeners == old(scanner.listeners) && sorter.listeners == old(sorter.listeners)
    {
      listeners := RemoveFirst(listeners, l);
      forall k ensures Occurrences(listeners, k) <= Occurrences(sorter.listeners, k) {
        RemoveFirstCounts(old(listeners), l, k);
      }
    }

    /** cancel: both collaborators' flags. */
    method Cancel()
      modifies scanner, sorter
      ensures IsCancelled() && scanner.IsCancelled() && sorter.IsCancelled()
      ensures scanner.listeners == old(scanner.listeners) && sorter.listeners == old(sorter.listeners)
      ensures scanner.processedDirs == old(scanner.processedDirs) && sorter.processedFiles == old(sorter.processedFiles)
    {
      scanner.Cancel();
      sorter.Cancel();
    }

    /** isCancelled: either flag. */
    predicate IsCancelled()
      reads scanner, sorter
    {
      scanner.IsCancelled() || sorter.IsCancelled()
    }

    /** One of the engine's own fire loops: every listener, in registration order. */
    method FireAll(e: SortEvent, log: EventLog)
      modifies log
      ensures log.trace == old(log.trace) + FireSortAll(listeners, [e])
    {
      var i := 0;
      while i < |listeners|
        invariant 0 <= i <= |listeners|
        invariant log.trace == old(log.trace) + FireSort(listeners[..i], e)
      {
        assert listeners[..i + 1][..i] == listeners[..i];
        log.trace := log.trace + [ToSort(listeners[i], e)];
        i := i + 1;
      }
      assert listeners[..i] == listeners;
      FireSortAllSnoc(listeners, [], e);
      assert [] + [e] == [e];
    }

    /** A fire loop of the engine; the reports, the scanner and the sorter are left as they were. */
    method Announce(e: SortEvent, log: EventLog)
      modifies log
      ensures log.trace == old(log.trace) + FireSortAll(listeners, [e])
      ensures scanner.runTotals.Snapshot() == old(scanner.runTotals.Snapshot())
    {
      FireAll(e, log);
      DirValuesUnchanged(scanner.runTotals.directoryReports);
    }

    /**
     * execute: the configuration is checked first, before any event; then the engine's start event,
     * the scan, the sort unless in debug mode, and the engine's completion event. The result is the
     * scanner's own RunTotals, sorted in place. The scanner and the sorter keep the settings they
     * read at construction, so their own checks can still fail after the configuration's passed.
     */
    method Execute(volume: Volume, reader: TagReader, cancelAt: Option<nat>, ghost rules: Rules,
                   startTime: int, endTime: int, io: SortIO, log: EventLog)
      returns (r: Result<RunTotals, EngineError>)
      requires Valid() && Follows(rules, scanner.Env(reader, cancelAt))
      modifies scanner, scanner.runTotals, sorter, log, iset d: DirectoryReport | AnyReport(d)
      ensures Valid() && listeners == old(listeners)
      ensures config.Validate(volume).Fail? ==>
        && r == Err(Invalid(config.Validate(volume).error)) && log.trace == old(log.trace)
        && scanner.State() == old(scanner.State()) && sorter.State() == old(sorter.State())
      ensures config.Validate(volume).Pass? ==>
        RunOutcome(volume, rules, io, SortStarted(config.inputDirectory, config.outputDirectory, config.debugMode),
                   old(scanner.runTotals.Snapshot()), old(scanner.State()), old(log.trace), r, log.trace)
    {
      var checked := config.Validate(volume);
      if checked.Fail? {
        return Err(Invalid(checked.error));
      }
      var start := SortStarted(config.inputDirectory, config.outputDirectory, config.debugMode);
      r := Run(volume, reader, cancelAt, rules, startTime, endTime, io, log, start);
    }

    /**
     * What execute delivers once the configuration has passed, given the reports, scan state and
     * trace it started from: which error the scanner or the sorter reports, or the reports and state
     * after scanning and sorting, and every delivery in order.
     */
    ghost predicate RunOutcome(volume: Volume, rules: Rules, io: SortIO, start: SortEvent, snap0: seq<DirValue>,
                               st0: ScanState, trace0: seq<Delivery>, r: Result<RunTotals, EngineError>, trace: seq<Delivery>)
      reads this, config, scanner, scanner.runTotals, sorter, Frame(scanner.runTotals.directoryReports)
    {
      && (scanner.inputDirectory.None? ==>
            r == Err(ScanFailed(NoInputDirectory)) && trace == trace0 + FireSortAll(listeners, [start]))
      && (scanner.inputDirectory.Some? && !IsDirectory(volume, scanner.inputDirectory.value) ==>
            && r == Err(ScanFailed(NotADirectory(scanner.inputDirectory.value)))
            && trace == trace0 + FireSortAll(listeners, [start]))
      && (scanner.inputDirectory.Some? && IsDirectory(volume, scanner.inputDirectory.value) ==>
            var input := scanner.inputDirectory.value;
            var v := Visit(rules, volume(input).value, input, 0, ScanState(false, 0, st0.totalFiles, st0.nonAudioFiles));
            && scanner.State() == v.state
            && Concluded(io, start, input, v, snap0 + Reports(rules, v.visited), trace0, r, trace))
    }

    /** The outcome of execute once the scan of input went through the visit v and left the reports scanned. */
    ghost predicate Concluded(io: SortIO, start: SortEvent, input: Path, v: VisitResult, scanned: seq<DirValue>,
                              trace0: seq<Delivery>, r: Result<RunTotals, EngineError>, trace: seq<Delivery>)
      reads this, config, scanner, scanner.runTotals, sorter, Frame(scanner.runTotals.directoryReports)
    {
      && (config.debugMode ==>
            && r == Result.Ok(scanner.runTotals) && scanner.runTotals.Snapshot() == scanned
            && trace == trace0 + ExecuteTrace(listeners, scanner.listeners, sorter.listeners, start, ScanEvents(input, v), None))
      && (!config.debugMode && sorter.outputDirectory.None? ==>
            && r == Err(SortFailed(OutputMissing)) && scanner.runTotals.Snapshot() == scanned
            && trace == trace0 + FireSortAll(listeners, [start]) + FireScanAll(scanner.listeners, ScanEvents(input, v)))
      && (!config.debugMode && sorter.outputDirectory.Some? ==>
            var w := SortWhole(io, sorter.outputDirectory.value, scanned);
            && r == Result.Ok(scanner.runTotals) && scanner.runTotals.Snapshot() == w.reports && sorter.State() == w.state
            && trace == trace0 + ExecuteTrace(listeners, scanner.listeners, sorter.listeners, start, ScanEvents(input, v), Some(w.events)))
    }

    /** execute after the configuration passed: start event, scan, sort unless in debug mode, completion. */
    method Run(volume: Volume, reader: TagReader, cancelAt: Option<nat>, ghost rules: Rules,
               startTime: int, endTime: int, io: SortIO, log: EventLog, start: SortEvent)
      returns (r: Result<RunTotals, EngineError>)
      requires Valid() && Follows(rules, scanner.Env(reader, cancelAt))
      modifies scanner, scanner.runTotals, sorter, log, iset d: DirectoryReport | AnyReport(d)
      ensures Valid() && listeners == old(listeners)
      ensures RunOutcome(volume, rules, io, start, old(scanner.runTotals.Snapshot()), old(scanner.State()), old(log.trace), r, log.trace)
    {
      ghost var snap0 := scanner.runTotals.Snapshot();
      Announce(start, log);
      var scanned;
      ghost var v;
      scanned, v := ScanPhase(volume, reader, cancelAt, rules, startTime, endTime, log);
      if scanned.Err? {
        return Err(ScanFailed(scanned.error));
      }
      r := Conclude(scanned.value, io, log, start, scanner.inputDirectory.value, v, snap0 + Reports(rules, v.visited), old(log.trace));
    }

    /** execute after a scan of input that went through the visit v: Finish, and the whole trace put together. */
    method Conclude(results: RunTotals, io: SortIO, log: EventLog, ghost start: SortEvent, ghost input: Path,
                    ghost v: VisitResult, ghost scanned: seq<DirValue>, ghost trace0: seq<Delivery>)
      returns (r: Result<RunTotals, EngineError>)
      requires Valid() && results == scanner.runTotals && results.Snapshot() == scanned
      requires log.trace == trace0 + FireSortAll(listeners, [start]) + FireScanAll(scanner.listeners, ScanEvents(input, v))
      modifies sorter, log, iset d: DirectoryReport | AnyReport(d)
      ensures Valid() && listeners == old(listeners) && scanner.State() == old(scanner.State())
      ensures Concluded(io, start, input, v, scanned, trace0, r, log.trace)
    {
      r := Finish(results, scanned, io, log);
      ghost var a, b := FireSortAll(listeners, [start]), FireScanAll(scanner.listeners, ScanEvents(input, v));
      ghost var d := FireSortAll(listeners, [SortCompleted]);
      if config.debugMode {
        ConcatFour(trace0, a, b, [], d);
      } else if sorter.outputDirectory.Some? {
        ghost var w := SortWhole(io, sorter.outputDirectory.value, scanned);
        ConcatFour(trace0, a, b, FireSortAll(sorter.listeners, w.events), d);
      }
    }

    /** The rest of execute once the scan returned its totals: the sort unless in debug mode, then the engine's completion. */
    method Finish(results: RunTotals, ghost scanned: seq<DirValue>, io: SortIO, log: EventLog)
      returns (r: Result<RunTotals, EngineError>)
      requires Valid() && results == scanner.runTotals && results.Snapshot() == scanned
      modifies sorter, log, iset d: DirectoryReport | AnyReport(d)
      ensures Valid() && listeners == old(listeners) && sorter.listeners == old(sorter.listeners)
      ensures scanner.listeners == old(scanner.listeners) && scanner.State() == old(scanner.State())
      ensures config.debugMode ==>
        && r == Result.Ok(results) && results.Snapshot() == scanned && sorter.State() == old(sorter.State())
        && log.trace == old(log.trace) + FireSortAll(listeners, [SortCompleted])
      ensures !config.debugMode && sorter.outputDirectory.None? ==>
        && r == Err(SortFailed(OutputMissing)) && results.Snapshot() == scanned && log.trace == old(log.trace)
      ensures !config.debugMode && sorter.outputDirectory.Some? ==>
        var w := SortWhole(io, sorter.outputDirectory.value, scanned);
        && r == Result.Ok(results) && results.Snapshot() == w.reports && sorter.State() == w.state
        && log.trace == old(log.trace) + FireSortAll(sorter.listeners, w.events) + FireSortAll(listeners, [SortCompleted])
    {
      if !config.debugMode {
        var sorted := SortPhase(results, io, log);
        if sorted.Err? {
          return Err(SortFailed(sorted.error));
        }
      }
      Announce(SortCompleted, log);
      return Result.Ok(results);
    }

    /** The scan phase of execute: what scan adds lies behind the reports the scanner's totals already held. */
    method ScanPhase(volume: Volume, reader: TagReader, cancelAt: Option<nat>, ghost rules: Rules,
                     startTime: int, endTime: int, log: EventLog)
      returns (r: Result<RunTotals, ScanError>, ghost v: VisitResult)
      requires Valid() && Follows(rules, scanner.Env(reader, cancelAt))
      modifies scanner, scanner.runTotals, log
      ensures Valid() && listeners == old(listeners) && scanner.listeners == old(scanner.listeners)
      ensures sorter.listeners == old(sorter.listeners) && sorter.State() == old(sorter.State())
      ensures scanner.inputDirectory.None? ==> r == Err(NoInputDirectory)
      ensures scanner.inputDirectory.Some? && !IsDirectory(volume, scanner.inputDirectory.value) ==>
        r == Err(NotADirectory(scanner.inputDirectory.value))
      ensures r.Err? ==> log.trace == old(log.trace)
      ensures scanner.inputDirectory.Some? && IsDirectory(volume, scanner.inputDirectory.value) ==>
        var input := scanner.inputDirectory.value;
        && v == Visit(rules, volume(input).value, input, 0,
                      ScanState(false, 0, old(scanner.runTotals.totalFilesCount), old(scanner.runTotals.nonAudioFilesCount)))
        && r == Result.Ok(scanner.runTotals) && scanner.State() == v.state
        && scanner.runTotals.Snapshot() == old(scanner.runTotals.Snapshot()) + Reports(rules, v.visited)
        && log.trace == old(log.trace) + FireScanAll(scanner.listeners, ScanEvents(input, v))
    {
      var rs0 := scanner.runTotals.directoryReports;
      ghost var snap0 := DirValues(rs0);
      ghost var added;
      r, added := scanner.Scan(volume, reader, cancelAt, rules, startTime, endTime, log);
      v := VisitResult(scanner.State(), [], []);
      if r.Ok? {
        var input := scanner.inputDirectory.value;
        v := Visit(rules, volume(input).value, input, 0,
                   ScanState(false, 0, old(scanner.runTotals.totalFilesCount), old(scanner.runTotals.nonAudioFilesCount)));
        DirValuesUnchanged(rs0);
        DirValuesAppend(rs0, added);
        HeadsAreValues(added);
      }
    }

    /** The sort phase of execute, on the totals the scan returned. */
    method SortPhase(totals: RunTotals, io: SortIO, log: EventLog) returns (r: Result<RunTotals, string>)
      requires Valid() && totals == scanner.runTotals
      modifies sorter, log, totals.directoryReports
      ensures Valid() && listeners == old(listeners) && sorter.listeners == old(sorter.listeners)
      ensures scanner.listeners == old(scanner.listeners) && scanner.State() == old(scanner.State())
      ensures sorter.outputDirectory.None? ==>
        && r == Err(OutputMissing) && log.trace == old(log.trace) && totals.Snapshot() == old(totals.Snapshot())
      ensures sorter.outputDirectory.Some? ==>
        var w := SortWhole(io, sorter.outputDirectory.value, old(totals.Snapshot()));
        && r == Result.Ok(totals) && totals.Snapshot() == w.reports && sorter.State() == w.state
        && log.trace == old(log.trace) + FireSortAll(sorter.listeners, w.events)
    {
      r := sorter.Sort(totals, io, log);
    }
  }
}
