# AudioFileSorter in Dafny

A model of the scan-and-sort engine of AudioFileSorter and of the small pure helpers around it.
AudioFileSorter reorganises a music collection. It walks an input folder depth-first and writes one
directory report per folder. Each report records the audio files found, the first tag that reads and
the format of the audio. The sorter then copies every folder with audio files to
`output/<artist>/[<year>] <album> - [<format> ...]` and records one file report per copied file.
An artist that sanitizes to the empty name adds no folder level: `Path.resolve("")` is the path itself,
so the album folder then sits directly under `output`.
A cover-art tool extracts embedded artwork and searches MusicBrainz for missing covers.
HTML reports summarise both runs.

The project has one Dafny module per source class, plus four shared modules:

- `Wrappers`: `Option`, `Result` and `Outcome`.
- `Text`: the `java.lang.String` operations the source calls, restricted to ASCII.
- `Disk`: folders and files as a tree of `Node`s; a `Path` is a sequence of names.
- `Events`: the listener callbacks as one event datatype, and the delivery log.

The report entities are classes whose fields the setters and the engine update in place:

- `FileReports.FileReport`;
- `DirectoryReports.DirectoryReport`;
- `Totals.RunTotals`;
- `Configuration.SortConfiguration`;
- `CoverArtReports.CoverArtReport`;
- the engine, the scanner, the sorter, the extractor and the fetcher.

Each report class has a value snapshot: `FileValue`, or `DirValue` for a directory report. The
run-wide statistics and the HTML report's lists are functions of these snapshots.

External inputs are parameters:

- The tag library is a `TagReader` oracle from a path to a read outcome.
- `listFiles`, `createDirectories` and `Files.copy` are given by a `Volume` and a `SortIO` record. A
  `SortIO` fixes which directories can be created and which copies succeed.
- A cancel from another thread is a schedule. It lands at the cancel check once a given number of
  directories (scanner) or files (sorter) have been processed.
- Events go to a ghost `EventLog` as (listener, event) deliveries.

## Model

| member | source | states |
|---|---|---|
| FileReports.NewFile | src/main/java/io/github/warnotte/audiosorter/model/FileReport.java:25-32 | a new report is PENDING with only its source set; its size is the file's size, or 0 when the size cannot be read |
| FileReports.WithCopied | src/main/java/io/github/warnotte/audiosorter/model/FileReport.java:74-78 | markCopied sets destination, COPIED and duration; source, size and error message are kept |
| FileReports.WithFailed | src/main/java/io/github/warnotte/audiosorter/model/FileReport.java:80-83 | markFailed sets COPY_FAILED and the message; destination and duration are kept |
| FileReports.LastMarkWins | src/main/java/io/github/warnotte/audiosorter/model/FileReport.java:74-83 | marks have no guard: the last mark decides the status, the other mark's fields survive, and each mark is idempotent |
| FileReports.FileReport.constructor | src/main/java/io/github/warnotte/audiosorter/model/FileReport.java:25-32 | the new object's value is NewFile |
| FileReports.FileReport.SetDestination | src/main/java/io/github/warnotte/audiosorter/model/FileReport.java:42-44 | changes the destination only |
| FileReports.FileReport.SetStatus | src/main/java/io/github/warnotte/audiosorter/model/FileReport.java:50-52 | changes the status only |
| FileReports.FileReport.SetErrorMessage | src/main/java/io/github/warnotte/audiosorter/model/FileReport.java:58-60 | changes the error message only |
| FileReports.FileReport.SetCopyDuration | src/main/java/io/github/warnotte/audiosorter/model/FileReport.java:70-72 | changes the copy duration only |
| FileReports.FileReport.MarkCopied | src/main/java/io/github/warnotte/audiosorter/model/FileReport.java:74-78 | the new value is WithCopied of the old one |
| FileReports.FileReport.MarkFailed | src/main/java/io/github/warnotte/audiosorter/model/FileReport.java:80-83 | the new value is WithFailed of the old one |
| DirectoryReports.CountStatus | src/main/java/io/github/warnotte/audiosorter/model/DirectoryReport.java:172-182 | the stream count of files with a status is at most the number of files |
| DirectoryReports.CountStatusPositive | src/main/java/io/github/warnotte/audiosorter/model/DirectoryReport.java:172-182 | a count is positive exactly when some file has that status |
| DirectoryReports.CountTwoStatuses | src/main/java/io/github/warnotte/audiosorter/model/DirectoryReport.java:172-182 | two different statuses never count the same file |
| DirectoryReports.CountStatusAppend | src/main/java/io/github/warnotte/audiosorter/model/DirectoryReport.java:59-61 | an appended file adds one to the count of its own status only |
| DirectoryReports.CopiedAndErrorsAtMostFiles | src/main/java/io/github/warnotte/audiosorter/model/DirectoryReport.java:172-182 | copied count plus error count is at most the number of file reports |
| DirectoryReports.FilesCount | src/main/java/io/github/warnotte/audiosorter/model/DirectoryReport.java:167-170 | getFilesCount is the scanned count when positive, else the number of file reports |
| DirectoryReports.Status | src/main/java/io/github/warnotte/audiosorter/model/DirectoryReport.java:184-196 | EMPTY iff empty; NO_TAG iff not empty and no tag; COPY_ERROR iff a tagged, non-empty folder has a failed file; OK otherwise; never SKIPPED |
| DirectoryReports.NewDirIsNoTag | src/main/java/io/github/warnotte/audiosorter/model/DirectoryReport.java:42-45 | a new report reads as NO_TAG with files count 0 |
| DirectoryReports.DirectoryReport.constructor | src/main/java/io/github/warnotte/audiosorter/model/DirectoryReport.java:42-45 | the new report's value is NewDir(path, depth) without file reports |
| DirectoryReports.DirectoryReport.AddFile | src/main/java/io/github/warnotte/audiosorter/model/DirectoryReport.java:59-61 | appends one file report; earlier ones and every other field are kept |
| DirectoryReports.DirectoryReport.SetTagFound | src/main/java/io/github/warnotte/audiosorter/model/DirectoryReport.java:67 | changes the tag flag only |
| DirectoryReports.DirectoryReport.SetEmpty | src/main/java/io/github/warnotte/audiosorter/model/DirectoryReport.java:75 | changes the empty flag only |
| DirectoryReports.DirectoryReport.SetHasImageFile | src/main/java/io/github/warnotte/audiosorter/model/DirectoryReport.java:83 | changes the image flag only |
| DirectoryReports.DirectoryReport.SetCoverImagePath | src/main/java/io/github/warnotte/audiosorter/model/DirectoryReport.java:91 | changes the cover path only |
| DirectoryReports.DirectoryReport.SetScannedFilesCount | src/main/java/io/github/warnotte/audiosorter/model/DirectoryReport.java:99 | changes the scanned count only |
| DirectoryReports.DirectoryReport.SetArtist | src/main/java/io/github/warnotte/audiosorter/model/DirectoryReport.java:107 | changes the artist only |
| DirectoryReports.DirectoryReport.SetAlbum | src/main/java/io/github/warnotte/audiosorter/model/DirectoryReport.java:115 | changes the album only |
| DirectoryReports.DirectoryReport.SetYear | src/main/java/io/github/warnotte/audiosorter/model/DirectoryReport.java:123 | changes the year only |
| DirectoryReports.DirectoryReport.SetFormat | src/main/java/io/github/warnotte/audiosorter/model/DirectoryReport.java:131 | changes the format only |
| DirectoryReports.DirectoryReport.SetBitrate | src/main/java/io/github/warnotte/audiosorter/model/DirectoryReport.java:139 | changes the bitrate only |
| DirectoryReports.DirectoryReport.SetSampleRate | src/main/java/io/github/warnotte/audiosorter/model/DirectoryReport.java:147 | changes the sample rate only |
| DirectoryReports.DirectoryReport.SetVariableBitrate | src/main/java/io/github/warnotte/audiosorter/model/DirectoryReport.java:155 | changes the VBR flag only |
| DirectoryReports.DirectoryReport.SetDestinationPath | src/main/java/io/github/warnotte/audiosorter/model/DirectoryReport.java:163 | changes the destination only |
| DirectoryReports.DirectoryReport.GetFilesCount | src/main/java/io/github/warnotte/audiosorter/model/DirectoryReport.java:167-170 | the scanned count when positive, else the number of file reports |
| DirectoryReports.DirectoryReport.GetCopiedCount | src/main/java/io/github/warnotte/audiosorter/model/DirectoryReport.java:172-176 | with the error count, at most the number of file reports |
| DirectoryReports.DirectoryReport.GetErrorCount | src/main/java/io/github/warnotte/audiosorter/model/DirectoryReport.java:178-182 | at most the number of file reports |
| DirectoryReports.DirectoryReport.GetStatus | src/main/java/io/github/warnotte/audiosorter/model/DirectoryReport.java:184-196 | EMPTY iff empty; NO_TAG iff not empty and untagged; COPY_ERROR iff tagged, not empty and the error count is positive; OK otherwise; never SKIPPED |
| DirectoryReports.DirectoryReport.AddAudioFilePath | audiosorter-core/src/main/java/io/github/warnotte/audiosorter/core/MusicScanner.java:157-162 | appends one audio path and changes nothing else |
| Totals.CountDirs | audiosorter-core/src/main/java/io/github/warnotte/audiosorter/model/RunTotals.java:55-77 | a status count is at most the number of reports |
| Totals.CountDirsZero | audiosorter-core/src/main/java/io/github/warnotte/audiosorter/model/RunTotals.java:55-77 | a status count is zero exactly when no report has that status |
| Totals.OkDirs | audiosorter-core/src/main/java/io/github/warnotte/audiosorter/model/RunTotals.java:55-59 | getOkDirs is at most the report count, and zero iff no report is OK |
| Totals.NoTagDirs | audiosorter-core/src/main/java/io/github/warnotte/audiosorter/model/RunTotals.java:61-65 | getNoTagDirs is at most the report count, and zero iff no report is NO_TAG |
| Totals.CopyErrorDirs | audiosorter-core/src/main/java/io/github/warnotte/audiosorter/model/RunTotals.java:67-71 | getCopyErrorDirs is at most the report count, and zero iff no report is COPY_ERROR |
| Totals.EmptyDirs | audiosorter-core/src/main/java/io/github/warnotte/audiosorter/model/RunTotals.java:73-77 | getEmptyDirs is at most the report count, and zero iff no report is EMPTY |
| Totals.StatusCountsSum | audiosorter-core/src/main/java/io/github/warnotte/audiosorter/model/RunTotals.java:51-77 | ok + noTag + copyError + empty directories = directoriesTotal |
| Totals.FilesWithStatusMembers | audiosorter-core/src/main/java/io/github/warnotte/audiosorter/model/RunTotals.java:111-116 | the filter keeps exactly the files with the status |
| Totals.FilesWithStatusCount | audiosorter-core/src/main/java/io/github/warnotte/audiosorter/model/RunTotals.java:91-95 | the filtered list is as long as the status count |
| Totals.FailedFiles | audiosorter-core/src/main/java/io/github/warnotte/audiosorter/model/RunTotals.java:111-116 | getFailedFiles holds exactly the COPY_FAILED file reports of the run |
| Totals.CopiedFilesCount | audiosorter-core/src/main/java/io/github/warnotte/audiosorter/model/RunTotals.java:85-89 | the COPIED file reports of the run number getFilesCopied |
| Totals.CopiedAndFailedAtMostAll | audiosorter-core/src/main/java/io/github/warnotte/audiosorter/model/RunTotals.java:85-95 | getFilesCopied plus getFilesFailed is at most the number of file reports |
| Totals.FilesSeenWithoutScans | audiosorter-core/src/main/java/io/github/warnotte/audiosorter/model/RunTotals.java:79-83 | with no scanned count set, getFilesSeen is the number of file reports |
| Totals.FilesSeenAppendScanned | audiosorter-core/src/main/java/io/github/warnotte/audiosorter/model/RunTotals.java:79-83 | a directory with a positive scanned count adds that count, whatever its file reports |
| Totals.TotalBytesCopied | audiosorter-core/src/main/java/io/github/warnotte/audiosorter/model/RunTotals.java:97-103 | the bytes copied are at most the bytes of all file reports |
| Totals.FailedFilesCount | audiosorter-core/src/main/java/io/github/warnotte/audiosorter/model/RunTotals.java:91-95 | getFailedFiles is as long as filesFailed, the sum of the error counts |
| Totals.CopiedBytesAtMostAll | audiosorter-core/src/main/java/io/github/warnotte/audiosorter/model/RunTotals.java:97-103 | the bytes of COPIED file reports never exceed the bytes of all file reports |
| Totals.TotalBytesCopiedAppend | audiosorter-core/src/main/java/io/github/warnotte/audiosorter/model/RunTotals.java:97-103 | a new directory adds exactly the bytes of its COPIED file reports |
| Totals.DirectoriesWithoutTags | audiosorter-core/src/main/java/io/github/warnotte/audiosorter/model/RunTotals.java:105-109 | the list holds the NO_TAG reports and nothing else |
| Totals.DirectoriesWithoutTagsCount | audiosorter-core/src/main/java/io/github/warnotte/audiosorter/model/RunTotals.java:55-59 | that list is as long as getNoTagDirs |
| Totals.TotalDuration | audiosorter-core/src/main/java/io/github/warnotte/audiosorter/model/RunTotals.java:44-49 | end minus start, or zero when either is unset |
| Totals.DistinctSnoc | audiosorter-core/src/main/java/io/github/warnotte/audiosorter/model/RunTotals.java:20-22 | appending keeps the report list duplicate-free exactly when the report is new |
| Totals.RunTotals.constructor | audiosorter-core/src/main/java/io/github/warnotte/audiosorter/model/RunTotals.java:14-18 | no reports, no times, both counters 0 |
| Totals.RunTotals.AddDirectoryReport | audiosorter-core/src/main/java/io/github/warnotte/audiosorter/model/RunTotals.java:20-22 | appends in insertion order; nothing else changes |
| Totals.RunTotals.SetStartTime | audiosorter-core/src/main/java/io/github/warnotte/audiosorter/model/RunTotals.java:28-30 | changes the start time only |
| Totals.RunTotals.SetEndTime | audiosorter-core/src/main/java/io/github/warnotte/audiosorter/model/RunTotals.java:32-34 | changes the end time only |
| Totals.RunTotals.GetTotalDuration | audiosorter-core/src/main/java/io/github/warnotte/audiosorter/model/RunTotals.java:44-49 | zero until both times are set, then end minus start |
| Totals.RunTotals.GetDirectoriesTotal | audiosorter-core/src/main/java/io/github/warnotte/audiosorter/model/RunTotals.java:51-53 | the OK, NO_TAG, COPY_ERROR and EMPTY counts of the reports add up to it |
| Totals.RunTotals.AddFileCounts | audiosorter-core/src/main/java/io/github/warnotte/audiosorter/model/RunTotals.java:118-121 | adds to the two counters and changes nothing else |
| Configuration.IsAudioNameIff | audiosorter-core/src/main/java/io/github/warnotte/audiosorter/core/SortConfiguration.java:107-110 | isAudioFile holds iff some extension, with a dot before it, ends the lowered name |
| Configuration.AudioNameIgnoresCase | audiosorter-core/src/main/java/io/github/warnotte/audiosorter/core/SortConfiguration.java:107-110 | the test ignores the case of the name |
| Configuration.NoExtensionMatches | audiosorter-core/src/main/java/io/github/warnotte/audiosorter/core/SortConfiguration.java:107-110 | a name whose last character ends no extension is not audio |
| Configuration.UpperCaseExtensionNeverMatches | audiosorter-core/src/main/java/io/github/warnotte/audiosorter/core/SortConfiguration.java:107-110 | an extension with an upper-case letter never matches, since only the name is lowered |
| Configuration.DefaultAudioNames | audiosorter-core/src/main/java/io/github/warnotte/audiosorter/core/SortConfiguration.java:13-25 | with the seven default extensions, "01 Intro.MP3" and "track.Flac" are audio |
| Configuration.DefaultOtherNames | audiosorter-core/src/main/java/io/github/warnotte/audiosorter/core/SortConfiguration.java:13-25 | "notes.TXT" and a bare "mp3" are not audio |
| Configuration.ValidateSettings | audiosorter-core/src/main/java/io/github/warnotte/audiosorter/core/SortConfiguration.java:116-126 | a null input fails first, then a null output, then an input that is not a directory; it passes otherwise |
| Configuration.SortConfiguration.constructor | audiosorter-core/src/main/java/io/github/warnotte/audiosorter/core/SortConfiguration.java:11-28 | debug off, the seven extensions, the three UNKNOWN defaults, no directories |
| Configuration.SortConfiguration.WithDirectories | audiosorter-core/src/main/java/io/github/warnotte/audiosorter/core/SortConfiguration.java:30-33 | only the two directories differ from the defaults |
| Configuration.SortConfiguration.IsAudioFile | audiosorter-core/src/main/java/io/github/warnotte/audiosorter/core/SortConfiguration.java:107-110 | some configured extension, after a dot, ends the lowered name |
| Configuration.SortConfiguration.Validate | audiosorter-core/src/main/java/io/github/warnotte/audiosorter/core/SortConfiguration.java:116-126 | fails on a missing input, then a missing output, then an input that is not a directory; passes otherwise |
| Configuration.SortConfiguration.SetInputDirectory | audiosorter-core/src/main/java/io/github/warnotte/audiosorter/core/SortConfiguration.java:39-41 | changes the input directory only |
| Configuration.SortConfiguration.SetOutputDirectory | audiosorter-core/src/main/java/io/github/warnotte/audiosorter/core/SortConfiguration.java:47-49 | changes the output directory only |
| Configuration.SortConfiguration.SetDebugMode | audiosorter-core/src/main/java/io/github/warnotte/audiosorter/core/SortConfiguration.java:55-57 | changes debug mode only |
| Configuration.SortConfiguration.SetArtistFolderPattern | audiosorter-core/src/main/java/io/github/warnotte/audiosorter/core/SortConfiguration.java:63-65 | changes that pattern only |
| Configuration.SortConfiguration.SetAlbumFolderPattern | audiosorter-core/src/main/java/io/github/warnotte/audiosorter/core/SortConfiguration.java:71-73 | changes that pattern only |
| Configuration.SortConfiguration.SetAudioExtensions | audiosorter-core/src/main/java/io/github/warnotte/audiosorter/core/SortConfiguration.java:79-81 | changes the extensions only |
| Configuration.SortConfiguration.SetDefaultArtist | audiosorter-core/src/main/java/io/github/warnotte/audiosorter/core/SortConfiguration.java:87-89 | changes the default artist only |
| Configuration.SortConfiguration.SetDefaultAlbum | audiosorter-core/src/main/java/io/github/warnotte/audiosorter/core/SortConfiguration.java:95-97 | changes the default album only |
| Configuration.SortConfiguration.SetDefaultYear | audiosorter-core/src/main/java/io/github/warnotte/audiosorter/core/SortConfiguration.java:103-105 | changes the default year only |
| Events.Bridge | src/main/java/io/github/warnotte/audiosorter/core/AudioSorterEngine.java:114-172 | scan start, scan completion and directory completion are dropped; progress becomes (dirs, total, 0); other events go through unchanged |
| Events.FireScanAt | audiosorter-core/src/main/java/io/github/warnotte/audiosorter/core/MusicScanner.java:271-323 | a fire method delivers the event once to each listener, in registration order |
| Events.FireSort | src/main/java/io/github/warnotte/audiosorter/core/MusicSorter.java:208-248 | the same for the sorter's fire methods |
| Events.ReceivedFireSortAll | src/main/java/io/github/warnotte/audiosorter/core/MusicSorter.java:208-248 | each fired event reaches a listener once per registration of it |
| Events.ScanNeverStartsOrCompletesSort | src/main/java/io/github/warnotte/audiosorter/core/AudioSorterEngine.java:114-172 | nothing the scanner fires reaches a sort listener as a sort start or completion |
| Events.RemoveFirstCounts | src/main/java/io/github/warnotte/audiosorter/core/AudioSorterEngine.java:41-43 | List.remove drops exactly one registration of the listener, if it has one |
| Events.OccurrencesPositive | src/main/java/io/github/warnotte/audiosorter/core/AudioSorterEngine.java:33-43 | a listener is registered exactly when it occurs in the list |
| Scanner.AudioEntriesExactly | audiosorter-core/src/main/java/io/github/warnotte/audiosorter/core/MusicScanner.java:141 | the audio entries are the entries with an audio name, in listing order |
| Scanner.ImageEntriesExactly | audiosorter-core/src/main/java/io/github/warnotte/audiosorter/core/MusicScanner.java:142 | the image entries are the entries with an image name |
| Scanner.TagSearchFirstTagged | audiosorter-core/src/main/java/io/github/warnotte/audiosorter/core/MusicScanner.java:178-194 | the tag adopted and its header come from the first file that reads with a tag |
| Scanner.TagSearchUntagged | audiosorter-core/src/main/java/io/github/warnotte/audiosorter/core/MusicScanner.java:178-194 | with no tagged file nothing is adopted and the header is that of the last readable file |
| Scanner.TagFoundIff | audiosorter-core/src/main/java/io/github/warnotte/audiosorter/core/MusicScanner.java:178-194 | a tag is adopted exactly when some audio file reads with a tag |
| Scanner.FirstTagged | audiosorter-core/src/main/java/io/github/warnotte/audiosorter/core/MusicScanner.java:181-189 | the index of the first read with a tag |
| Scanner.MetadataChoice | audiosorter-core/src/main/java/io/github/warnotte/audiosorter/core/MusicScanner.java:196-228 | no tag: defaults, album "default (dirname)"; a tag: each field from a non-empty tag value, else the default |
| Scanner.DefaultMetadataNeverEmpty | audiosorter-core/src/main/java/io/github/warnotte/audiosorter/core/MusicScanner.java:196-228 | a tag never sets a field to the empty string |
| Scanner.BitRateText | audiosorter-core/src/main/java/io/github/warnotte/audiosorter/core/MusicScanner.java:234-243 | "~n" is VBR with bitrate n; "n" is constant with bitrate n |
| Scanner.DirSpecStatus | audiosorter-core/src/main/java/io/github/warnotte/audiosorter/core/MusicScanner.java:164-175 | no audio and no subfolders gives EMPTY; no audio with subfolders gives NO_TAG and no metadata; with audio the count is recorded and NO_TAG holds iff no file has a tag |
| Scanner.VisitEnters | audiosorter-core/src/main/java/io/github/warnotte/audiosorter/core/MusicScanner.java:119-137 | an uncancelled visit reports its folder, then its subfolders, then its own files |
| Scanner.VisitIsPreOrderPrefix | audiosorter-core/src/main/java/io/github/warnotte/audiosorter/core/MusicScanner.java:119-137 | the reports are a prefix of the tree's pre-order listing, one per processed directory; a shorter prefix means the cancel flag was seen; a visit that starts cancelled does nothing |
| Scanner.UncancelledVisitReportsAll | audiosorter-core/src/main/java/io/github/warnotte/audiosorter/core/MusicScanner.java:119-137 | without an outside cancel, every folder of the tree is reported |
| Scanner.PreOrderBelowRoot | audiosorter-core/src/main/java/io/github/warnotte/audiosorter/core/MusicScanner.java:134-135 | every listed folder lies below the root, and its depth counts the extra path components |
| Scanner.MusicScanner.constructor | audiosorter-core/src/main/java/io/github/warnotte/audiosorter/core/MusicScanner.java:43-50 | the default extensions and placeholders, fresh totals, no listeners |
| Scanner.MusicScanner.FromConfig | audiosorter-core/src/main/java/io/github/warnotte/audiosorter/core/MusicScanner.java:52-61 | the configuration's settings, read once |
| Scanner.MusicScanner.WithSettings | audiosorter-core/src/main/java/io/github/warnotte/audiosorter/core/MusicScanner.java:63-70 | the given settings |
| Scanner.MusicScanner.AddListener | audiosorter-core/src/main/java/io/github/warnotte/audiosorter/core/MusicScanner.java:72-74 | appends the listener |
| Scanner.MusicScanner.RemoveListener | audiosorter-core/src/main/java/io/github/warnotte/audiosorter/core/MusicScanner.java:76-78 | removes its first registration |
| Scanner.MusicScanner.Cancel | audiosorter-core/src/main/java/io/github/warnotte/audiosorter/core/MusicScanner.java:80-82 | sets the flag and nothing else |
| Scanner.FindTag | audiosorter-core/src/main/java/io/github/warnotte/audiosorter/core/MusicScanner.java:178-194 | the loop with its break computes the first-tag search |
| Scanner.MusicScanner.RecordPaths | audiosorter-core/src/main/java/io/github/warnotte/audiosorter/core/MusicScanner.java:151-162 | the cover image and audio paths are recorded as the folder listing dictates |
| Scanner.MusicScanner.RecordFormat | audiosorter-core/src/main/java/io/github/warnotte/audiosorter/core/MusicScanner.java:230-251 | the upper-cased format, the VBR flag, and the two numbers when they parse |
| Scanner.MusicScanner.FinishWithoutAudio | audiosorter-core/src/main/java/io/github/warnotte/audiosorter/core/MusicScanner.java:164-172 | EMPTY only without subfolders; the empty and completion events |
| Scanner.MusicScanner.CountFiles | audiosorter-core/src/main/java/io/github/warnotte/audiosorter/core/MusicScanner.java:139-149 | adds every regular file, and those that are not audio, to the counters |
| Scanner.MusicScanner.EnterDirectory | audiosorter-core/src/main/java/io/github/warnotte/audiosorter/core/MusicScanner.java:124-129 | onDirectoryEntered, one new report appended, one more processed directory |
| Scanner.MusicScanner.ScanDirectory | audiosorter-core/src/main/java/io/github/warnotte/audiosorter/core/MusicScanner.java:119-255 | the reports appended, the state and the event log are exactly those of the Visit function |
| Scanner.MusicScanner.Scan | audiosorter-core/src/main/java/io/github/warnotte/audiosorter/core/MusicScanner.java:96-117 | a missing or non-directory input fails with nothing changed; otherwise flags reset, start time, the walk and end time, with the reports appended behind the earlier ones |
| Sorter.ReplaceInvalid | src/main/java/io/github/warnotte/audiosorter/core/MusicSorter.java:187 | each of the ten invalid characters becomes '_', the rest is kept, in one pass |
| Sorter.ReplacedIsCharMap | src/main/java/io/github/warnotte/audiosorter/core/MusicSorter.java:187-195 | after line 187 the later replacements of '/', '\|', '?', '*', '>', '<' and '\\' change nothing |
| Sorter.SanitizedIsSafe | src/main/java/io/github/warnotte/audiosorter/core/MusicSorter.java:183-204 | the result has none of the ten characters and no apostrophe, no blank at either end, and no final '.' |
| Sorter.SanitizedIdempotent | src/main/java/io/github/warnotte/audiosorter/core/MusicSorter.java:183-204 | sanitizing twice is sanitizing once |
| Sorter.SlashBecomesUnderscore | src/main/java/io/github/warnotte/audiosorter/core/MusicSorter.java:187-188 | "AC/DC" becomes "AC_DC" |
| Sorter.AlbumFolderName | src/main/java/io/github/warnotte/audiosorter/core/MusicSorter.java:121-148 | the album alone iff there is no format; else the album, " - [format" and a closing "]" |
| Sorter.DestinationShape | src/main/java/io/github/warnotte/audiosorter/core/MusicSorter.java:95-102 | output, then the sanitized artist unless it is empty, then "[year] album..."; one level fewer when the artist sanitizes to "" |
| Sorter.EmptyArtistFolder | src/main/java/io/github/warnotte/audiosorter/core/MusicSorter.java:100-101 | an artist that sanitizes to "" leaves only the album folder under output |
| Sorter.DotsSanitizeToNothing | src/main/java/io/github/warnotte/audiosorter/core/MusicSorter.java:183-204 | the artist "..." sanitizes to the empty name |
| Disk.ResolveText | src/main/java/io/github/warnotte/audiosorter/core/MusicSorter.java:100-101 | resolving the empty text gives the path itself; any other text adds one component |
| Sorter.DestinationIgnoresFiles | src/main/java/io/github/warnotte/audiosorter/core/MusicSorter.java:95-102 | the destination does not depend on the file reports |
| Sorter.CopyAllFiles | src/main/java/io/github/warnotte/audiosorter/core/MusicSorter.java:150-181 | the copy loop copies a prefix of the listed files in order, one file report each, and counts each copy |
| Sorter.CopyAllCancel | src/main/java/io/github/warnotte/audiosorter/core/MusicSorter.java:154-157 | the loop stops short only when cancelled; without a cancel it copies every file |
| Sorter.CopyAllStopped | src/main/java/io/github/warnotte/audiosorter/core/MusicSorter.java:154-157 | once the cancel is seen, later files are left alone |
| Sorter.SortOneCases | src/main/java/io/github/warnotte/audiosorter/core/MusicSorter.java:88-114 | a skipped report is untouched; any other gets its destination; a failed mkdir copies nothing; no start or completion event |
| Sorter.SortOneCopiesAll | src/main/java/io/github/warnotte/audiosorter/core/MusicSorter.java:105-114 | without a cancel a created destination gets one file report per regular file, in listing order |
| Sorter.SortAllSorted | src/main/java/io/github/warnotte/audiosorter/core/MusicSorter.java:84-115 | every report is handled in place, and the file counter grows by the file reports added |
| Sorter.SortAllCases | src/main/java/io/github/warnotte/audiosorter/core/MusicSorter.java:84-115 | skipped reports stay untouched; uncancelled, every other report has its destination |
| Sorter.SortAllStopped | src/main/java/io/github/warnotte/audiosorter/core/MusicSorter.java:84-87 | once the loop sees the cancel, the later reports are left alone |
| Sorter.SortAllCopiesAll | src/main/java/io/github/warnotte/audiosorter/core/MusicSorter.java:84-115 | without a cancel every regular file of every created destination is copied |
| Sorter.SortWholeShape | src/main/java/io/github/warnotte/audiosorter/core/MusicSorter.java:65-119 | a failed output mkdir fires only the error; otherwise one start and one completion around the loop |
| Sorter.MusicSorter.constructor | src/main/java/io/github/warnotte/audiosorter/core/MusicSorter.java:32-34 | the output directory, no listeners, the flag clear and the counter 0 |
| Sorter.MusicSorter.FromConfig | src/main/java/io/github/warnotte/audiosorter/core/MusicSorter.java:36-38 | reads the output directory once |
| Sorter.MusicSorter.AddListener | src/main/java/io/github/warnotte/audiosorter/core/MusicSorter.java:40-42 | appends the listener |
| Sorter.MusicSorter.RemoveListener | src/main/java/io/github/warnotte/audiosorter/core/MusicSorter.java:44-46 | removes its first registration |
| Sorter.MusicSorter.Cancel | src/main/java/io/github/warnotte/audiosorter/core/MusicSorter.java:48-50 | sets the flag only |
| Sorter.MusicSorter.DestinationOf | src/main/java/io/github/warnotte/audiosorter/core/MusicSorter.java:95-101 | the three sanitizer calls and the two resolves compute Destination, with the empty artist resolving to output itself |
| Sorter.MusicSorter.PlaceReport | src/main/java/io/github/warnotte/audiosorter/core/MusicSorter.java:95-102 | returns the report's Destination and records it on the report; the file reports are kept |
| Sorter.MusicSorter.FilterInvalidCharacters | src/main/java/io/github/warnotte/audiosorter/core/MusicSorter.java:183-204 | the replacements, the trim and the dot loop compute Sanitized |
| Sorter.MusicSorter.CopyFiles | src/main/java/io/github/warnotte/audiosorter/core/MusicSorter.java:150-181 | a null listing does nothing; otherwise the reports, counter and events are those of CopyAll |
| Sorter.MusicSorter.SortReport | src/main/java/io/github/warnotte/audiosorter/core/MusicSorter.java:88-114 | one turn of the loop is SortOne on the report's value |
| Sorter.MusicSorter.Sort | src/main/java/io/github/warnotte/audiosorter/core/MusicSorter.java:65-119 | a null output is an error with nothing changed; otherwise the reports and events are those of SortWhole |
| Engine.Bridges | src/main/java/io/github/warnotte/audiosorter/core/AudioSorterEngine.java:33-39 | one bridge per listener, in the same order |
| Engine.ExecuteStartsAndCompletions | src/main/java/io/github/warnotte/audiosorter/core/AudioSorterEngine.java:64-86 | execute gives a listener one start and one completion per engine registration, plus the sorter's per sorter registration; the scan adds none |
| Engine.EachListenerHearsBoth | src/main/java/io/github/warnotte/audiosorter/core/AudioSorterEngine.java:33-39 | outside debug mode a listener registered once hears two starts and two completions; in debug mode one of each |
| Engine.RemovedListenerHearsOnlySorter | src/main/java/io/github/warnotte/audiosorter/core/AudioSorterEngine.java:41-43 | a removed listener still hears the sorter but not the engine |
| Engine.AudioSorterEngine.constructor | src/main/java/io/github/warnotte/audiosorter/core/AudioSorterEngine.java:27-31 | the scanner and the sorter read the configuration once |
| Engine.AudioSorterEngine.AddListener | src/main/java/io/github/warnotte/audiosorter/core/AudioSorterEngine.java:33-39 | the engine list, a bridge on the scanner, the listener on the sorter, in registration order |
| Engine.AudioSorterEngine.RemoveListener | src/main/java/io/github/warnotte/audiosorter/core/AudioSorterEngine.java:41-43 | only the engine's list loses the registration |
| Engine.AudioSorterEngine.Cancel | src/main/java/io/github/warnotte/audiosorter/core/AudioSorterEngine.java:48-58 | both collaborators' flags are set, so isCancelled holds |
| Engine.AudioSorterEngine.Execute | src/main/java/io/github/warnotte/audiosorter/core/AudioSorterEngine.java:64-86 | validate fails before any event; otherwise start, scan, sort unless debug, completion; the scanner's totals are returned |
| Engine.AudioSorterEngine.SortPhase | src/main/java/io/github/warnotte/audiosorter/core/AudioSorterEngine.java:75-78 | the sort runs on the totals the scan returned |
| HtmlReport.FilterMembers | src/main/java/io/github/warnotte/audiosorter/report/HtmlReportGenerator.java:110-114 | a stream filter keeps exactly the elements that pass |
| HtmlReport.NormalizeForDuplicateCheck | src/main/java/io/github/warnotte/audiosorter/report/HtmlReportGenerator.java:289-294 | null is ""; otherwise only [a-z0-9] of the lowered name remains |
| HtmlReport.NormalizeIdempotent | src/main/java/io/github/warnotte/audiosorter/report/HtmlReportGenerator.java:289-294 | normalising twice is normalising once |
| HtmlReport.NormalizeIgnoresCase | src/main/java/io/github/warnotte/audiosorter/report/HtmlReportGenerator.java:289-294 | names that differ in letter case normalise alike |
| HtmlReport.NormalizeIgnoresPunctuation | src/main/java/io/github/warnotte/audiosorter/report/HtmlReportGenerator.java:289-294 | a character outside [A-Za-z0-9] is dropped |
| HtmlReport.NormalizeYear | src/main/java/io/github/warnotte/audiosorter/report/HtmlReportGenerator.java:296-304 | "Unknown" for null or "UNKNOWN" inside; the first four digits of a leading run of four or more; "Unknown" with no leading digit; the year itself with one to three |
| HtmlReport.NormalizeYearIdempotent | src/main/java/io/github/warnotte/audiosorter/report/HtmlReportGenerator.java:296-304 | a normalised year normalises to itself |
| HtmlReport.CategorizeBitrate | src/main/java/io/github/warnotte/audiosorter/report/HtmlReportGenerator.java:306-314 | "Unknown" iff no bitrate; otherwise one of the six chart categories |
| HtmlReport.CategorizeBitrateMonotone | src/main/java/io/github/warnotte/audiosorter/report/HtmlReportGenerator.java:276 | a higher bitrate never lands in a lower category of the chart order |
| HtmlReport.FormatDuration | src/main/java/io/github/warnotte/audiosorter/report/HtmlReportGenerator.java:367-375 | "Ns", "Mm Ss" or "Hh Mm Ss" from the clock reading of the seconds |
| HtmlReport.StatusCssClass | src/main/java/io/github/warnotte/audiosorter/report/HtmlReportGenerator.java:357-365 | every status gets a class starting with "status-" |
| HtmlReport.StatusCssClassInjective | src/main/java/io/github/warnotte/audiosorter/report/HtmlReportGenerator.java:357-365 | the five statuses get five different "status-" classes |
| HtmlReport.KeySplit | src/main/java/io/github/warnotte/audiosorter/report/HtmlReportGenerator.java:127 | split drops trailing empty names, so a key of two empty names splits to nothing |
| HtmlReport.GroupNamesAsWrittenFails | src/main/java/io/github/warnotte/audiosorter/report/HtmlReportGenerator.java:127-128 | as written, two empty normalised names make parts[0] fail |
| HtmlReport.DuplicateGroupAsWrittenFails | src/main/java/io/github/warnotte/audiosorter/report/HtmlReportGenerator.java:118-130 | as written, two candidate folders whose names both normalise to "" form a group of two under the key " /// ", and reading its names fails |
| HtmlReport.GroupNamesOfRecovers | src/main/java/io/github/warnotte/audiosorter/report/HtmlReportGenerator.java:120-129 | the corrected split gives back both names of every key |
| HtmlReport.DuplicateGroups | src/main/java/io/github/warnotte/audiosorter/report/HtmlReportGenerator.java:117-138 | one group per key with more than one candidate, in key order, each directory in original order, and every such key present |
| HtmlReport.DuplicateGroupNames | src/main/java/io/github/warnotte/audiosorter/report/HtmlReportGenerator.java:117-138 | each directory of a group shows its own normalised artist and album |
| HtmlReport.SortByStable | src/main/java/io/github/warnotte/audiosorter/report/HtmlReportGenerator.java:143 | the sort by a key is stable |
| HtmlReport.SmallAlbums | src/main/java/io/github/warnotte/audiosorter/report/HtmlReportGenerator.java:141-146 | non-empty directories with at most two files, fewest first, a permutation of the filter |
| HtmlReport.SmallAlbumsStable | src/main/java/io/github/warnotte/audiosorter/report/HtmlReportGenerator.java:141-146 | equal counts keep the report order |
| HtmlReport.CatalogByArtist | src/main/java/io/github/warnotte/audiosorter/report/HtmlReportGenerator.java:182-192 | each artist maps to its entries in order; an artist without entries has no key |
| HtmlReport.CatalogArtists | src/main/java/io/github/warnotte/audiosorter/report/HtmlReportGenerator.java:182-189 | only the exact "UNKNOWN_ARTIST" is dropped |
| CoverArtExtraction.WavIsNotAudio | audiosorter-coverart/src/main/java/io/github/warnotte/audiosorter/coverart/CoverArtExtractor.java:22 | ".wav" is not an audio extension here |
| CoverArtExtraction.Named | audiosorter-coverart/src/main/java/io/github/warnotte/audiosorter/coverart/CoverArtExtractor.java:88-94 | a name-filtered listing keeps exactly the entries whose name passes, in order |
| CoverArtExtraction.DetectImageFormat | audiosorter-coverart/src/main/java/io/github/warnotte/audiosorter/coverart/CoverArtExtractor.java:158-179 | always one of .jpg, .png, .gif, .bmp; .jpg for fewer than four bytes |
| CoverArtExtraction.DetectImageFormatSignatures | audiosorter-coverart/src/main/java/io/github/warnotte/audiosorter/coverart/CoverArtExtractor.java:162-176 | each magic signature gives its format, checked in source order |
| CoverArtExtraction.FirstCover | audiosorter-coverart/src/main/java/io/github/warnotte/audiosorter/coverart/CoverArtExtractor.java:101-119 | None iff no audio file yields a cover; otherwise the cover of the first one that does |
| CoverArtExtraction.Extract | audiosorter-coverart/src/main/java/io/github/warnotte/audiosorter/coverart/CoverArtExtractor.java:76-120 | ERROR iff not a directory; a cover iff EXTRACTED; the existing-image and no-audio cases |
| CoverArtExtraction.ExtractedCoverIsArtwork | audiosorter-coverart/src/main/java/io/github/warnotte/audiosorter/coverart/CoverArtExtractor.java:105-111 | the cover's size is its artwork's length and its path is the folder's cover file |
| CoverArtExtraction.FindCover | audiosorter-coverart/src/main/java/io/github/warnotte/audiosorter/coverart/CoverArtExtractor.java:101-119 | the loop finds FirstCover |
| CoverArtExtraction.CoverArtExtractor.constructor | audiosorter-coverart/src/main/java/io/github/warnotte/audiosorter/coverart/CoverArtExtractor.java:25-30 | every counter at 0, no covers |
| CoverArtExtraction.CoverArtExtractor.ExtractCover | audiosorter-coverart/src/main/java/io/github/warnotte/audiosorter/coverart/CoverArtExtractor.java:76-120 | returns Extract's result; only the matching counter moves; EXTRACTED appends one cover, keeping extracted == number of covers; errors stays 0 |
| CoverArtExtraction.CoverArtExtractor.ResetStats | audiosorter-coverart/src/main/java/io/github/warnotte/audiosorter/coverart/CoverArtExtractor.java:188-194 | all counters 0 and no covers |
| CoverArtReports.CoverArtReport.constructor | audiosorter-coverart/src/main/java/io/github/warnotte/audiosorter/coverart/CoverArtReport.java:12-21 | three empty lists, both counters 0 |
| CoverArtReports.CoverArtReport.AllExtracted | audiosorter-coverart/src/main/java/io/github/warnotte/audiosorter/coverart/CoverArtReport.java:108-112 | the tag covers, then the downloaded ones |
| CoverArtReports.CoverArtReport.TotalExtracted | audiosorter-coverart/src/main/java/io/github/warnotte/audiosorter/coverart/CoverArtReport.java:104-106 | the length of that list; zero iff both lists are empty |
| CoverArtReports.CoverArtReport.AllExtractedMembers | audiosorter-coverart/src/main/java/io/github/warnotte/audiosorter/coverart/CoverArtReport.java:108-112 | a cover is in the combined list iff it is in one of the two |
| CoverArtReports.CoverArtReport.AddExtractedFromTags | audiosorter-coverart/src/main/java/io/github/warnotte/audiosorter/coverart/CoverArtReport.java:80-82 | appends to that list only; the total grows by one |
| CoverArtReports.CoverArtReport.AddDownloadedOnline | audiosorter-coverart/src/main/java/io/github/warnotte/audiosorter/coverart/CoverArtReport.java:84-86 | appends to that list only; the total grows by one |
| CoverArtReports.CoverArtReport.AddMissingCover | audiosorter-coverart/src/main/java/io/github/warnotte/audiosorter/coverart/CoverArtReport.java:88-90 | appends to that list only |
| CoverArtReports.CoverArtReport.SetTotalDirectories | audiosorter-coverart/src/main/java/io/github/warnotte/audiosorter/coverart/CoverArtReport.java:99 | stores its argument and nothing else |
| CoverArtReports.CoverArtReport.SetAlreadyHadCover | audiosorter-coverart/src/main/java/io/github/warnotte/audiosorter/coverart/CoverArtReport.java:102 | stores its argument and nothing else |
| CoverArtHtml.EscapeHtml | audiosorter-coverart/src/main/java/io/github/warnotte/audiosorter/coverart/CoverArtReportGenerator.java:152-158 | null is ""; the replace chain equals a one-pass escape of each character |
| CoverArtHtml.EscapeAll | audiosorter-coverart/src/main/java/io/github/warnotte/audiosorter/coverart/CoverArtReportGenerator.java:154-157 | the escaped text has no <, > or " |
| CoverArtHtml.EscapeChainIsOnePass | audiosorter-coverart/src/main/java/io/github/warnotte/audiosorter/coverart/CoverArtReportGenerator.java:154-157 | replacing & first makes the chain a one-pass escape |
| CoverArtHtml.EscapeLeavesPlainText | audiosorter-coverart/src/main/java/io/github/warnotte/audiosorter/coverart/CoverArtReportGenerator.java:154-157 | text without & < > " passes through, apostrophes included |
| CoverArtHtml.EscapeRoundTrip | audiosorter-coverart/src/main/java/io/github/warnotte/audiosorter/coverart/CoverArtReportGenerator.java:152-158 | unescaping the escaped text recovers it |
| CoverArtHtml.FormatReason | audiosorter-coverart/src/main/java/io/github/warnotte/audiosorter/coverart/CoverArtReportGenerator.java:142-150 | the three labels, "Unknown" for null, any other reason as is |
| CoverArtHtml.FormatReasonCollisions | audiosorter-coverart/src/main/java/io/github/warnotte/audiosorter/coverart/CoverArtReportGenerator.java:142-150 | two reasons read alike only when one is the other's label, or null and "Unknown" |
| CoverArtHtml.Sections | audiosorter-coverart/src/main/java/io/github/warnotte/audiosorter/coverart/CoverArtReportGenerator.java:63-112 | the sections come in page order |
| CoverArtHtml.SectionsOfReport | audiosorter-coverart/src/main/java/io/github/warnotte/audiosorter/coverart/CoverArtReportGenerator.java:63-112 | each list section appears iff its list is non-empty; "all done" iff no other section does |
| MusicBrainz.EscapeQuery | audiosorter-coverart/src/main/java/io/github/warnotte/audiosorter/coverart/MusicBrainzFetcher.java:161-164 | the output is as long as the input plus its special characters |
| MusicBrainz.EscapeQueryPlain | audiosorter-coverart/src/main/java/io/github/warnotte/audiosorter/coverart/MusicBrainzFetcher.java:161-164 | text without specials passes through; & and \| are not special |
| MusicBrainz.EscapeQueryRoundTrip | audiosorter-coverart/src/main/java/io/github/warnotte/audiosorter/coverart/MusicBrainzFetcher.java:161-164 | unescaping recovers the term |
| MusicBrainz.Query | audiosorter-coverart/src/main/java/io/github/warnotte/audiosorter/coverart/MusicBrainzFetcher.java:79-80 | the query text parses back to the album and the artist |
| MusicBrainz.QueryParses | audiosorter-coverart/src/main/java/io/github/warnotte/audiosorter/coverart/MusicBrainzFetcher.java:79-80 | the release:"..." AND artist:"..." text determines both terms |
| MusicBrainz.SleepFor | audiosorter-coverart/src/main/java/io/github/warnotte/audiosorter/coverart/MusicBrainzFetcher.java:169-176 | sleeps iff fewer than 1100 ms have passed, and then exactly up to 1100 ms |
| MusicBrainz.RequestsSpaced | audiosorter-coverart/src/main/java/io/github/warnotte/audiosorter/coverart/MusicBrainzFetcher.java:39 | with a monotone clock, consecutive requests are at least 1100 ms apart |
| MusicBrainz.MusicBrainzFetcher.constructor | audiosorter-coverart/src/main/java/io/github/warnotte/audiosorter/coverart/MusicBrainzFetcher.java:36 | no request yet: time 0 |
| MusicBrainz.MusicBrainzFetcher.RateLimitWait | audiosorter-coverart/src/main/java/io/github/warnotte/audiosorter/coverart/MusicBrainzFetcher.java:169-176 | sleeps SleepFor(last, now) and records the new request time |

## Findings

| source | as written | input that shows it | evidently intended | confidence | as-written member | corrected member |
|---|---|---|---|---|---|---|
| src/main/java/io/github/warnotte/audiosorter/report/HtmlReportGenerator.java:127-128 | `parts[0]` reads the split key; split drops trailing empty strings | artist "!!!", album "???" in two folders: both normalise to "", the key " /// " splits to an empty array, and parts[0] throws | the group shows artist "" and album "" | not executed | HtmlReport.DuplicateGroupAsWrittenFails | HtmlReport.GroupNamesOfRecovers |

## Left out

- Engine.AudioSorterEngine.Execute: its `modifies` frame lets any directory report change, not only those the scan creates. The contract pins down the scanner's report list exactly.
- Engine.AudioSorterEngine: `scanOnly` is the scanner's `Scan`, so it has no member of its own.
- Disk I/O, the clock, threads and the network are parameters (Volume, SortIO, TagReader, the cancel schedule, clock readings); they are not executed. Copy durations are opaque numbers.
- The cancel flag is a plain field. The cancel that comes from another thread lands only at the source's cancel checks.
- Listener classes (console output) and the GUI and CLI drivers are not part of this model.
- Floating point is not modelled: successRate, totalMBCopied, getSizeFormatted and formatSize.
- HtmlReport: the Freemarker and Gson rendering and the per-report maps are not modelled. The chart data is modelled only through its bitrate categories.
- HtmlReport: the suspicious-year filter needs `Year.now()` and is not modelled.
- HtmlReport: the empty-directory and missing-cover lists are instances of `Filter` and have no members of their own.
- HtmlReport.CatalogByArtist: the TreeMap is a map; its key order is not modelled.
- CoverArtHtml: the page markup, cover cards and CSS of CoverArtReportGenerator are not modelled. Only which sections appear, and in which order, is.
- MusicBrainz: fetchCover, searchRelease and fetchCoverArt (HTTP, JSON, URLEncoder) are not modelled. Only the query text before URL encoding and the rate-limit arithmetic are.
- Text: toLowerCase, toUpperCase and trim are ASCII-only.
- Counters and sizes are unbounded integers; the `int`/`long` overflow of the source is not modelled.
- Disk.Resolve: appends a listing entry's name, which is never empty. Names the sorter computes go through `Disk.ResolveText`, which keeps `Path.resolve("")` as the identity.
- The three isCancelled getters read the cancel flag and carry no contract of their own; the Cancel rows state the flag they return.
- Getters that return a field are read as the field; Path.toString, relativize and getAbsolutePath are not modelled.
- DirectoryReport.java declares no `addAudioFilePath`, `getFirstAudioFilePath` or `getAudioFilePaths`, though the scanner and the HTML generator call them. `DirectoryReports.DirectoryReport.AddAudioFilePath` models the call as an append to `audioFilePaths`.
- The sanitizer's later replacements of '/', '|', '?', '*', '>', '<' and '\\' never fire, because line 187 already replaced those characters. So "AC/DC" becomes "AC_DC", not "AC-DC".
- The folder-name patterns of SortConfiguration are stored but never read by the sorter, and no component fires a string-filtered event. The model follows the code.
- CoverArtExtraction.CoverArtExtractor.ExtractCover: a file whose cover cannot be written is skipped and the next audio file is tried, as the loop's catch does.
