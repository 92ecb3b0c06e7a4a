/** SortConfiguration: the settings of one run, its audio-file test and its validation. */
module Configuration {
  import opened Wrappers
  import opened Text
  import opened Disk

  const DefaultExtensions: set<string> := {"mp3", "flac", "ogg", "wav", "m4a", "aac", "wma"}
  const DefaultArtist: string := "UNKNOWN_ARTIST"
  const DefaultAlbum: string := "UNKNOWN_ALBUM"
  const DefaultYear: string := "UNKNOWN_YEAR"
  const DefaultArtistPattern: string := "{ARTIST}"
  const DefaultAlbumPattern: string := "[{YEAR}] {ALBUM} - [{FORMAT} {BITRATE} kBps {SAMPLERATE} kHz]"

  /**
   * isAudioFile: the lowered name ends with "." followed by one of the extensions.
   * The extensions themselves are not lowered.
   */
  predicate IsAudioName(extensions: set<string>, name: string) {
    DotExtensionFrom(Lower(name), extensions, 0)
  }

  /** Some dot at position k or later is followed by one of the extensions, up to the end. */
  predicate DotExtensionFrom(s: string, extensions: set<string>, k: nat)
    decreases |s| - k
  {
    k < |s| && ((s[k] == '.' && s[k + 1..] in extensions) || DotExtensionFrom(s, extensions, k + 1))
  }

  /** The test is the stream's anyMatch: some extension, with a dot before it, ends the lowered name. */
  lemma IsAudioNameIff(extensions: set<string>, name: string)
    ensures IsAudioName(extensions, name) <==> exists ext :: ext in extensions && EndsWith(Lower(name), "." + ext)
  {
    var l := Lower(name);
    DotExtensionFromIff(l, extensions, 0);
    if IsAudioName(extensions, name) {
      var j :| 0 <= j < |l| && l[j] == '.' && l[j + 1..] in extensions;
      DotEndsWith(l, j);
    }
    if exists ext :: ext in extensions && EndsWith(l, "." + ext) {
      var ext :| ext in extensions && EndsWith(l, "." + ext);
      EndsWithDot(l, ext);
    }
  }

  /** What follows a dot, with the dot, ends the string. */
  lemma DotEndsWith(s: string, j: nat)
    requires j < |s| && s[j] == '.'
    ensures EndsWith(s, "." + s[j + 1..])
  {
    assert s[j..] == [s[j]] + s[j + 1..];
  }

  /** A string ending with a dot and an extension has that dot just before the extension. */
  lemma EndsWithDot(s: string, ext: string)
    requires EndsWith(s, "." + ext)
    ensures |ext| < |s| && s[|s| - |ext| - 1] == '.' && s[|s| - |ext|..] == ext
  {
    var t := "." + ext;
    assert s[|s| - |t|..] == t;
    assert s[|s| - |ext| - 1] == t[0];
    assert s[|s| - |ext|..] == t[1..];
  }

  lemma {:induction false} DotExtensionFromIff(s: string, extensions: set<string>, k: nat)
    ensures DotExtensionFrom(s, extensions, k) <==> exists j :: k <= j < |s| && s[j] == '.' && s[j + 1..] in extensions
    decreases |s| - k
  {
    if k < |s| {
      DotExtensionFromIff(s, extensions, k + 1);
    }
  }

  /** The test ignores the case of the file name. */
  lemma AudioNameIgnoresCase(extensions: set<string>, name: string)
    ensures IsAudioName(extensions, Lower(name)) == IsAudioName(extensions, name)
  {
    LowerIdempotent(name);
  }

  /** A name whose lowered last character ends none of the extensions is not an audio name. */
  lemma NoExtensionMatches(extensions: set<string>, name: string)
    requires name != []
    requires forall ext :: ext in extensions ==> ext != [] && ext[|ext| - 1] != LowerChar(name[|name| - 1])
    ensures !IsAudioName(extensions, name)
  {
    IsAudioNameIff(extensions, name);
  }

  /** With the default extensions upper-case names match; other types and bare words do not. */
  lemma DefaultAudioNames()
    ensures IsAudioName(DefaultExtensions, "01 Intro.MP3")
    ensures IsAudioName(DefaultExtensions, "track.Flac")
  {
    assert IsAudioName(DefaultExtensions, "01 Intro.MP3") by {
      assert Lower("01 Intro.MP3") == "01 intro.mp3";
      assert "01 intro.mp3"[9..] == "mp3";
      DotExtensionFromIff("01 intro.mp3", DefaultExtensions, 0);
    }
    assert IsAudioName(DefaultExtensions, "track.Flac") by {
      assert Lower("track.Flac") == "track.flac";
      assert "track.flac"[6..] == "flac";
      DotExtensionFromIff("track.flac", DefaultExtensions, 0);
    }
  }

  lemma DefaultOtherNames()
    ensures !IsAudioName(DefaultExtensions, "notes.TXT")
    ensures !IsAudioName(DefaultExtensions, "mp3")
  {
    NoExtensionMatches(DefaultExtensions, "notes.TXT");
    assert !IsAudioName(DefaultExtensions, "mp3") by {
      assert Lower("mp3") == "mp3";
      DotExtensionFromIff("mp3", DefaultExtensions, 0);
    }
  }

  /** An extension holding an upper-case letter never matches, since only the name is lowered. */
  lemma UpperCaseExtensionNeverMatches(ext: string, name: string, i: nat)
    requires i < |ext| && 'A' <= ext[i] <= 'Z'
    ensures !IsAudioName({ext}, name)
  {
    IsAudioNameIff({ext}, name);
    if IsAudioName({ext}, name) {
      var l := Lower(name);
      EndsWithAt(l, "." + ext, 1 + i);
      assert false;
    }
  }

  lemma EndsWithAt(s: string, suffix: string, j: nat)
    requires EndsWith(s, suffix) && j < |suffix|
    ensures s[|s| - |suffix| + j] == suffix[j]
  {
  }

  datatype ConfigError = InputRequired | OutputRequired | InputNotDirectory(input: Path)

  /** All fields of a SortConfiguration; strings and paths may be null, as in Java. */
  datatype Settings = Settings(
    inputDirectory: Option<Path>,
    outputDirectory: Option<Path>,
    debugMode: bool,
    artistFolderPattern: Option<string>,
    albumFolderPattern: Option<string>,
    audioExtensions: set<string>,
    defaultArtist: Option<string>,
    defaultAlbum: Option<string>,
    defaultYear: Option<string>)

  /** The field initialisers, with the given directories. */
  function Defaults(input: Option<Path>, output: Option<Path>): Settings {
    Settings(input, output, false, Some(DefaultArtistPattern), Some(DefaultAlbumPattern),
             DefaultExtensions, Some(DefaultArtist), Some(DefaultAlbum), Some(DefaultYear))
  }

  /**
   * validate: a missing input wins over a missing output, which wins over an input that is
   * not a directory; otherwise the configuration passes.
   */
  function ValidateSettings(s: Settings, volume: Volume): (r: Outcome<ConfigError>)
    ensures r.Pass? <==> s.inputDirectory.Some? && s.outputDirectory.Some? && IsDirectory(volume, s.inputDirectory.value)
    ensures s.inputDirectory.None? ==> r == Fail(InputRequired)
    ensures s.inputDirectory.Some? && s.outputDirectory.None? ==> r == Fail(OutputRequired)
    ensures s.inputDirectory.Some? && s.outputDirectory.Some? && !IsDirectory(volume, s.inputDirectory.value)
            ==> r == Fail(InputNotDirectory(s.inputDirectory.value))
  {
    if s.inputDirectory.None? then Fail(InputRequired)
    else if s.outputDirectory.None? then Fail(OutputRequired)
    else if !IsDirectory(volume, s.inputDirectory.value) then Fail(InputNotDirectory(s.inputDirectory.value))
    else Pass
  }

  class SortConfiguration {
    var inputDirectory: Option<Path>
    var outputDirectory: Option<Path>
    var debugMode: bool
    var artistFolderPattern: Option<string>
    var albumFolderPattern: Option<string>
    var audioExtensions: set<string>
    var defaultArtist: Option<string>
    var defaultAlbum: Option<string>
    var defaultYear: Option<string>

    function Fields(): Settings
      reads this
    {
      Settings(inputDirectory, outputDirectory, debugMode, artistFolderPattern, albumFolderPattern,
               audioExtensions, defaultArtist, defaultAlbum, defaultYear)
    }

    constructor ()
      ensures Fields() == Defaults(None, None)
    {
      inputDirectory, outputDirectory := None, None;
      debugMode := false;
      artistFolderPattern, albumFolderPattern := Some(DefaultArtistPattern), Some(DefaultAlbumPattern);
      audioExtensions := DefaultExtensions;
      defaultArtist, defaultAlbum, defaultYear := Some(DefaultArtist), Some(DefaultAlbum), Some(DefaultYear);
    }

    /** The two-argument constructor: only the directories differ from the defaults. */
    constructor WithDirectories(input: Option<Path>, output: Option<Path>)
      ensures Fields() == Defaults(input, output)
    {
      inputDirectory, outputDirectory := input, output;
      debugMode := false;
      artistFolderPattern, albumFolderPattern := Some(DefaultArtistPattern), Some(DefaultAlbumPattern);
      audioExtensions := DefaultExtensions;
      defaultArtist, defaultAlbum, defaultYear := Some(DefaultArtist), Some(DefaultAlbum), Some(DefaultYear);
    }

    method SetInputDirectory(p: Option<Path>)
      modifies this
      ensures Fields() == old(Fields()).(inputDirectory := p)
    {
      inputDirectory := p;
    }

    method SetOutputDirectory(p: Option<Path>)
      modifies this
      ensures Fields() == old(Fields()).(outputDirectory := p)
    {
      outputDirectory := p;
    }

    method SetDebugMode(b: bool)
      modifies this
      ensures Fields() == old(Fields()).(debugMode := b)
    {
      debugMode := b;
    }

    method SetArtistFolderPattern(s: Option<string>)
      modifies this
      ensures Fields() == old(Fields()).(artistFolderPattern := s)
    {
      artistFolderPattern := s;
    }

    method SetAlbumFolderPattern(s: Option<string>)
      modifies this
      ensures Fields() == old(Fields()).(albumFolderPattern := s)
    {
      albumFolderPattern := s;
    }

    method SetAudioExtensions(exts: set<string>)
      modifies this
      ensures Fields() == old(Fields()).(audioExtensions := exts)
    {
      audioExtensions := exts;
    }

    method SetDefaultArtist(s: Option<string>)
      modifies this
      ensures Fields() == old(Fields()).(defaultArtist := s)
    {
      defaultArtist := s;
    }

    method SetDefaultAlbum(s: Option<string>)
      modifies this
      ensures Fields() == old(Fields()).(defaultAlbum := s)
    {
      defaultAlbum := s;
    }

    method SetDefaultYear(s: Option<string>)
      modifies this
      ensures Fields() == old(Fields()).(defaultYear := s)
    {
      defaultYear := s;
    }

    /** isAudioFile: some configured extension, with a dot before it, ends the lowered name. */
    predicate IsAudioFile(name: string)
      reads this
      ensures IsAudioFile(name) <==> exists ext :: ext in audioExtensions && EndsWith(Lower(name), "." + ext)
    {
      IsAudioNameIff(audioExtensions, name);
      IsAudioName(audioExtensions, name)
    }

    /** validate: input, then output, then the input's existence as a directory, in that order. */
    function Validate(volume: Volume): (r: Outcome<ConfigError>)
      reads this
      ensures r.Pass? <==> inputDirectory.Some? && outputDirectory.Some? && IsDirectory(volume, inputDirectory.value)
      ensures inputDirectory.None? ==> r == Fail(InputRequired)
      ensures inputDirectory.Some? && outputDirectory.None? ==> r == Fail(OutputRequired)
      ensures inputDirectory.Some? && outputDirectory.Some? && !IsDirectory(volume, inputDirectory.value)
              ==> r == Fail(InputNotDirectory(inputDirectory.value))
    {
      ValidateSettings(Fields(), volume)
    }
  }
}
