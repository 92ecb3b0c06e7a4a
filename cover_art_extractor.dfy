/**
 * CoverArtExtractor: for a directory without a cover picture, the first embedded artwork of its
 * audio files is written next to them as cover.<ext>, and the extractor counts what happened.
 */
module CoverArtExtraction {
  import opened Wrappers
  import opened Text
  import opened Disk

  /** The audio suffixes this tool looks at, matched on the lowered name; .wav is not one of them. */
  predicate IsAudioFileName(name: string) {
    var lower := Lower(name);
    EndsWith(lower, ".mp3") || EndsWith(lower, ".flac") || EndsWith(lower, ".ogg")
    || EndsWith(lower, ".m4a") || EndsWith(lower, ".wma")
  }

  /** The picture suffixes that count as an existing cover. */
  predicate IsCoverFileName(name: string) {
    var lower := Lower(name);
    EndsWith(lower, ".jpg") || EndsWith(lower, ".jpeg") || EndsWith(lower, ".png")
    || EndsWith(lower, ".gif") || EndsWith(lower, ".bmp")
  }

  /** A WAV file is never read for artwork. */
  lemma WavIsNotAudio(stem: string)
    ensures !IsAudioFileName(stem + ".wav")
  {
    var lower := Lower(stem + ".wav");
    assert lower[|lower| - 4..] == ".wav";
    assert lower[|lower| - 3..] == "wav";
    assert lower[|lower| - 1] == 'v';
  }

  /** listFiles with a name filter: folders and files alike, in listing order. */
  function Named(entries: seq<Node>, p: string -> bool): (r: seq<Node>)
    ensures |r| <= |entries|
    ensures forall n :: n in r <==> n in entries && p(n.name)
  {
    if entries == [] then []
    else
      assert entries == [entries[0]] + entries[1..];
      (if p(entries[0].name) then [entries[0]] else []) + Named(entries[1..], p)
  }

  const JpegMagic: seq<byte> := [0xFF, 0xD8, 0xFF]
  const PngMagic: seq<byte> := [0x89, 0x50, 0x4E, 0x47]
  const GifMagic: seq<byte> := [0x47, 0x49, 0x46]
  const BmpMagic: seq<byte> := [0x42, 0x4D]

  /**
   * detectImageFormat: under four bytes it is ".jpg"; otherwise the JPEG, PNG, GIF and BMP
   * signatures are tried in that order, and ".jpg" is the default.
   */
  function DetectImageFormat(data: seq<byte>): (r: string)
    ensures r in {".jpg", ".png", ".gif", ".bmp"}
    ensures |data| < 4 ==> r == ".jpg"
  {
    if |data| < 4 then ".jpg"
    else if data[0] == 0xFF && data[1] == 0xD8 && data[2] == 0xFF then ".jpg"
    else if data[0] == 0x89 && data[1] == 0x50 && data[2] == 0x4E && data[3] == 0x47 then ".png"
    else if data[0] == 0x47 && data[1] == 0x49 && data[2] == 0x46 then ".gif"
    else if data[0] == 0x42 && data[1] == 0x4D then ".bmp"
    else ".jpg"
  }

  /**
   * Each format is named exactly when the data, at least four bytes long, opens with its
   * signature; the signatures' first bytes differ, so the order of the tests never matters.
   */
  lemma DetectImageFormatSignatures(data: seq<byte>)
    ensures DetectImageFormat(data) == ".png" <==> |data| >= 4 && data[..4] == PngMagic
    ensures DetectImageFormat(data) == ".gif" <==> |data| >= 4 && data[..3] == GifMagic
    ensures DetectImageFormat(data) == ".bmp" <==> |data| >= 4 && data[..2] == BmpMagic
    ensures |data| >= 4 && data[..3] == JpegMagic ==> DetectImageFormat(data) == ".jpg"
  {
    if |data| >= 4 {
      assert data[..4][0] == data[0] && data[..4][1] == data[1] && data[..4][2] == data[2] && data[..4][3] == data[3];
      assert data[..3][0] == data[0] && data[..3][1] == data[1] && data[..3][2] == data[2];
      assert data[..2][0] == data[0] && data[..2][1] == data[1];
    }
  }

  /**
   * extractArtworkFromFile: the binary data of the first artwork of the file's tag; null when
   * the entry cannot be read, has no tag, or has no artwork.
   */
  function ArtworkOf(reader: TagReader, dir: Path, n: Node): Option<seq<byte>> {
    if n.Folder? then None
    else match reader(Resolve(dir, n.name))
      case ReadFailed => None
      case Read(_, tag) =>
        if tag.None? || tag.value.artwork.None? || tag.value.artwork.value == [] then None
        else tag.value.artwork.value[0]
  }

  datatype ExtractionResult = Extracted | AlreadyExists | NoEmbeddedArt | NoAudioFiles | Error

  /** ExtractedCover: where the cover went, how many bytes it has and its suffix. */
  datatype ExtractedCover = ExtractedCover(coverPath: Path, sizeBytes: int, format: string)

  /**
   * The cover one audio file yields: its artwork written as cover<ext> in dir. A write that
   * fails (canWrite false) throws inside the loop's try, so the file yields nothing.
   */
  function CoverFrom(reader: TagReader, canWrite: Path -> bool, dir: Path, n: Node): Option<ExtractedCover> {
    match ArtworkOf(reader, dir, n)
    case None => None
    case Some(data) =>
      var ext := DetectImageFormat(data);
      var coverPath := Resolve(dir, "cover" + ext);
      if canWrite(coverPath) then Some(ExtractedCover(coverPath, |data|, ext)) else None
  }

  /** The loop over the audio files: the first one that yields a cover ends it. */
  function FirstCover(reader: TagReader, canWrite: Path -> bool, dir: Path, audio: seq<Node>): (r: Option<ExtractedCover>)
    ensures r.None? <==> forall i :: 0 <= i < |audio| ==> CoverFrom(reader, canWrite, dir, audio[i]).None?
    ensures r.Some? ==> exists i :: (0 <= i < |audio| && CoverFrom(reader, canWrite, dir, audio[i]) == r
      && forall j :: 0 <= j < i ==> CoverFrom(reader, canWrite, dir, audio[j]).None?)
  {
    if audio == [] then None
    else
      var c := CoverFrom(reader, canWrite, dir, audio[0]);
      if c.Some? then c
      else
        var rest := FirstCover(reader, canWrite, dir, audio[1..]);
        assert forall i :: 1 <= i < |audio| ==> audio[i] == audio[1..][i - 1];
        if rest.Some? then
          var i :| 0 <= i < |audio[1..]| && CoverFrom(reader, canWrite, dir, audio[1..][i]) == rest
            && forall j :: 0 <= j < i ==> CoverFrom(reader, canWrite, dir, audio[1..][j]).None?;
          assert CoverFrom(reader, canWrite, dir, audio[i + 1]) == rest;
          rest
        else rest
  }

  /** One turn of the loop: a file that yields no cover passes the search on to the next. */
  lemma FirstCoverStep(reader: TagReader, canWrite: Path -> bool, dir: Path, audio: seq<Node>, i: nat)
    requires i < |audio|
    ensures CoverFrom(reader, canWrite, dir, audio[i]).Some? ==>
      FirstCover(reader, canWrite, dir, audio[i..]) == CoverFrom(reader, canWrite, dir, audio[i])
    ensures CoverFrom(reader, canWrite, dir, audio[i]).None? ==>
      FirstCover(reader, canWrite, dir, audio[i..]) == FirstCover(reader, canWrite, dir, audio[i + 1..])
  {
    assert audio[i..][0] == audio[i];
    assert audio[i..][1..] == audio[i + 1..];
  }

  /** What extractCover does with one directory: the result and the cover it adds, if any. */
  datatype Extraction = Extraction(result: ExtractionResult, cover: Option<ExtractedCover>)

  /**
   * extractCover's outcome: ERROR for a path that is not a directory, ALREADY_EXISTS when an
   * entry has a picture suffix, NO_AUDIO_FILES when no entry has an audio suffix, EXTRACTED with
   * the first cover written, NO_EMBEDDED_ART when no audio file yields one.
   */
  function Extract(volume: Volume, directory: Path, reader: TagReader, canWrite: Path -> bool): (e: Extraction)
    ensures e.cover.Some? <==> e.result == Extracted
    ensures e.result == Error <==> !IsDirectory(volume, directory)
  {
    if !IsDirectory(volume, directory) then Extraction(Error, None)
    else
      var entries := volume(directory).value.entries;
      if Named(entries, IsCoverFileName) != [] then Extraction(AlreadyExists, None)
      else
        var audio := Named(entries, IsAudioFileName);
        if audio == [] then Extraction(NoAudioFiles, None)
        else
          match FirstCover(reader, canWrite, directory, audio)
          case Some(c) => Extraction(Extracted, Some(c))
          case None => Extraction(NoEmbeddedArt, None)
  }

  /** An extracted cover is the artwork of an audio entry of the directory, saved beside it. */
  lemma ExtractedCoverIsArtwork(volume: Volume, directory: Path, reader: TagReader, canWrite: Path -> bool)
    requires Extract(volume, directory, reader, canWrite).result == Extracted
    ensures var c := Extract(volume, directory, reader, canWrite).cover.value;
      exists n :: n in volume(directory).value.entries && IsAudioFileName(n.name)
        && ArtworkOf(reader, directory, n).Some?
        && c == ExtractedCover(Resolve(directory, "cover" + c.format), |ArtworkOf(reader, directory, n).value|, c.format)
        && c.format == DetectImageFormat(ArtworkOf(reader, directory, n).value)
        && canWrite(c.coverPath)
  {
    var entries := volume(directory).value.entries;
    var audio := Named(entries, IsAudioFileName);
    var c := Extract(volume, directory, reader, canWrite).cover.value;
    var i :| 0 <= i < |audio| && CoverFrom(reader, canWrite, directory, audio[i]) == Some(c);
    assert audio[i] in audio;
  }

  /**
   * The loop of extractCover over the audio files: the artwork of each is detected and written
   * in turn, and the first write that goes through ends the search.
   */
  method FindCover(reader: TagReader, canWrite: Path -> bool, directory: Path, audio: seq<Node>)
    returns (cover: Option<ExtractedCover>)
    ensures cover == FirstCover(reader, canWrite, directory, audio)
  {
    assert audio[0..] == audio;
    var i := 0;
    while i < |audio|
      invariant 0 <= i <= |audio|
      invariant FirstCover(reader, canWrite, directory, audio) == FirstCover(reader, canWrite, directory, audio[i..])
    {
      FirstCoverStep(reader, canWrite, directory, audio, i);
      var artwork := ArtworkOf(reader, directory, audio[i]);
      if artwork.Some? {
        var extension := DetectImageFormat(artwork.value);
        var coverPath := Resolve(directory, "cover" + extension);
        if canWrite(coverPath) {
          return Some(ExtractedCover(coverPath, |artwork.value|, extension));
        }
      }
      i := i + 1;
    }
    assert audio[i..] == [];
    return None;
  }

  class CoverArtExtractor {
    var extracted: int
    var skippedNoArt: int
    var skippedAlreadyExists: int
    var errors: int
    var extractedCovers: seq<ExtractedCover>

    /** One counted extraction per listed cover; nothing ever counts an error. */
    ghost predicate Valid()
      reads this
    {
      extracted == |extractedCovers| && errors == 0 && skippedNoArt >= 0 && skippedAlreadyExists >= 0
    }

    constructor()
      ensures Valid()
      ensures extracted == 0 && skippedNoArt == 0 && skippedAlreadyExists == 0 && errors == 0
      ensures extractedCovers == []
    {
      extracted, skippedNoArt, skippedAlreadyExists, errors := 0, 0, 0, 0;
      extractedCovers := [];
    }

    /**
     * extractCover: the outcome of Extract. ALREADY_EXISTS bumps skippedAlreadyExists, EXTRACTED
     * bumps extracted and lists the cover, NO_EMBEDDED_ART bumps skippedNoArt; ERROR and
     * NO_AUDIO_FILES change nothing.
     */
    method ExtractCover(volume: Volume, directory: Path, reader: TagReader, canWrite: Path -> bool)
      returns (r: ExtractionResult)
      requires Valid()
      modifies this
      ensures Valid()
      ensures var e := Extract(volume, directory, reader, canWrite);
        && r == e.result
        && extracted == old(extracted) + (if r == Extracted then 1 else 0)
        && extractedCovers == old(extractedCovers) + (if e.cover.Some? then [e.cover.value] else [])
        && skippedNoArt == old(skippedNoArt) + (if r == NoEmbeddedArt then 1 else 0)
        && skippedAlreadyExists == old(skippedAlreadyExists) + (if r == AlreadyExists then 1 else 0)
        && errors == old(errors)
    {
      if !IsDirectory(volume, directory) {
        return Error;
      }
      var entries := volume(directory).value.entries;
      if |Named(entries, IsCoverFileName)| > 0 {
        skippedAlreadyExists := skippedAlreadyExists + 1;
        return AlreadyExists;
      }
      var audio := Named(entries, IsAudioFileName);
      if |audio| == 0 {
        return NoAudioFiles;
      }
      var cover := FindCover(reader, canWrite, directory, audio);
      if cover.Some? {
        extracted := extracted + 1;
        extractedCovers := extractedCovers + [cover.value];
        return Extracted;
      }
      skippedNoArt := skippedNoArt + 1;
      return NoEmbeddedArt;
    }

    /** resetStats: every counter back to 0 and the list of covers emptied. */
    method ResetStats()
      modifies this
      ensures Valid()
      ensures extracted == 0 && skippedNoArt == 0 && skippedAlreadyExists == 0 && errors == 0
      ensures extractedCovers == []
    {
      extracted, skippedNoArt, skippedAlreadyExists, errors := 0, 0, 0, 0;
      extractedCovers := [];
    }
  }
}
