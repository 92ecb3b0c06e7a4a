/**
 * The filesystem and the audio-tag library as the core sees them. Both are external: the
 * filesystem is a snapshot tree plus lookups, the tag reader is an oracle the model is given.
 */
module Disk {
  import opened Wrappers

  /** A path as its list of components; resolving a name appends it. */
  type Path = seq<string>

  type byte = b: int | 0 <= b < 256

  /** Path.resolve of a listing entry's name, which a listing never leaves empty. */
  function Resolve(p: Path, name: string): Path {
    p + [name]
  }

  /**
   * Path.resolve of an arbitrary text: the empty text resolves to the path itself, any other
   * text is one more component.
   */
  function ResolveText(p: Path, name: string): (r: Path)
    ensures name == "" ==> r == p
    ensures name != "" ==> r == Resolve(p, name) && |r| == |p| + 1 && r[|p|] == name
  {
    if name == "" then p else Resolve(p, name)
  }

  /** Resolving a folder text and then a non-empty name: one or two components more. */
  lemma ResolveTwice(p: Path, folder: string, name: string)
    requires name != ""
    ensures var r := ResolveText(ResolveText(p, folder), name);
      && |r| == |p| + (if folder == "" then 1 else 2) && r[..|p|] == p && r[|r| - 1] == name
      && (folder != "" ==> r[|p|] == folder)
  {
    var r := ResolveText(ResolveText(p, folder), name);
    if folder == "" {
      assert r == p + [name];
    } else {
      assert r == p + [folder] + [name];
    }
  }

  /** File.getName: the last component ("" for the empty path). */
  function FileName(p: Path): string {
    if p == [] then "" else p[|p| - 1]
  }

  /**
   * A directory entry. The entries of a folder are in the order listFiles returns them;
   * a regular file's size is None when Files.size fails.
   */
  datatype Node = Folder(name: string, entries: seq<Node>) | RegularFile(name: string, size: Option<nat>)

  /** listFiles(File::isDirectory), in listing order. */
  function Subdirectories(entries: seq<Node>): (r: seq<Node>)
    ensures |r| <= |entries|
    ensures forall i :: 0 <= i < |r| ==> r[i].Folder? && r[i] in entries
  {
    if entries == [] then []
    else (if entries[0].Folder? then [entries[0]] else []) + Subdirectories(entries[1..])
  }

  /** listFiles(File::isFile), in listing order. */
  function RegularFiles(entries: seq<Node>): (r: seq<Node>)
    ensures |r| <= |entries|
    ensures forall i :: 0 <= i < |r| ==> r[i].RegularFile? && r[i] in entries
  {
    if entries == [] then []
    else (if entries[0].RegularFile? then [entries[0]] else []) + RegularFiles(entries[1..])
  }

  /** The paths of some entries of the folder at dir. */
  function PathsOf(dir: Path, entries: seq<Node>): (r: seq<Path>)
    ensures |r| == |entries|
    ensures forall i :: 0 <= i < |entries| ==> r[i] == Resolve(dir, entries[i].name)
  {
    if entries == [] then [] else [Resolve(dir, entries[0].name)] + PathsOf(dir, entries[1..])
  }

  /** What the filesystem holds at a path, if anything. */
  type Volume = Path -> Option<Node>

  /** Files.isDirectory. */
  predicate IsDirectory(volume: Volume, p: Path) {
    volume(p).Some? && volume(p).value.Folder?
  }

  /** AudioHeader: the format, the bit-rate text ("~" marks VBR) and the sample-rate text. */
  datatype AudioHeader = AudioHeader(format: string, bitRate: string, sampleRate: string)

  /**
   * Tag: the first value of YEAR, ALBUM and ARTIST (null when absent), and the artwork
   * list (null or a list of binary payloads, each possibly null).
   */
  datatype Tag = Tag(year: Option<string>, album: Option<string>, artist: Option<string>,
                     artwork: Option<seq<Option<seq<byte>>>>)

  /** AudioFileIO.read: it throws (ReadFailed) or yields a header and a tag, each possibly null. */
  datatype AudioRead = ReadFailed | Read(header: Option<AudioHeader>, tag: Option<Tag>)

  type TagReader = Path -> AudioRead
}
