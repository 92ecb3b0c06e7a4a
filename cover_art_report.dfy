/**
 * CoverArtReport: what a cover-art run found, as three lists that only grow (covers taken from
 * tags, covers downloaded online, directories still missing one) and two counters.
 */
module CoverArtReports {
  import opened Wrappers
  import opened Disk

  /** A cover that was saved; source is "tags" or "musicbrainz". Artist and album may be null. */
  datatype CoverResult = CoverResult(coverPath: Path, albumDirectory: Path, artist: Option<string>,
                                     album: Option<string>, sizeBytes: int, source: string)

  /** A directory left without a cover; reason is "no_tags", "not_found", "no_embedded" or null. */
  datatype MissingCover = MissingCover(albumDirectory: Path, artist: Option<string>,
                                       album: Option<string>, reason: Option<string>)

  class CoverArtReport {
    const sourceDirectory: Path
    var extractedFromTags: seq<CoverResult>
    var downloadedOnline: seq<CoverResult>
    var missingCovers: seq<MissingCover>
    var totalDirectories: int
    var alreadyHadCover: int

    /** A new report: empty lists and both counters at 0. */
    constructor(sourceDirectory: Path)
      ensures this.sourceDirectory == sourceDirectory
      ensures extractedFromTags == [] && downloadedOnline == [] && missingCovers == []
      ensures totalDirectories == 0 && alreadyHadCover == 0
      ensures TotalExtracted() == 0
    {
      this.sourceDirectory := sourceDirectory;
      extractedFromTags, downloadedOnline, missingCovers := [], [], [];
      totalDirectories, alreadyHadCover := 0, 0;
    }

    /** getAllExtracted: a fresh list holding the tag covers, then the downloaded ones. */
    function AllExtracted(): (all: seq<CoverResult>)
      reads this
      ensures |all| == |extractedFromTags| + |downloadedOnline|
      ensures forall i :: 0 <= i < |extractedFromTags| ==> all[i] == extractedFromTags[i]
      ensures forall i :: 0 <= i < |downloadedOnline| ==> all[|extractedFromTags| + i] == downloadedOnline[i]
    {
      extractedFromTags + downloadedOnline
    }

    /** getTotalExtracted: the number of covers saved, whichever way they were found. */
    function TotalExtracted(): (n: nat)
      reads this
      ensures n == |AllExtracted()|
      ensures n == 0 <==> extractedFromTags == [] && downloadedOnline == []
    {
      |extractedFromTags| + |downloadedOnline|
    }

    /** Every saved cover appears in the combined list, and nothing else does. */
    lemma AllExtractedMembers(c: CoverResult)
      ensures c in AllExtracted() <==> c in extractedFromTags || c in downloadedOnline
    {
      if c in AllExtracted() {
        var i :| 0 <= i < |AllExtracted()| && AllExtracted()[i] == c;
        if i >= |extractedFromTags| {
          assert downloadedOnline[i - |extractedFromTags|] == c;
        }
      }
    }

    /** addExtractedFromTags: appends to that list only. */
    method AddExtractedFromTags(result: CoverResult)
      modifies this
      ensures extractedFromTags == old(extractedFromTags) + [result]
      ensures downloadedOnline == old(downloadedOnline) && missingCovers == old(missingCovers)
      ensures totalDirectories == old(totalDirectories) && alreadyHadCover == old(alreadyHadCover)
      ensures TotalExtracted() == old(TotalExtracted()) + 1
    {
      extractedFromTags := extractedFromTags + [result];
    }

    /** addDownloadedOnline: appends to that list only. */
    method AddDownloadedOnline(result: CoverResult)
      modifies this
      ensures downloadedOnline == old(downloadedOnline) + [result]
      ensures extractedFromTags == old(extractedFromTags) && missingCovers == old(missingCovers)
      ensures totalDirectories == old(totalDirectories) && alreadyHadCover == old(alreadyHadCover)
      ensures TotalExtracted() == old(TotalExtracted()) + 1
    {
      downloadedOnline := downloadedOnline + [result];
    }

    /** addMissingCover: appends to that list only; the number of saved covers stays put. */
    method AddMissingCover(missing: MissingCover)
      modifies this
      ensures missingCovers == old(missingCovers) + [missing]
      ensures extractedFromTags == old(extractedFromTags) && downloadedOnline == old(downloadedOnline)
      ensures totalDirectories == old(totalDirectories) && alreadyHadCover == old(alreadyHadCover)
    {
      missingCovers := missingCovers + [missing];
    }

    /** setTotalDirectories: stores its argument and nothing else. */
    method SetTotalDirectories(n: int)
      modifies this
      ensures totalDirectories == n && alreadyHadCover == old(alreadyHadCover)
      ensures extractedFromTags == old(extractedFromTags) && downloadedOnline == old(downloadedOnline)
      ensures missingCovers == old(missingCovers)
    {
      totalDirectories := n;
    }

    /** setAlreadyHadCover: stores its argument and nothing else. */
    method SetAlreadyHadCover(n: int)
      modifies this
      ensures alreadyHadCover == n && totalDirectories == old(totalDirectories)
      ensures extractedFromTags == old(extractedFromTags) && downloadedOnline == old(downloadedOnline)
      ensures missingCovers == old(missingCovers)
    {
      alreadyHadCover := n;
    }
  }
}
