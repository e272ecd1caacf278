/**
 * The earlier, synchronous crawler: the same JPEG filter and relative-path
 * derivation, an insert loop that attempts every row and ignores failures,
 * a photo listing folded into a map from id to path, and a random-photo
 * query that keeps the last row it sees.
 */
module LegacyCrawler {
  import opened Wrappers
  import opened Text
  import CrawlerHelpers

  /** A row of a legacy query: an id and a full path, or a row that failed to arrive. */
  datatype LegacyRow = RowOk(id: u64, fullPath: string) | RowErr

  /** The legacy JPEG filter, written out again in the legacy crawler: it accepts exactly the names the current one accepts. */
  function IsJpg(fileName: Option<string>): (r: bool)
    ensures r == CrawlerHelpers.IsJpg(fileName)
  {
    match fileName
    case Some(s) => EndsWith(s, ".jpg") || EndsWith(s, ".jpeg") || EndsWith(s, ".JPG") || EndsWith(s, ".JPEG")
    case None => false
  }

  /**
   * Collects the relative path of every JPEG entry, in walk order; the
   * result is the one the current crawler computes.
   */
  method GetPathsOfImages(searchPath: string, entries: seq<CrawlerHelpers.DirEntry>) returns (paths: seq<string>)
    ensures paths == CrawlerHelpers.ImagePaths(searchPath, entries)
  {
    paths := [];
    var i := 0;
    while i < |entries|
      invariant 0 <= i <= |entries|
      invariant paths == CrawlerHelpers.ImagePaths(searchPath, entries[..i])
    {
      var entry := entries[i];
      if IsJpg(entry.fileName) {
        var crawlPathLen := |searchPath|;
        var fullPath := entry.path.GetOr("");
        var relativePath := if crawlPathLen <= |fullPath| then fullPath[crawlPathLen..] else "";
        paths := paths + [relativePath];
      }
      assert entries[..i + 1][..i] == entries[..i];
      i := i + 1;
    }
    assert entries[..i] == entries;
  }

  /** The rows written when every insert is attempted: those whose insert passed, in order. */
  function StoredRows(images: seq<CrawlerHelpers.GalleryImage>, sourceId: nat, outcome: nat -> Outcome<string>): (rows: seq<CrawlerHelpers.PhotoRow>)
    ensures |rows| <= |images|
  {
    if images == [] then []
    else
      var n := |images| - 1;
      StoredRows(images[..n], sourceId, outcome)
        + (if outcome(n).Pass? then [CrawlerHelpers.PhotoRow(images[n].relativePath, sourceId, images[n].size)] else [])
  }

  /**
   * Attempts one insert per image, in order; a failed insert is only
   * reported, and the result is always `Ok(true)`.
   */
  method SaveImagesToDb(images: seq<CrawlerHelpers.GalleryImage>, sourceId: u64, outcome: nat -> Outcome<string>)
    returns (stored: seq<CrawlerHelpers.PhotoRow>, result: Result<bool, string>)
    ensures result == Success(true)
    ensures stored == StoredRows(images, sourceId, outcome)
  {
    stored := [];
    var i := 0;
    while i < |images|
      invariant 0 <= i <= |images|
      invariant stored == StoredRows(images[..i], sourceId, outcome)
    {
      var image := images[i];
      match outcome(i) {
        case Pass =>
          stored := stored + [CrawlerHelpers.PhotoRow(image.relativePath, sourceId, image.size)];
        case Fail(_) =>
      }
      assert images[..i + 1][..i] == images[..i];
      i := i + 1;
    }
    assert images[..i] == images;
    result := Success(true);
  }

  /**
   * Crawls a source directory: the same paths and images as the current
   * crawler, then the legacy insert loop.
   */
  method CrawlSource(crawlPath: string, sourceId: u64, entries: seq<CrawlerHelpers.DirEntry>,
                     fileSize: string -> Option<u64>, outcome: nat -> Outcome<string>)
    returns (images: seq<CrawlerHelpers.GalleryImage>, stored: seq<CrawlerHelpers.PhotoRow>, result: Result<bool, string>)
    requires forall p | p in CrawlerHelpers.ImagePaths(crawlPath, entries) :: fileSize(crawlPath + p).Some?
    ensures images == CrawlerHelpers.GalleryImages(crawlPath, CrawlerHelpers.ImagePaths(crawlPath, entries), fileSize)
    ensures result == Success(true)
    ensures stored == StoredRows(images, sourceId, outcome)
  {
    var sourcePath := crawlPath;
    var relativePaths := GetPathsOfImages(crawlPath, entries);
    images := [];
    var i := 0;
    while i < |relativePaths|
      invariant 0 <= i <= |relativePaths|
      invariant images == CrawlerHelpers.GalleryImages(sourcePath, relativePaths[..i], fileSize)
    {
      var relPath := relativePaths[i];
      var fullPath := sourcePath + relPath;
      assert relPath in CrawlerHelpers.ImagePaths(crawlPath, entries);
      var size := fileSize(fullPath).value;
      images := images + [CrawlerHelpers.GalleryImage(sourcePath, relPath, size)];
      assert relativePaths[..i + 1][..i] == relativePaths[..i];
      i := i + 1;
    }
    assert relativePaths[..i] == relativePaths;
    stored, result := SaveImagesToDb(images, sourceId, outcome);
  }

  /** The map the photo listing builds: each successful row inserted in turn, failed rows skipped. */
  function PhotoMap(rows: seq<LegacyRow>): map<u64, string> {
    if rows == [] then map[]
    else
      var n := |rows| - 1;
      match rows[n]
      case RowOk(id, fullPath) => PhotoMap(rows[..n])[id := fullPath]
      case RowErr => PhotoMap(rows[..n])
  }

  /** Lists the photos of a source as a map from id to full path. */
  method GetPhotos(rows: seq<LegacyRow>) returns (images: map<u64, string>)
    ensures images == PhotoMap(rows)
  {
    images := map[];
    var i := 0;
    while i < |rows|
      invariant 0 <= i <= |rows|
      invariant images == PhotoMap(rows[..i])
    {
      match rows[i] {
        case RowOk(id, fullPath) =>
          images := images[id := fullPath];
        case RowErr =>
      }
      assert rows[..i + 1][..i] == rows[..i];
      i := i + 1;
    }
    assert rows[..i] == rows;
  }

  /**
   * The random photo: the pair from the last row; `(0, "")` when there are
   * no rows or the last row failed.
   */
  method GetPhotoRand(rows: seq<LegacyRow>) returns (id: u64, fullPath: string)
    ensures rows == [] ==> id == 0 && fullPath == ""
    ensures rows != [] && rows[|rows| - 1].RowErr? ==> id == 0 && fullPath == ""
    ensures rows != [] && rows[|rows| - 1].RowOk? ==> id == rows[|rows| - 1].id && fullPath == rows[|rows| - 1].fullPath
  {
    id, fullPath := 0, "";
    var i := 0;
    while i < |rows|
      invariant 0 <= i <= |rows|
      invariant i == 0 ==> id == 0 && fullPath == ""
      invariant i > 0 && rows[i - 1].RowErr? ==> id == 0 && fullPath == ""
      invariant i > 0 && rows[i - 1].RowOk? ==> id == rows[i - 1].id && fullPath == rows[i - 1].fullPath
    {
      match rows[i] {
        case RowOk(rowId, rowPath) =>
          id, fullPath := rowId, rowPath;
        case RowErr =>
          id, fullPath := 0, "";
      }
      i := i + 1;
    }
  }

  // ----- Properties -----

  /** An id is a key exactly when some successful row carries it. */
  lemma {:induction false} PhotoMapKeys(rows: seq<LegacyRow>, id: u64)
    ensures id in PhotoMap(rows) <==> exists i | 0 <= i < |rows| :: rows[i].RowOk? && rows[i].id == id
  {
    if rows != [] {
      var n := |rows| - 1;
      PhotoMapKeys(rows[..n], id);
      if exists i | 0 <= i < n :: rows[..n][i].RowOk? && rows[..n][i].id == id {
        var i :| 0 <= i < n && rows[..n][i].RowOk? && rows[..n][i].id == id;
        assert rows[i] == rows[..n][i];
      }
      if exists i | 0 <= i < |rows| :: rows[i].RowOk? && rows[i].id == id {
        var i :| 0 <= i < |rows| && rows[i].RowOk? && rows[i].id == id;
        if i < n {
          assert rows[..n][i] == rows[i];
        }
      }
    }
  }

  /** A later row with the same id overwrites: the path kept is that of the last successful row with the id. */
  lemma {:induction false} PhotoMapLastWins(rows: seq<LegacyRow>, i: nat)
    requires i < |rows| && rows[i].RowOk?
    requires forall j | i < j < |rows| :: !(rows[j].RowOk? && rows[j].id == rows[i].id)
    ensures rows[i].id in PhotoMap(rows) && PhotoMap(rows)[rows[i].id] == rows[i].fullPath
  {
    var n := |rows| - 1;
    if i < n {
      assert rows[..n][i] == rows[i];
      forall j | i < j < n ensures !(rows[..n][j].RowOk? && rows[..n][j].id == rows[i].id) {
        assert rows[..n][j] == rows[j];
      }
      PhotoMapLastWins(rows[..n], i);
    }
  }

  /**
   * The two insert policies agree when every insert succeeds; when one
   * fails, the current crawler reports the error and keeps only the rows
   * before it, while the legacy one reports success and keeps every
   * successful row.
   */
  lemma {:induction false} StoredRowsAllPass(images: seq<CrawlerHelpers.GalleryImage>, sourceId: nat, outcome: nat -> Outcome<string>)
    requires forall k | 0 <= k < |images| :: outcome(k).Pass?
    ensures StoredRows(images, sourceId, outcome) == CrawlerHelpers.Rows(images, sourceId)
  {
    if images != [] {
      var n := |images| - 1;
      StoredRowsAllPass(images[..n], sourceId, outcome);
      assert CrawlerHelpers.Rows(images, sourceId)[..n] == CrawlerHelpers.Rows(images[..n], sourceId);
    }
  }

  /** A failed insert loses exactly its own row: the stored rows are those of the images whose insert passed. */
  lemma {:induction false} StoredRowsCount(images: seq<CrawlerHelpers.GalleryImage>, sourceId: nat, outcome: nat -> Outcome<string>)
    ensures |StoredRows(images, sourceId, outcome)| == |set k | 0 <= k < |images| && outcome(k).Pass?|
  {
    if images != [] {
      var n := |images| - 1;
      StoredRowsCount(images[..n], sourceId, outcome);
      var before := set k | 0 <= k < n && outcome(k).Pass?;
      var after := set k | 0 <= k < |images| && outcome(k).Pass?;
      if outcome(n).Pass? {
        assert after == before + {n};
      } else {
        assert after == before;
      }
    }
  }
}
