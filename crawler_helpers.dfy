/**
 * The crawler's helpers: which walked files count as JPEG images, how a
 * file's path relative to its source directory is derived and rebuilt, how
 * found images are inserted into the photo table, and how photo rows are
 * read back.
 *
 * The directory walk, the file-size lookup and the database are given as
 * inputs: the walk as the sequence of entries it yields, file sizes as a
 * lookup by path, and each insert's outcome by its position.
 */
module CrawlerHelpers {
  import opened Wrappers
  import opened Text
  import opened ApiErrors

  /** A walked entry: its file name and its path, `None` where they are not valid UTF-8. */
  datatype DirEntry = DirEntry(fileName: Option<string>, path: Option<string>)

  /** An image found under a source directory. */
  datatype GalleryImage = GalleryImage(sourcePath: string, relativePath: string, size: u64)

  /** A photo to process: its row id and its absolute path. */
  datatype Image = Image(id: u32, fullPath: string)

  /** A row inserted into the photo table. */
  datatype PhotoRow = PhotoRow(relativePath: string, source: nat, filesize: u64)

  /** A row of the photo query: the id and the concatenated path, which SQL may yield as NULL. */
  datatype PhotoQueryRow = PhotoQueryRow(id: u32, fullPath: Option<string>)

  /** A file name ends with ".jpg", ".jpeg", ".JPG" or ".JPEG"; a name that is not valid UTF-8 does not. */
  function IsJpg(fileName: Option<string>): (r: bool)
    ensures fileName.None? ==> !r
    ensures r ==> |fileName.value| >= 4 && '.' in fileName.value
  {
    match fileName
    case Some(s) =>
      SuffixStart(s, ".jpg"); SuffixStart(s, ".jpeg"); SuffixStart(s, ".JPG"); SuffixStart(s, ".JPEG");
      EndsWith(s, ".jpg") || EndsWith(s, ".jpeg") || EndsWith(s, ".JPG") || EndsWith(s, ".JPEG")
    case None => false
  }

  /**
   * The text after the last '.' of a name, or `None` when the name has no
   * '.': an independent reading of "the file's extension".
   */
  function Extension(name: string): (ext: Option<string>)
    ensures ext.Some? ==> '.' !in ext.value && EndsWith(name, ext.value)
  {
    if name == [] then None
    else if name[|name| - 1] == '.' then Some([])
    else match Extension(name[..|name| - 1])
      case Some(e) => Some(e + [name[|name| - 1]])
      case None => None
  }

  /**
   * The relative path: the walked path with its first |searchPath|
   * characters dropped (a path that is not valid UTF-8 is taken as empty).
   * It is the suffix of the path of the remaining length.
   */
  function RelativePath(path: Option<string>, searchPath: string): (r: string)
    ensures var full := path.GetOr("");
      && |r| == (if |full| >= |searchPath| then |full| - |searchPath| else 0)
      && EndsWith(full, r)
  {
    var full := path.GetOr("");
    if |searchPath| <= |full| then full[|searchPath|..] else ""
  }

  /** The walked entries that pass the JPEG filter, in walk order. */
  function JpgEntries(entries: seq<DirEntry>): (r: seq<DirEntry>)
    ensures |r| <= |entries|
  {
    if entries == [] then []
    else
      var last := entries[|entries| - 1];
      JpgEntries(entries[..|entries| - 1]) + (if IsJpg(last.fileName) then [last] else [])
  }

  /** The relative paths of the JPEG entries, one per entry, in walk order. */
  function ImagePaths(searchPath: string, entries: seq<DirEntry>): (r: seq<string>)
    ensures |r| == |JpgEntries(entries)|
  {
    if entries == [] then []
    else
      var last := entries[|entries| - 1];
      ImagePaths(searchPath, entries[..|entries| - 1])
        + (if IsJpg(last.fileName) then [RelativePath(last.path, searchPath)] else [])
  }

  /**
   * Walks the entries under `searchPath` and collects the relative path of
   * every JPEG, in walk order.
   */
  method GetPathsOfImages(searchPath: string, entries: seq<DirEntry>) returns (paths: seq<string>)
    ensures paths == ImagePaths(searchPath, entries)
  {
    paths := [];
    var i := 0;
    while i < |entries|
      invariant 0 <= i <= |entries|
      invariant paths == ImagePaths(searchPath, entries[..i])
    {
      var entry := entries[i];
      if IsJpg(entry.fileName) {
        var relativePath := RelativePath(entry.path, searchPath);
        paths := paths + [relativePath];
      }
      assert entries[..i + 1][..i] == entries[..i];
      i := i + 1;
    }
    assert entries[..i] == entries;
  }

  /** The gallery images for a list of relative paths: each carries the source path unchanged and its size. */
  function GalleryImages(sourcePath: string, relativePaths: seq<string>, fileSize: string -> Option<u64>): (r: seq<GalleryImage>)
    requires forall i | 0 <= i < |relativePaths| :: fileSize(sourcePath + relativePaths[i]).Some?
    ensures |r| == |relativePaths|
    ensures forall i | 0 <= i < |r| ::
      r[i] == GalleryImage(sourcePath, relativePaths[i], fileSize(sourcePath + relativePaths[i]).value)
  {
    if relativePaths == [] then []
    else
      var n := |relativePaths| - 1;
      GalleryImages(sourcePath, relativePaths[..n], fileSize)
        + [GalleryImage(sourcePath, relativePaths[n], fileSize(sourcePath + relativePaths[n]).value)]
  }

  /** The rows the inserts of a list of images write, in order. */
  function Rows(images: seq<GalleryImage>, sourceId: nat): (rows: seq<PhotoRow>)
    ensures |rows| == |images|
    ensures forall i | 0 <= i < |rows| :: rows[i] == PhotoRow(images[i].relativePath, sourceId, images[i].size)
  {
    if images == [] then []
    else Rows(images[..|images| - 1], sourceId) + [PhotoRow(images[|images| - 1].relativePath, sourceId, images[|images| - 1].size)]
  }

  /**
   * Inserts one row per image, in order, stopping at the first insert that
   * fails and returning its error. Rows inserted before the failure stay.
   * `outcome(k)` is the database's answer to the k-th insert.
   */
  method SaveImagesToDb(images: seq<GalleryImage>, sourceId: u32, outcome: nat -> Outcome<ApiError>)
    returns (stored: seq<PhotoRow>, result: Result<bool, ApiError>)
    ensures result.Success? <==> forall k | 0 <= k < |images| :: outcome(k).Pass?
    ensures result.Success? ==> result.value && stored == Rows(images, sourceId)
    ensures result.Failure? ==>
      exists k | 0 <= k < |images| ::
        && outcome(k).Fail?
        && (forall j | 0 <= j < k :: outcome(j).Pass?)
        && result.error == outcome(k).error
        && stored == Rows(images[..k], sourceId)
  {
    stored := [];
    var i := 0;
    while i < |images|
      invariant 0 <= i <= |images|
      invariant forall j | 0 <= j < i :: outcome(j).Pass?
      invariant stored == Rows(images[..i], sourceId)
    {
      var image := images[i];
      match outcome(i) {
        case Fail(e) =>
          result := Failure(e);
          return;
        case Pass =>
          stored := stored + [PhotoRow(image.relativePath, sourceId, image.size)];
      }
      assert images[..i + 1][..i] == images[..i];
      i := i + 1;
    }
    assert images[..i] == images;
    result := Success(true);
  }

  /**
   * Crawls a source directory: collects the relative paths of its JPEGs,
   * builds one gallery image per path with the size of the file at the
   * rebuilt full path, and inserts them. The size lookup must succeed for
   * every found file.
   */
  method CrawlSource(crawlPath: string, sourceId: u32, entries: seq<DirEntry>,
                     fileSize: string -> Option<u64>, outcome: nat -> Outcome<ApiError>)
    returns (images: seq<GalleryImage>, stored: seq<PhotoRow>, result: Result<bool, ApiError>)
    requires forall p | p in ImagePaths(crawlPath, entries) :: fileSize(crawlPath + p).Some?
    ensures images == GalleryImages(crawlPath, ImagePaths(crawlPath, entries), fileSize)
    ensures result.Success? <==> forall k | 0 <= k < |images| :: outcome(k).Pass?
    ensures result.Success? ==> stored == Rows(images, sourceId)
    ensures result.Failure? ==>
      exists k | 0 <= k < |images| ::
        && outcome(k).Fail?
        && (forall j | 0 <= j < k :: outcome(j).Pass?)
        && result.error == outcome(k).error
        && stored == Rows(images[..k], sourceId)
  {
    var sourcePath := crawlPath;
    var relativePaths := GetPathsOfImages(crawlPath, entries);
    images := [];
    var i := 0;
    while i < |relativePaths|
      invariant 0 <= i <= |relativePaths|
      invariant images == GalleryImages(sourcePath, relativePaths[..i], fileSize)
    {
      var relPath := relativePaths[i];
      var fullPath := sourcePath + relPath;
      assert relPath in ImagePaths(crawlPath, entries);
      var size := fileSize(fullPath).value;
      images := images + [GalleryImage(sourcePath, relPath, size)];
      assert relativePaths[..i + 1][..i] == relativePaths[..i];
      i := i + 1;
    }
    assert relativePaths[..i] == relativePaths;
    stored, result := SaveImagesToDb(images, sourceId, outcome);
  }

  /**
   * Maps photo query rows one to one, in order, to images. A NULL path
   * would panic; the query's own error is passed on.
   */
  function GetPhotos(query: Result<seq<PhotoQueryRow>, ApiError>): (r: Result<seq<Image>, ApiError>)
    requires query.Success? ==> forall i | 0 <= i < |query.value| :: query.value[i].fullPath.Some?
    ensures query.Failure? ==> r == Failure(query.error)
    ensures query.Success? ==> r.Success? && |r.value| == |query.value|
    ensures query.Success? ==> forall i | 0 <= i < |r.value| ::
      r.value[i].id == query.value[i].id && Some(r.value[i].fullPath) == query.value[i].fullPath
  {
    match query
    case Failure(e) => Failure(e)
    case Success(rows) => Success(ImagesOfRows(rows))
  }

  function ImagesOfRows(rows: seq<PhotoQueryRow>): (images: seq<Image>)
    requires forall i | 0 <= i < |rows| :: rows[i].fullPath.Some?
    ensures |images| == |rows|
    ensures forall i | 0 <= i < |images| :: images[i] == Image(rows[i].id, rows[i].fullPath.value)
  {
    if rows == [] then [] else [Image(rows[0].id, rows[0].fullPath.value)] + ImagesOfRows(rows[1..])
  }

  // ----- Properties -----

  /**
   * The suffix test agrees with the extension reading: a name ends with
   * "." + ext (ext free of '.') exactly when the text after its last '.' is ext.
   */
  lemma {:induction false} EndsWithDotExtension(name: string, ext: string)
    requires '.' !in ext
    ensures EndsWith(name, "." + ext) <==> Extension(name) == Some(ext)
    decreases |name|
  {
    if name == [] {
    } else {
      var init, c := name[..|name| - 1], name[|name| - 1];
      assert name == init + [c];
      if ext == [] {
        if c != '.' {
          match Extension(init)
          case Some(e) =>
          case None =>
        }
      } else {
        var ext', d := ext[..|ext| - 1], ext[|ext| - 1];
        assert ext == ext' + [d];
        assert d != '.';
        EndsWithDotExtension(init, ext');
        if EndsWith(name, "." + ext) {
          assert ("." + ext)[|"." + ext| - 1] == d;
          assert name[|name| - 1] == d;
          assert ("." + ext)[..|"." + ext| - 1] == "." + ext';
          assert init[|init| - |"." + ext'|..] == name[|name| - |"." + ext|..][..|"." + ext'|];
        }
        if Extension(name) == Some(ext) {
          assert c != '.';
          assert init[|init| - |"." + ext'|..] + [c] == name[|name| - |"." + ext|..];
        }
      }
    }
  }

  /** The JPEG filter is exactly "the extension is jpg, jpeg, JPG or JPEG"; mixed case such as "Jpg" is rejected. */
  lemma IsJpgByExtension(name: string)
    ensures IsJpg(Some(name)) <==>
      Extension(name) == Some("jpg") || Extension(name) == Some("jpeg")
      || Extension(name) == Some("JPG") || Extension(name) == Some("JPEG")
  {
    assert "." + "jpg" == ".jpg" && "." + "jpeg" == ".jpeg";
    assert "." + "JPG" == ".JPG" && "." + "JPEG" == ".JPEG";
    EndsWithDotExtension(name, "jpg");
    EndsWithDotExtension(name, "jpeg");
    EndsWithDotExtension(name, "JPG");
    EndsWithDotExtension(name, "JPEG");
  }

  /** Rebuilding: when the walked path starts with the search path, search path + relative path is the walked path. */
  lemma RebuildFullPath(searchPath: string, fullPath: string)
    requires StartsWith(fullPath, searchPath)
    ensures searchPath + RelativePath(Some(fullPath), searchPath) == fullPath
  {
    assert fullPath == fullPath[..|searchPath|] + fullPath[|searchPath|..];
  }

  /** An entry is kept by the filter exactly when it was walked and passes the JPEG test. */
  lemma {:induction false} JpgEntriesMembership(entries: seq<DirEntry>, e: DirEntry)
    ensures e in JpgEntries(entries) <==> e in entries && IsJpg(e.fileName)
  {
    if entries != [] {
      var init := entries[..|entries| - 1];
      assert entries == init + [entries[|entries| - 1]];
      JpgEntriesMembership(init, e);
    }
  }

  /** The filter keeps walk order: filtering a concatenation concatenates the filtered parts. */
  lemma {:induction false} JpgEntriesAppend(a: seq<DirEntry>, b: seq<DirEntry>)
    ensures JpgEntries(a + b) == JpgEntries(a) + JpgEntries(b)
    decreases |b|
  {
    if b == [] {
      assert a + b == a;
    } else {
      var b' := b[..|b| - 1];
      assert (a + b)[..|a + b| - 1] == a + b';
      assert (a + b)[|a + b| - 1] == b[|b| - 1];
      JpgEntriesAppend(a, b');
    }
  }

  /** The k-th collected path is the relative path of the k-th JPEG entry: one path per JPEG, in walk order. */
  lemma {:induction false} ImagePathsPointwise(searchPath: string, entries: seq<DirEntry>, k: nat)
    requires k < |JpgEntries(entries)|
    ensures ImagePaths(searchPath, entries)[k] == RelativePath(JpgEntries(entries)[k].path, searchPath)
  {
    var init := entries[..|entries| - 1];
    if k < |JpgEntries(init)| {
      ImagePathsPointwise(searchPath, init, k);
    }
  }

  /** Every crawled image carries its source path, and the rebuilt path is the walked file's path. */
  lemma CrawledImageRebuildsPath(crawlPath: string, entries: seq<DirEntry>, k: nat)
    requires k < |JpgEntries(entries)|
    requires JpgEntries(entries)[k].path.Some? && StartsWith(JpgEntries(entries)[k].path.value, crawlPath)
    ensures crawlPath + ImagePaths(crawlPath, entries)[k] == JpgEntries(entries)[k].path.value
  {
    ImagePathsPointwise(crawlPath, entries, k);
    RebuildFullPath(crawlPath, JpgEntries(entries)[k].path.value);
  }
}
