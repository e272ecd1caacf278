# tag-gallery: processing pipeline, crawler helpers and API errors in Dafny

This project models the decision logic of the tag-gallery photo backend
(a Rust service built on Rocket, sqlx, tokio, `exiftool` and ImageMagick's
`convert`), against abstract inputs in place of the database, the file
system and the external tools:

- **EXIF metadata readers** (`exif_readers.dfy`, module `ExifReaders`): GPS
  latitude and longitude as `d + m/60 + s/3600` from the first three RATIONAL
  components, altitude from the first component only, each negated when the
  reference tag displays exactly `"S"`, `"W"` or `"below sea level"`; GPS
  date, GPS time and capture date-time as the tag's displayed text or `""`;
  width and height as the dimension tool's output parsed as a `u32`, or `0`.
  These follow the GPS attribute tags of Exif (CIPA DC-008, section 4.6.6).
  The EXIF segment is a tag table (`map<Tag, Field>`) holding each field's
  value and its displayed text; rationals are taken as `real`.
- **Rendition plan** (`thumbnails.dfy`, module `Thumbnails`): for every photo,
  in list order, a 1200x1200 quality-75 resize into `<g>/large/<id>.jpg`, the
  embedded-thumbnail extraction, the medium rendition into
  `<g>/medium/<id>.jpg` (bytes written verbatim, or a 600x600 quality-70
  resize when the extraction printed nothing, or nothing when the tool did not
  start), and a 200x200 quality-50 resize into `<g>/small/<id>.jpg`.
- **Processing pool** (`pool_async.dfy`, module `PoolAsync`): the metadata
  loop over a source's photos, and the pool as a class with the queue of
  submitted jobs, the completions the worker has sent (`pending`) and the log
  of done jobs (`doneJobs`). A worker turn runs the renditions, then the
  metadata, then sends a `JobDone` for the job's source. A status query first
  moves every pending completion into the log, in order, then searches the
  log. The log only grows, so "done" never reverts, and only submitted sources
  are ever done.
- **Crawler helpers**, current (`crawler_helpers.dfy`, module
  `CrawlerHelpers`) and legacy (`legacy_crawler.dfy`, module
  `LegacyCrawler`): the case-exact `.jpg`/`.jpeg`/`.JPG`/`.JPEG` filter, the
  relative path as the walked path minus the first |search path| characters
  and its rebuilding by concatenation, one gallery image per found file, the
  insert loops, and the photo listings. The current insert loop stops at the
  first failure and returns it; the legacy one attempts every insert and
  always returns `Ok(true)`. The legacy listing folds rows into a map where a
  later row wins, and the legacy random photo is the last row's pair.
- **API errors** (`api_errors.dfy`, `error_conversion.dfy`): the numeric error
  codes, the display texts, the documented response codes, the conversions of
  library errors into `ApiError`, and the response status.

Helpers: `wrappers.dfy` (Option, Result, Outcome and the unsigned integer
types) and `text.dfy` (prefixes, suffixes, decimal rendering and reading).

Points where the code behaves differently from what one might expect, modelled
as the code behaves:
- a submission waits for the worker rather than failing with "busy";
- the orientation copy onto the medium rendition (src/pool_async.rs:463) calls
  an `async fn` without awaiting it, so it never runs, and the plan has no such
  action;
- a photo file that cannot be opened or whose EXIF segment cannot be parsed
  makes the processing panic (`unwrap`) rather than yield default metadata.
  The model makes readability a precondition;
- the computed metadata is not stored, and the source is not marked
  "resized". Both statements are commented out;
- the status query is commented out as well. The model gives it the
  behaviour of the commented-out text, because the pool's log of done jobs
  has no meaning without it.

## Model

| member | source | states |
|---|---|---|
| `Text.DecimalInjective` | src/pool_async.rs:428 | distinct ids render as distinct decimal texts (via the round trip of rendering and reading digits) |
| `ExifReaders.Coordinate` | src/pool_async.rs:209-219 | an absent tag, a non-RATIONAL value or an empty vector gives 0; a RATIONAL vector [d, m, s, ...] gives d + m/60 + s/3600 |
| `ExifReaders.LatitudeRef` | src/pool_async.rs:259-269 | the normalised reference is "N" or "S", and it is "S" exactly when the field displays "S" (any other text and an absent tag give "N") |
| `ExifReaders.LongitudeRef` | src/pool_async.rs:222-232 | the normalised reference is "E" or "W", and it is "W" exactly when the field displays "W" (any other text and an absent tag give "E") |
| `ExifReaders.AltitudeRef` | src/pool_async.rs:294-307 | the normalised reference is "above sea level" or "below sea level", the latter exactly when the field displays it |
| `ExifReaders.ReadLatitude` | src/pool_async.rs:244-274 | the coordinate is negated exactly when the latitude reference displays "S"; any other text or an absent tag leaves it unchanged |
| `ExifReaders.ReadLongitude` | src/pool_async.rs:208-237 | the coordinate is negated exactly when the longitude reference displays "W"; otherwise unchanged |
| `ExifReaders.Altitude` | src/pool_async.rs:282-291 | the altitude is the first RATIONAL component only, 0 when absent, non-RATIONAL or empty |
| `ExifReaders.ReadAltitude` | src/pool_async.rs:281-313 | negated exactly when the altitude reference displays "below sea level"; otherwise unchanged |
| `ExifReaders.ReadGpsDate` | src/pool_async.rs:320-329 | the GPS date stamp's displayed text when the tag is present, else "" |
| `ExifReaders.ReadGpsTime` | src/pool_async.rs:336-345 | the GPS time stamp's displayed text when present, else "" |
| `ExifReaders.ReadExifDatetime` | src/pool_async.rs:352-361 | the DateTime tag's displayed text when present, else "" |
| `ExifReaders.ParseU32` | src/pool_async.rs:372-375 | only an optional '+' followed by decimal digits parses, to a value below 2^32 |
| `ExifReaders.ReadDimension` | src/pool_async.rs:363-391 | the tool's output parsed as u32, or 0 when it does not parse |
| `ExifReaders.ReadMetadata` | src/pool_async.rs:160-167 | the record holds the eight readers' results for the photo |
| `ExifReaders.LatitudeFromDms` | src/pool_async.rs:248-273 | for a vector [d, m, s, ...] the latitude is d + m/60 + s/3600, negated exactly when the reference displays "S" |
| `ExifReaders.LongitudeFromDms` | src/pool_async.rs:212-236 | for [d, m, s, ...] the longitude is d + m/60 + s/3600, negated exactly when the reference displays "W" |
| `ExifReaders.LatitudeNonNegativeUnlessSouth` | src/pool_async.rs:259-272 | with non-negative components, a negative latitude implies the reference displays exactly "S" |
| `ExifReaders.LatitudeExample` | src/pool_async.rs:250-272 | (10, 30, 0) reads as -10.5 with reference "S" and as 10.5 otherwise |
| `ExifReaders.AltitudeExample` | src/pool_async.rs:286-310 | altitude 5 reads as -5 below sea level and as 5 otherwise |
| `ExifReaders.ParseU32RoundTrip` | src/pool_async.rs:372-375 | every u32 rendered in decimal, with or without a leading '+', parses back to itself |
| `ExifReaders.ReadDimensionOverflow` | src/pool_async.rs:387-390 | a number of 2^32 or more reads as 0 |
| `ExifReaders.ReadDimensionOfOutput` | src/pool_async.rs:372-375 | a printed dimension reads back unchanged; with a trailing newline it reads as 0 |
| `ExifReaders.EmptyTableDefaults` | src/pool_async.rs:160-167 | an empty tag table and empty tool outputs give the all-zero, all-empty record |
| `Thumbnails.PhotoPlan` | src/pool_async.rs:421-475 | a photo's actions start with the 1200x1200 quality-75 resize to the large path and the extraction, and end with the 200x200 quality-50 resize to the small path |
| `Thumbnails.CreateThumbsInSource` | src/pool_async.rs:411-479 | the actions issued are each photo's plan in list order, and the result is Ok(0) |
| `Thumbnails.RenditionPathLayout` | src/pool_async.rs:428-472 | a rendition path starts with `<gallery>/<size>/` and ends with the decimal id followed by ".jpg", and has no other characters |
| `Thumbnails.MediumActions` | src/pool_async.rs:435-460 | the medium step is empty exactly when the extraction tool did not start, has at most one action, and that action writes the medium path or resizes the photo into it |
| `Thumbnails.CreateThumbsOfPhoto` | src/pool_async.rs:421-475 | the actions issued for one photo, through the branches on the extraction's answer, are that photo's plan |
| `Thumbnails.SourcePlanStep` | src/pool_async.rs:418-476 | taking one more photo of the list appends exactly that photo's plan to the source plan |
| `Thumbnails.PhotoOutputSize` | src/pool_async.rs:428-472 | every file one photo writes is its large, medium or small rendition path |
| `Thumbnails.RenditionPathInjective` | src/pool_async.rs:428-472 | a rendition path determines its size and its id: distinct ids give distinct paths |
| `Thumbnails.PhotoOutputs` | src/pool_async.rs:421-475 | a photo writes large, then medium unless the extraction tool failed to start, then small |
| `Thumbnails.MediumRendition` | src/pool_async.rs:433-460 | non-empty extracted bytes are written verbatim to the medium path; empty output gives a 600x600 quality-70 resize there; a spawn failure writes no medium file |
| `Thumbnails.SourceOutputsAreRenditions` | src/pool_async.rs:418-476 | every file a source's processing writes is a rendition path of one of its photos |
| `Thumbnails.PhotoOutputsDistinct` | src/pool_async.rs:428-472 | one photo never writes the same file twice |
| `Thumbnails.PhotoOutputsFresh` | src/pool_async.rs:418-476 | a photo whose id no earlier photo has writes none of the files the earlier photos wrote |
| `Thumbnails.SourceOutputsDistinct` | src/pool_async.rs:418-476 | photos with distinct ids never write the same file twice |
| `Thumbnails.SourceOutputCount` | src/pool_async.rs:418-476 | when every extraction tool starts, n photos get 3n rendition files |
| `PoolAsync.ProcessExif` | src/pool_async.rs:149-201 | the records read are those of every photo of the source, in order; the result is Ok(0) |
| `PoolAsync.RecordsPointwise` | src/pool_async.rs:152-167 | the k-th record is the one read from the k-th photo's tag table and its two dimension outputs |
| `PoolAsync.FindDone` | src/pool_async.rs:136-144 | the search answers true exactly when some logged completion has the source id |
| `PoolAsync.ImageProcessorPoolAsync.constructor` | src/pool_async.rs:102-108 | a new pool has no queued job, no pending completion and an empty log |
| `PoolAsync.ImageProcessorPoolAsync.AddSourceToProcess` | src/pool_async.rs:112-121 | the job is appended to the queue and the result is Ok(true); the log is unchanged |
| `PoolAsync.ImageProcessorPoolAsync.RunNextJob` | src/pool_async.rs:52-98 | the worker takes the first job, issues the rendition plan and the metadata records of its source's photos, and sends a completion with the same source id whatever the steps returned; the log is unchanged |
| `PoolAsync.ImageProcessorPoolAsync.StatusOf` | src/pool_async.rs:123-145 | pending completions are appended to the log in order, then the answer is true exactly when the log holds the source id, which implies it was submitted |
| `PoolAsync.SubmitKeepsOrder` | src/pool_async.rs:112-121 | queueing a job keeps every submitted id accounted for as done, pending or queued, in submission order |
| `PoolAsync.CompleteKeepsOrder` | src/pool_async.rs:52-98 | taking the first job and sending its completion keeps every submitted id accounted for, in submission order |
| `PoolAsync.LoggedMonotone` | src/pool_async.rs:123-145 | a source found in the log is still found after the log grows |
| `PoolAsync.LoggedWasSubmitted` | src/pool_async.rs:112-145 | a source never submitted is never reported done |
| `PoolAsync.CompletionOrder` | src/pool_async.rs:52-98 | the log's source ids are the first submitted ids, in submission order |
| `CrawlerHelpers.Extension` | src/endpoints/crawler/helpers.rs:104-115 | the text after the last '.' has no '.' and ends the name |
| `CrawlerHelpers.EndsWithDotExtension` | src/endpoints/crawler/helpers.rs:109-112 | a name ends with "." + ext exactly when its text after the last '.' is ext |
| `CrawlerHelpers.IsJpg` | src/endpoints/crawler/helpers.rs:104-115 | a missing file name is rejected; an accepted name has at least four characters and contains a dot |
| `CrawlerHelpers.IsJpgByExtension` | src/endpoints/crawler/helpers.rs:104-115 | the filter accepts a name exactly when its extension is jpg, jpeg, JPG or JPEG (so "Jpg" is rejected) |
| `CrawlerHelpers.RelativePath` | src/endpoints/crawler/helpers.rs:83-92 | the relative path is the suffix of the walked path that is |search path| characters shorter (empty when shorter; a non-UTF-8 path counts as "") |
| `CrawlerHelpers.RebuildFullPath` | src/endpoints/crawler/helpers.rs:55 | when the walked path starts with the search path, search path + relative path is the walked path |
| `CrawlerHelpers.GetPathsOfImages` | src/endpoints/crawler/helpers.rs:71-99 | the collected paths are those of the JPEG entries, one per entry, in walk order |
| `CrawlerHelpers.JpgEntriesMembership` | src/endpoints/crawler/helpers.rs:76-82 | an entry is kept exactly when it was walked and passes the JPEG test |
| `CrawlerHelpers.JpgEntriesAppend` | src/endpoints/crawler/helpers.rs:76-97 | the filter keeps walk order across concatenation |
| `CrawlerHelpers.ImagePathsPointwise` | src/endpoints/crawler/helpers.rs:76-97 | the k-th collected path is the relative path of the k-th JPEG entry |
| `CrawlerHelpers.GalleryImages` | src/endpoints/crawler/helpers.rs:54-65 | one gallery image per relative path, in order, carrying the unchanged source path, the relative path and the size of the rebuilt full path |
| `CrawlerHelpers.CrawledImageRebuildsPath` | src/endpoints/crawler/helpers.rs:54-65 | the full path rebuilt for the k-th image is the walked file's own path |
| `CrawlerHelpers.Rows` | src/endpoints/crawler/helpers.rs:125-137 | one inserted row per image, in order, with its relative path, the source id and its size |
| `CrawlerHelpers.SaveImagesToDb` | src/endpoints/crawler/helpers.rs:120-139 | Ok(true) exactly when every insert succeeds; otherwise the first failure's error, with the rows before it kept |
| `CrawlerHelpers.CrawlSource` | src/endpoints/crawler/helpers.rs:44-68 | the images built from the walk's JPEG paths are inserted with the same stop-at-first-failure policy |
| `CrawlerHelpers.GetPhotos` | src/endpoints/crawler/helpers.rs:141-167 | a query error is passed on; otherwise rows map one to one and in order to images with the same id and path |
| `CrawlerHelpers.ImagesOfRows` | src/endpoints/crawler/helpers.rs:158-164 | each row becomes the image with its id and its non-NULL path |
| `LegacyCrawler.GetPathsOfImages` | src/crawler.rs:111-139 | the legacy walk collects exactly the paths the current crawler collects |
| `LegacyCrawler.IsJpg` | src/crawler.rs:47-58 | the legacy filter accepts exactly the names the current one accepts |
| `LegacyCrawler.SaveImagesToDb` | src/crawler.rs:86-108 | every insert is attempted; the rows kept are those whose insert passed, and the result is always Ok(true) |
| `LegacyCrawler.CrawlSource` | src/crawler.rs:61-81 | the same images as the current crawler, with the legacy insert policy and an Ok(true) result |
| `LegacyCrawler.GetPhotos` | src/crawler.rs:141-169 | the map is the fold of the successful rows, each inserted in turn |
| `LegacyCrawler.PhotoMapKeys` | src/crawler.rs:157-166 | an id is a key exactly when some successful row carries it |
| `LegacyCrawler.PhotoMapLastWins` | src/crawler.rs:160-165 | the path kept for an id is that of its last successful row |
| `LegacyCrawler.GetPhotoRand` | src/crawler.rs:171-199 | the pair of the last row; (0, "") when there are no rows or the last row failed |
| `LegacyCrawler.StoredRowsAllPass` | src/crawler.rs:89-107 | when every insert passes, the legacy loop keeps the same rows as the current one |
| `LegacyCrawler.StoredRowsCount` | src/crawler.rs:89-107 | the number of rows kept is the number of inserts that passed |
| `ApiErrors.ApiErrorCode.Code` | src/error.rs:15-24 | the codes are 100, 200, 1001, 1005 and 1008, the low-level ones below 1000 |
| `ApiErrors.CodeOf` | src/error.rs:15-24 | reading a number back yields only a code with that number |
| `ApiErrors.CodeRoundTrip` | src/error.rs:15-24 | the number determines the code, so the five codes are pairwise distinct |
| `ApiErrors.ApiErrorCode.Name` | src/error.rs:118-122 | a code displays as its variant name |
| `ApiErrors.Display` | src/error.rs:107-116 | the text starts with "Error `<title>`: " and ends with the message, or "<no message>" when absent |
| `ApiErrors.DisplayDeterminesMessage` | src/error.rs:107-116 | for one title, two errors display alike exactly when their rendered messages agree |
| `ApiErrors.MissingMessageIndistinguishable` | src/error.rs:113 | a missing message and the message "<no message>" display the same |
| `ApiErrors.DocumentedResponses` | src/error.rs:44-99 | the documented responses are keyed by exactly 400, 404, 422, 450 and 500 |
| `ApiErrors.DocumentedStatuses` | src/error.rs:44-99 | a status code is documented exactly when it is 400, 404, 422, 450 or 500 |
| `ErrorConversion.FromJsonError` | src/error/conversion.rs:17-35 | a JSON I/O error becomes "IO Error" / IoError and a JSON parse error "Parse Error" / ParseError, both 422 with the underlying text as message |
| `ErrorConversion.FromValidationErrors` | src/error/conversion.rs:49-58 | validation errors become "Parse Error" / ParseError / 422 with the report as message |
| `ErrorConversion.FromIoError` | src/error/conversion.rs:60-69 | any I/O error becomes "IO Error" / IoError / 450 with the fixed message "IO Error" |
| `ErrorConversion.RespondTo` | src/error/conversion.rs:37-47 | the response carries the error's own status code and a JSON content type |
| `ErrorConversion.ConversionsCoherent` | src/error/conversion.rs:17-69 | every conversion's title names its code, carries a message, and has a documented status |
| `ErrorConversion.IoErrorPathsDiffer` | src/error/conversion.rs:21-68 | a JSON body I/O error answers 422 but a plain I/O error answers 450 |
| `ErrorConversion.IoErrorDisplay` | src/error/conversion.rs:60-68 | a plain I/O error always displays "Error `IO Error`: IO Error" and answers 450 |
| `ErrorConversion.ConvertedResponseDocumented` | src/error/conversion.rs:37-46 | the response status of every converted error is a documented one |

## Left out

- Concurrency: the tokio task, the two `mpsc` channels and their blocking sends and receives are sequentialised into the pool's `jobs` and `pending` sequences, without a bound. As written, `mpsc::channel(0)` is rejected by tokio at construction, so the pool could not be built; the model does not capture that.
- External processes (`convert`, `exiftool`) are not run: resizes and the extraction are actions in a plan, the extraction's answer and the dimension tool's output are inputs. A failure to start `convert` or the dimension tool panics (`expect`); the model takes every tool as started.
- The orientation copy is not an action, because the call is never awaited and so never runs.
- The EXIF parser and its display texts are a foreign library: the tag table and the displayed strings are inputs. RATIONAL components are taken as real numbers, so f64 rounding, zero denominators and the sign of -0.0 are not modelled.
- `PoolAsync.ProcessExif`: a file that cannot be opened or parsed panics; this is a precondition (`ExifReadable`), as is the length of at least three for a non-empty latitude or longitude vector.
- File I/O (`File::open`, `read_to_end`, `fs::metadata`, the directory walk) is given as inputs: walk entries, a file-size lookup and per-file answers. A walk error entry panics (`unwrap`) and is not modelled; a failing size lookup is a precondition.
- Writing the medium rendition (`File::create` and `write_all`, src/pool_async.rs:444-445) is a `WriteFile` action that is taken to succeed; a failure of either panics (`unwrap`), and that panic is not modelled.
- The result of `read_to_end` is discarded (src/pool_async.rs:156), so a read error part-way leaves the bytes read so far to be parsed. The model takes the parse answer for each file as an input and does not distinguish a full read from a partial one.
- The EXIF parse of a file is an input: the bytes of the whole file are handed to `Reader::read_raw` (src/pool_async.rs:155-158). Whether that library call accepts a whole JPEG file or only a raw Exif (TIFF) block is library behaviour; when it does not accept the file, the `unwrap` panics, which the model excludes through `ExifReadable`.
- `PoolAsync.ImageProcessorPoolAsync.AddSourceToProcess`: the model always answers `Ok(true)`. The source's `Err("Cannot send job to ImageProcessorPool")` (src/pool_async.rs:119) is returned only once the worker task has ended, and the worker ends only by panicking (the `unwrap`s and `expect`s at src/pool_async.rs:151, 154, 158, 416, 431, 444-445, 456 and 475). The model excludes those panics through preconditions, so the closed-channel branch is not reachable in it.
- SQL: the photo and source queries, the `CONCAT` of paths, and the inserts are inputs (query rows and per-insert outcomes). A failing query panics in the legacy crawler and in the pool (`unwrap`); the model takes its rows as given. The legacy `from_row` conversion is taken to succeed.
- The random choice of `ORDER BY RAND() LIMIT 1` happens in the database; the rows it returns are an input.
- Logging (`println!`) and the JSON serialisation of `ApiError` (the response body is an input).
- The markdown descriptions of the documented responses are reduced to their headings.
- `PoolAsync.ImageProcessorPoolAsync.RunNextJob`: the worker blocks until a job arrives; the model takes a turn only when a job is queued.
