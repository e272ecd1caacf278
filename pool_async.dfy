/**
 * The processing pool, sequentialised: jobs are submitted by source id; the
 * single worker takes the next job, makes the renditions of every photo of
 * the source, reads the metadata of every photo, and reports the job done;
 * a status query moves the reported completions into the log of done jobs
 * and looks the source id up there.
 *
 * The channels become sequences: `jobs` holds submitted jobs the worker has
 * not yet taken, `pending` holds completions the worker has sent and no
 * status query has yet received.
 */
module PoolAsync {
  import opened Wrappers
  import opened ExifReaders
  import CrawlerHelpers
  import Thumbnails

  datatype Job = Job(sourceId: u32)

  datatype JobDone = JobDone(sourceId: u32)

  datatype Settings = Settings(galleryFolder: string)

  /**
   * What a batch reads from outside the pool: the photos of a source (whose
   * query must succeed), the thumbnail extraction's answer per file, the
   * parsed EXIF segment per file (`None` where the file cannot be opened or
   * parsed, which the processing does not survive), and the dimension
   * tool's output per file.
   */
  datatype Environment = Environment(
    photos: u32 -> seq<CrawlerHelpers.Image>,
    extract: string -> Thumbnails.Extraction,
    readExif: string -> Option<Exif>,
    widthOutput: string -> string,
    heightOutput: string -> string)

  /** The photo's file can be read and parsed, and its coordinate vectors can be indexed. */
  predicate FileReadable(image: CrawlerHelpers.Image, readExif: string -> Option<Exif>) {
    && readExif(image.fullPath).Some?
    && DmsReadable(readExif(image.fullPath).value, GPSLatitude)
    && DmsReadable(readExif(image.fullPath).value, GPSLongitude)
  }

  predicate ExifReadable(images: seq<CrawlerHelpers.Image>, readExif: string -> Option<Exif>) {
    forall i | 0 <= i < |images| :: FileReadable(images[i], readExif)
  }

  /** The record of one photo: its tag table and the two dimension outputs for its file. */
  function PhotoRecord(image: CrawlerHelpers.Image, readExif: string -> Option<Exif>,
                       widthOutput: string -> string, heightOutput: string -> string): ExifMetadata
    requires FileReadable(image, readExif)
  {
    var path := image.fullPath;
    ReadMetadata(readExif(path).value, widthOutput(path), heightOutput(path))
  }

  /** The images of the first `n` elements of `xs` under `f`, in order. */
  function MapPrefix<A, B>(xs: seq<A>, n: nat, f: A --> B): (ys: seq<B>)
    requires n <= |xs| && forall i | 0 <= i < n :: f.requires(xs[i])
    ensures |ys| == n
  {
    if n == 0 then [] else MapPrefix(xs, n - 1, f) + [f(xs[n - 1])]
  }

  /** The reading of one photo, as a function of the photo. */
  function RecordOf(readExif: string -> Option<Exif>, widthOutput: string -> string,
                    heightOutput: string -> string): CrawlerHelpers.Image --> ExifMetadata
  {
    image requires FileReadable(image, readExif) => PhotoRecord(image, readExif, widthOutput, heightOutput)
  }

  /** The records of the first `n` photos, in order. */
  function Records(images: seq<CrawlerHelpers.Image>, n: nat, readExif: string -> Option<Exif>,
                   widthOutput: string -> string, heightOutput: string -> string): (rs: seq<ExifMetadata>)
    requires ExifReadable(images, readExif) && n <= |images|
    ensures |rs| == n
  {
    MapPrefix(images, n, RecordOf(readExif, widthOutput, heightOutput))
  }

  /**
   * Reads the metadata of every photo, in order. The records are computed
   * and not stored anywhere. Always reports `Ok(0)`.
   */
  method ProcessExif(images: seq<CrawlerHelpers.Image>, readExif: string -> Option<Exif>,
                     widthOutput: string -> string, heightOutput: string -> string)
    returns (records: seq<ExifMetadata>, result: Result<nat, bool>)
    requires ExifReadable(images, readExif)
    ensures records == Records(images, |images|, readExif, widthOutput, heightOutput)
    ensures result == Success(0)
  {
    records := [];
    for i := 0 to |images|
      invariant records == Records(images, i, readExif, widthOutput, heightOutput)
    {
      records := records + [PhotoRecord(images[i], readExif, widthOutput, heightOutput)];
    }
    result := Success(0);
  }

  /** The source ids of a log of completions, in order. */
  function SourceIds(log: seq<JobDone>): (ids: seq<u32>)
    ensures |ids| == |log|
    ensures forall i | 0 <= i < |log| :: ids[i] == log[i].sourceId
  {
    if log == [] then [] else SourceIds(log[..|log| - 1]) + [log[|log| - 1].sourceId]
  }

  /** The source ids of a queue of jobs, in order. */
  function JobIds(jobs: seq<Job>): (ids: seq<u32>)
    ensures |ids| == |jobs|
    ensures forall i | 0 <= i < |jobs| :: ids[i] == jobs[i].sourceId
  {
    if jobs == [] then [] else JobIds(jobs[..|jobs| - 1]) + [jobs[|jobs| - 1].sourceId]
  }

  /** Some completion in the log is for this source. */
  predicate Logged(log: seq<JobDone>, sourceId: u32) {
    exists i | 0 <= i < |log| :: log[i].sourceId == sourceId
  }

  /** The search of the log: finds whether some completion is for the source. */
  method FindDone(log: seq<JobDone>, sourceId: u32) returns (found: bool)
    ensures found <==> Logged(log, sourceId)
  {
    var i := 0;
    while i < |log|
      invariant 0 <= i <= |log|
      invariant forall k | 0 <= k < i :: log[k].sourceId != sourceId
    {
      if log[i].sourceId == sourceId {
        return true;
      }
      i := i + 1;
    }
    return false;
  }

  class ImageProcessorPoolAsync {
    const settings: Settings
    /** Submitted jobs the worker has not taken yet. */
    var jobs: seq<Job>
    /** Completions the worker has sent that no status query has received yet. */
    var pending: seq<JobDone>
    /** The log of done jobs, in the order they were received. */
    var doneJobs: seq<JobDone>
    /** Every source id ever submitted, in submission order. */
    ghost var submitted: seq<u32>

    /** Each submitted job is either done, pending, or still queued, and in submission order. */
    ghost predicate Valid()
      reads this
    {
      SourceIds(doneJobs) + SourceIds(pending) + JobIds(jobs) == submitted
    }

    constructor (settings: Settings)
      ensures Valid()
      ensures this.settings == settings
      ensures jobs == [] && pending == [] && doneJobs == [] && submitted == []
    {
      this.settings := settings;
      jobs, pending, doneJobs := [], [], [];
      submitted := [];
    }

    /** Submits a job for a source; the handoff always succeeds once the worker takes it. */
    method AddSourceToProcess(sourceId: u32) returns (result: Result<bool, string>)
      requires Valid()
      modifies this
      ensures Valid()
      ensures jobs == old(jobs) + [Job(sourceId)] && submitted == old(submitted) + [sourceId]
      ensures pending == old(pending) && doneJobs == old(doneJobs)
      ensures result == Success(true)
    {
      jobs := jobs + [Job(sourceId)];
      submitted := submitted + [sourceId];
      SubmitKeepsOrder(doneJobs, pending, old(jobs), old(submitted), sourceId);
      result := Success(true);
    }

    /**
     * One turn of the worker: takes the next job, makes the renditions of
     * every photo of its source, then reads their metadata, then reports
     * the job done. A failure of either step would only be reported; the
     * completion is sent regardless.
     */
    method RunNextJob(env: Environment)
      returns (job: Job, actions: seq<Thumbnails.Action>, records: seq<ExifMetadata>)
      requires Valid() && jobs != []
      requires ExifReadable(env.photos(jobs[0].sourceId), env.readExif)
      modifies this
      ensures Valid()
      ensures job == old(jobs)[0] && jobs == old(jobs)[1..]
      ensures pending == old(pending) + [JobDone(job.sourceId)]
      ensures doneJobs == old(doneJobs) && submitted == old(submitted)
      ensures actions == Thumbnails.SourcePlan(settings.galleryFolder, env.photos(job.sourceId), env.extract)
      ensures records == Records(env.photos(job.sourceId), |env.photos(job.sourceId)|, env.readExif, env.widthOutput, env.heightOutput)
    {
      job := jobs[0];
      jobs := jobs[1..];
      var images := env.photos(job.sourceId);
      var thumbsResult;
      actions, thumbsResult := Thumbnails.CreateThumbsInSource(settings.galleryFolder, images, env.extract);
      var exifResult;
      records, exifResult := ProcessExif(images, env.readExif, env.widthOutput, env.heightOutput);
      pending := pending + [JobDone(job.sourceId)];
      CompleteKeepsOrder(doneJobs, old(pending), old(jobs), submitted);
    }

    /**
     * The status of a source: first moves every pending completion into
     * the log, in the order received, then answers whether the log holds a
     * completion for the source.
     */
    method StatusOf(sourceId: u32) returns (done: bool)
      requires Valid()
      modifies this
      ensures Valid()
      ensures doneJobs == old(doneJobs) + old(pending) && pending == []
      ensures jobs == old(jobs) && submitted == old(submitted)
      ensures done <==> Logged(doneJobs, sourceId)
      ensures done ==> sourceId in submitted
    {
      while pending != []
        invariant doneJobs + pending == old(doneJobs) + old(pending)
        invariant jobs == old(jobs) && submitted == old(submitted)
        decreases |pending|
      {
        var jobDone := pending[0];
        doneJobs := doneJobs + [jobDone];
        pending := pending[1..];
      }
      assert doneJobs == old(doneJobs) + old(pending);
      SourceIdsAppend(old(doneJobs), old(pending));
      assert SourceIds(pending) == [];
      done := FindDone(doneJobs, sourceId);
      if done {
        LoggedWasSubmitted(doneJobs, SourceIds(pending) + JobIds(jobs), submitted, sourceId);
      }
    }
  }

  /** The k-th element of a mapped prefix is the image of the k-th element. */
  lemma {:induction false} MapPrefixPointwise<A, B>(xs: seq<A>, n: nat, f: A --> B, k: nat)
    requires n <= |xs| && forall i | 0 <= i < n :: f.requires(xs[i])
    requires k < n
    ensures MapPrefix(xs, n, f)[k] == f(xs[k])
  {
    if k < n - 1 {
      MapPrefixPointwise(xs, n - 1, f, k);
    }
  }

  /** The k-th record is the record of the k-th photo. */
  lemma RecordsPointwise(images: seq<CrawlerHelpers.Image>, n: nat, readExif: string -> Option<Exif>,
                         widthOutput: string -> string, heightOutput: string -> string, k: nat)
    requires ExifReadable(images, readExif) && n <= |images|
    requires k < n
    ensures Records(images, n, readExif, widthOutput, heightOutput)[k]
         == PhotoRecord(images[k], readExif, widthOutput, heightOutput)
  {
    MapPrefixPointwise(images, n, RecordOf(readExif, widthOutput, heightOutput), k);
  }

  lemma SourceIdsAppend(a: seq<JobDone>, b: seq<JobDone>)
    ensures SourceIds(a + b) == SourceIds(a) + SourceIds(b)
  {
    assert forall i | 0 <= i < |a + b| :: SourceIds(a + b)[i] == (SourceIds(a) + SourceIds(b))[i];
  }

  lemma JobIdsAppend(a: seq<Job>, b: seq<Job>)
    ensures JobIds(a + b) == JobIds(a) + JobIds(b)
  {
    assert forall i | 0 <= i < |a + b| :: JobIds(a + b)[i] == (JobIds(a) + JobIds(b))[i];
  }

  /** Queueing a job keeps every submitted id accounted for, in order. */
  lemma SubmitKeepsOrder(log: seq<JobDone>, pending: seq<JobDone>, jobs: seq<Job>, submitted: seq<u32>, sourceId: u32)
    requires SourceIds(log) + SourceIds(pending) + JobIds(jobs) == submitted
    ensures SourceIds(log) + SourceIds(pending) + JobIds(jobs + [Job(sourceId)]) == submitted + [sourceId]
  {
    JobIdsAppend(jobs, [Job(sourceId)]);
    assert JobIds([Job(sourceId)]) == [sourceId];
  }

  /** Taking the first job and sending its completion keeps every submitted id accounted for, in order. */
  lemma CompleteKeepsOrder(log: seq<JobDone>, pending: seq<JobDone>, jobs: seq<Job>, submitted: seq<u32>)
    requires jobs != []
    requires SourceIds(log) + SourceIds(pending) + JobIds(jobs) == submitted
    ensures SourceIds(log) + SourceIds(pending + [JobDone(jobs[0].sourceId)]) + JobIds(jobs[1..]) == submitted
  {
    var id := jobs[0].sourceId;
    JobIdsAppend([jobs[0]], jobs[1..]);
    assert [jobs[0]] + jobs[1..] == jobs;
    assert JobIds([jobs[0]]) == [id];
    SourceIdsAppend(pending, [JobDone(id)]);
    assert SourceIds([JobDone(id)]) == [id];
    MoveAcross(SourceIds(log), SourceIds(pending), id, JobIds(jobs[1..]));
  }

  /** Moving an element across a concatenation boundary leaves the whole unchanged. */
  lemma MoveAcross<T>(a: seq<T>, b: seq<T>, x: T, c: seq<T>)
    ensures a + (b + [x]) + c == a + b + ([x] + c)
  {
  }

  // ----- Properties -----

  /** The log only grows, so a source found done stays done. */
  lemma LoggedMonotone(log: seq<JobDone>, more: seq<JobDone>, sourceId: u32)
    requires Logged(log, sourceId)
    ensures Logged(log + more, sourceId)
  {
    var i :| 0 <= i < |log| && log[i].sourceId == sourceId;
    assert (log + more)[i] == log[i];
  }

  /** A logged source id was submitted: a source never submitted is never reported done. */
  lemma LoggedWasSubmitted(log: seq<JobDone>, rest: seq<u32>, submitted: seq<u32>, sourceId: u32)
    requires SourceIds(log) + rest == submitted
    requires Logged(log, sourceId)
    ensures sourceId in submitted
  {
    var i :| 0 <= i < |log| && log[i].sourceId == sourceId;
    assert submitted[i] == SourceIds(log)[i];
  }

  /** Completions are logged in submission order: the log's ids are a prefix of the submitted ids. */
  lemma CompletionOrder(log: seq<JobDone>, rest: seq<u32>, submitted: seq<u32>)
    requires SourceIds(log) + rest == submitted
    ensures |log| <= |submitted|
    ensures forall i | 0 <= i < |log| :: log[i].sourceId == submitted[i]
  {
    forall i | 0 <= i < |log| ensures log[i].sourceId == submitted[i] {
      assert submitted[i] == SourceIds(log)[i];
    }
  }

  /**
   * A source submitted to an idle pool, with two photos: after the worker's
   * turn, six renditions are written and two records read, and a status
   * query reports the source done where it did not before.
   */
  method SubmitProcessQuery(gallery: string, sourceId: u32, env: Environment)
    requires |env.photos(sourceId)| == 2 && Thumbnails.DistinctIds(env.photos(sourceId))
    requires forall k | 0 <= k < 2 :: env.extract(env.photos(sourceId)[k].fullPath).Extracted?
    requires ExifReadable(env.photos(sourceId), env.readExif)
  {
    var pool := new ImageProcessorPoolAsync(Settings(gallery));
    var before := pool.StatusOf(sourceId);
    assert !before;
    var accepted := pool.AddSourceToProcess(sourceId);
    var job, actions, records := pool.RunNextJob(env);
    assert job.sourceId == sourceId && |records| == 2;
    Thumbnails.SourceOutputCount(gallery, env.photos(sourceId), env.extract);
    Thumbnails.SourceOutputsDistinct(gallery, env.photos(sourceId), env.extract);
    assert |Thumbnails.Outputs(actions)| == 6;
    var after := pool.StatusOf(sourceId);
    assert pool.doneJobs[0] == JobDone(sourceId);
    assert after;
  }
}
