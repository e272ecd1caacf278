/**
 * The renditions made for every photo of a source: a large resize, a
 * medium rendition taken from the embedded thumbnail when there is one (a
 * resize otherwise), and a small resize, each written to
 * `<gallery>/<size>/<id>.jpg`.
 *
 * External processes are not run: the plan is the ordered list of actions
 * the processing issues, given what the thumbnail extraction answers for
 * each file.
 */
module Thumbnails {
  import opened Wrappers
  import opened Text
  import CrawlerHelpers

  datatype Size = Large | Medium | Small

  function Dir(size: Size): string {
    match size
    case Large => "large"
    case Medium => "medium"
    case Small => "small"
  }

  /** The output path of a rendition: `<gallery>/<size>/<id>.jpg`, with the id in decimal. */
  function RenditionPath(gallery: string, size: Size, id: u32): string {
    gallery + "/" + Dir(size) + "/" + Decimal(id) + ".jpg"
  }

  /** What the embedded-thumbnail extraction answered: its standard output, or a failure to start it. */
  datatype Extraction = Extracted(stdout: seq<byte>) | SpawnFailed

  datatype Action =
    /** Resize `input` to fit a `box` x `box` square at JPEG `quality`, into `output`. */
    | Convert(input: string, box: nat, quality: nat, output: string)
    /** Ask for the embedded thumbnail of `input`. */
    | ExtractThumbnail(input: string)
    /** Create `path` and write `bytes` to it. */
    | WriteFile(path: string, bytes: seq<byte>)

  /** The medium step after extraction: write the thumbnail, resize instead when it is empty, nothing when the tool did not start. */
  function MediumActions(fullPath: string, medium: string, extraction: Extraction): (acts: seq<Action>)
    ensures acts == [] <==> extraction.SpawnFailed?
    ensures |acts| <= 1
    ensures forall a | a in acts :: (a.WriteFile? && a.path == medium) || (a.Convert? && a.input == fullPath && a.output == medium)
  {
    match extraction
    case Extracted(bytes) =>
      if |bytes| > 0 then [WriteFile(medium, bytes)] else [Convert(fullPath, 600, 70, medium)]
    case SpawnFailed => []
  }

  /** The actions for one photo, in order: large, extraction, medium, small. */
  function PhotoPlan(gallery: string, image: CrawlerHelpers.Image, extraction: Extraction): (plan: seq<Action>)
    ensures 3 <= |plan| <= 4
    ensures plan[0] == Convert(image.fullPath, 1200, 75, RenditionPath(gallery, Large, image.id))
    ensures plan[1] == ExtractThumbnail(image.fullPath)
    ensures plan[|plan| - 1] == Convert(image.fullPath, 200, 50, RenditionPath(gallery, Small, image.id))
  {
    var medium := RenditionPath(gallery, Medium, image.id);
    [Convert(image.fullPath, 1200, 75, RenditionPath(gallery, Large, image.id))]
      + [ExtractThumbnail(image.fullPath)]
      + MediumActions(image.fullPath, medium, extraction)
      + [Convert(image.fullPath, 200, 50, RenditionPath(gallery, Small, image.id))]
  }

  /** The actions for a list of photos: each photo's plan, in list order. */
  function SourcePlan(gallery: string, images: seq<CrawlerHelpers.Image>, extract: string -> Extraction): seq<Action> {
    if images == [] then []
    else
      var n := |images| - 1;
      SourcePlan(gallery, images[..n], extract) + PhotoPlan(gallery, images[n], extract(images[n].fullPath))
  }

  /** Makes the renditions of every photo of a source, in order; always reports `Ok(0)`. */
  method CreateThumbsInSource(gallery: string, images: seq<CrawlerHelpers.Image>, extract: string -> Extraction)
    returns (actions: seq<Action>, result: Result<nat, bool>)
    ensures actions == SourcePlan(gallery, images, extract)
    ensures result == Success(0)
  {
    actions := [];
    var i := 0;
    while i < |images|
      invariant 0 <= i <= |images|
      invariant actions == SourcePlan(gallery, images[..i], extract)
    {
      var steps := CreateThumbsOfPhoto(gallery, images[i], extract(images[i].fullPath));
      SourcePlanStep(gallery, images, i, extract);
      actions := actions + steps;
      i := i + 1;
    }
    assert images[..i] == images;
    result := Success(0);
  }

  /** The body of the loop above for one photo, given what the extraction answered for its file. */
  method CreateThumbsOfPhoto(gallery: string, image: CrawlerHelpers.Image, extraction: Extraction)
    returns (steps: seq<Action>)
    ensures steps == PhotoPlan(gallery, image, extraction)
  {
    var large := RenditionPath(gallery, Large, image.id);
    var medium := RenditionPath(gallery, Medium, image.id);
    var small := RenditionPath(gallery, Small, image.id);
    var head := [Convert(image.fullPath, 1200, 75, large)] + [ExtractThumbnail(image.fullPath)];
    steps := head;
    match extraction {
      case Extracted(stdout) =>
        if |stdout| > 0 {
          steps := steps + [WriteFile(medium, stdout)];
        } else {
          steps := steps + [Convert(image.fullPath, 600, 70, medium)];
        }
      case SpawnFailed =>
    }
    assert steps == head + MediumActions(image.fullPath, medium, extraction);
    steps := steps + [Convert(image.fullPath, 200, 50, small)];
  }

  /** Extending the photo list by its next photo extends the plan by that photo's plan. */
  lemma SourcePlanStep(gallery: string, images: seq<CrawlerHelpers.Image>, i: nat, extract: string -> Extraction)
    requires i < |images|
    ensures SourcePlan(gallery, images[..i + 1], extract) ==
      SourcePlan(gallery, images[..i], extract) + PhotoPlan(gallery, images[i], extract(images[i].fullPath))
  {
    assert images[..i + 1][..i] == images[..i];
  }

  /** The files an action list writes, in order. */
  function Outputs(plan: seq<Action>): seq<string> {
    if plan == [] then []
    else
      (match plan[0]
       case Convert(_, _, _, output) => [output]
       case WriteFile(path, _) => [path]
       case ExtractThumbnail(_) => [])
      + Outputs(plan[1..])
  }

  predicate NoDuplicates(s: seq<string>) {
    forall i, j | 0 <= i < j < |s| :: s[i] != s[j]
  }

  predicate DistinctIds(images: seq<CrawlerHelpers.Image>) {
    forall i, j | 0 <= i < j < |images| :: images[i].id != images[j].id
  }

  // ----- Properties -----

  /**
   * The layout of a rendition path: it lies in the size's directory under
   * the gallery folder, and its file name is the decimal id with ".jpg".
   */
  lemma RenditionPathLayout(gallery: string, size: Size, id: u32)
    ensures var p := RenditionPath(gallery, size, id);
      && StartsWith(p, gallery + "/" + Dir(size) + "/")
      && EndsWith(p, Decimal(id) + ".jpg")
      && |p| == |gallery| + |Dir(size)| + |Decimal(id)| + 6
  {
    var p := RenditionPath(gallery, size, id);
    assert p == (gallery + "/" + Dir(size) + "/") + (Decimal(id) + ".jpg");
  }

  /** A rendition path determines the size and the id: distinct ids never share a file. */
  lemma RenditionPathInjective(gallery: string, s1: Size, id1: u32, s2: Size, id2: u32)
    requires RenditionPath(gallery, s1, id1) == RenditionPath(gallery, s2, id2)
    ensures s1 == s2 && id1 == id2
  {
    var p := RenditionPath(gallery, s1, id1);
    assert p[|gallery| + 1] == Dir(s1)[0];
    assert p[|gallery| + 1] == Dir(s2)[0];
    var prefix := gallery + "/" + Dir(s1) + "/";
    var tail1, tail2 := Decimal(id1) + ".jpg", Decimal(id2) + ".jpg";
    assert p == prefix + tail1;
    assert p == prefix + tail2;
    assert tail1 == p[|prefix|..] == tail2;
    assert Decimal(id1) == tail1[..|tail1| - 4];
    assert Decimal(id2) == tail2[..|tail2| - 4];
    DecimalInjective(id1, id2);
  }

  lemma {:induction false} OutputsAppend(a: seq<Action>, b: seq<Action>)
    ensures Outputs(a + b) == Outputs(a) + Outputs(b)
  {
    if a == [] {
      assert a + b == b;
    } else {
      assert (a + b)[0] == a[0];
      assert (a + b)[1..] == a[1..] + b;
      OutputsAppend(a[1..], b);
    }
  }

  /**
   * The files one photo writes: large, then medium unless the extraction
   * tool did not start, then small.
   */
  lemma PhotoOutputs(gallery: string, image: CrawlerHelpers.Image, extraction: Extraction)
    ensures Outputs(PhotoPlan(gallery, image, extraction)) ==
      [RenditionPath(gallery, Large, image.id)]
      + (if extraction.SpawnFailed? then [] else [RenditionPath(gallery, Medium, image.id)])
      + [RenditionPath(gallery, Small, image.id)]
  {
    var medium := RenditionPath(gallery, Medium, image.id);
    var large := Convert(image.fullPath, 1200, 75, RenditionPath(gallery, Large, image.id));
    var small := Convert(image.fullPath, 200, 50, RenditionPath(gallery, Small, image.id));
    var mid := MediumActions(image.fullPath, medium, extraction);
    OutputsAppend([large] + [ExtractThumbnail(image.fullPath)] + mid, [small]);
    OutputsAppend([large] + [ExtractThumbnail(image.fullPath)], mid);
    OutputsAppend([large], [ExtractThumbnail(image.fullPath)]);
  }

  /**
   * The medium rendition: non-empty extracted bytes are written verbatim;
   * empty output makes a 600x600 resize at quality 70 into the same path;
   * a tool that did not start leaves the medium file unwritten.
   */
  lemma MediumRendition(gallery: string, image: CrawlerHelpers.Image, extraction: Extraction)
    ensures var plan := PhotoPlan(gallery, image, extraction);
      var medium := RenditionPath(gallery, Medium, image.id);
      && (extraction.Extracted? && |extraction.stdout| > 0 ==> plan[2] == WriteFile(medium, extraction.stdout))
      && (extraction == Extracted([]) ==> plan[2] == Convert(image.fullPath, 600, 70, medium))
      && (extraction.SpawnFailed? ==> medium !in Outputs(plan))
  {
    PhotoOutputs(gallery, image, extraction);
    if extraction.SpawnFailed? {
      var large := RenditionPath(gallery, Large, image.id);
      var small := RenditionPath(gallery, Small, image.id);
      var medium := RenditionPath(gallery, Medium, image.id);
      if medium == large {
        RenditionPathInjective(gallery, Medium, image.id, Large, image.id);
      }
      if medium == small {
        RenditionPathInjective(gallery, Medium, image.id, Small, image.id);
      }
    }
  }

  /** Every file one photo writes is one of its renditions; this lemma names the size. */
  lemma PhotoOutputSize(gallery: string, image: CrawlerHelpers.Image, extraction: Extraction, o: string)
    returns (s: Size)
    requires o in Outputs(PhotoPlan(gallery, image, extraction))
    ensures o == RenditionPath(gallery, s, image.id)
  {
    PhotoOutputs(gallery, image, extraction);
    s := if o == RenditionPath(gallery, Large, image.id) then Large
      else if o == RenditionPath(gallery, Medium, image.id) then Medium else Small;
  }

  /** Every file a source plan writes is a rendition of one of its photos. */
  lemma {:induction false} SourceOutputsAreRenditions(gallery: string, images: seq<CrawlerHelpers.Image>, extract: string -> Extraction, o: string)
    requires o in Outputs(SourcePlan(gallery, images, extract))
    ensures exists k, s | 0 <= k < |images| :: o == RenditionPath(gallery, s, images[k].id)
  {
    var n := |images| - 1;
    var last := PhotoPlan(gallery, images[n], extract(images[n].fullPath));
    OutputsAppend(SourcePlan(gallery, images[..n], extract), last);
    if o in Outputs(SourcePlan(gallery, images[..n], extract)) {
      SourceOutputsAreRenditions(gallery, images[..n], extract, o);
      var k, s :| 0 <= k < n && o == RenditionPath(gallery, s, images[..n][k].id);
      assert images[..n][k] == images[k];
    } else {
      var s := PhotoOutputSize(gallery, images[n], extract(images[n].fullPath), o);
    }
  }

  lemma NoDuplicatesAppend(a: seq<string>, b: seq<string>)
    requires NoDuplicates(a) && NoDuplicates(b)
    requires forall x | x in a :: x !in b
    ensures NoDuplicates(a + b)
  {
    forall i, j | 0 <= i < j < |a + b| ensures (a + b)[i] != (a + b)[j] {
      if j < |a| {
        assert (a + b)[i] == a[i] && (a + b)[j] == a[j];
      } else if i >= |a| {
        assert (a + b)[i] == b[i - |a|] && (a + b)[j] == b[j - |a|];
      } else {
        assert (a + b)[i] == a[i] && (a + b)[j] == b[j - |a|];
        assert a[i] in a && b[j - |a|] in b;
      }
    }
  }

  /** One photo never writes the same file twice. */
  lemma PhotoOutputsDistinct(gallery: string, image: CrawlerHelpers.Image, extraction: Extraction)
    ensures NoDuplicates(Outputs(PhotoPlan(gallery, image, extraction)))
  {
    PhotoOutputs(gallery, image, extraction);
    var outs := Outputs(PhotoPlan(gallery, image, extraction));
    forall i, j | 0 <= i < j < |outs| ensures outs[i] != outs[j] {
      var si, sj :| outs[i] == RenditionPath(gallery, si, image.id) && outs[j] == RenditionPath(gallery, sj, image.id)
        && si != sj;
      if outs[i] == outs[j] {
        RenditionPathInjective(gallery, si, image.id, sj, image.id);
      }
    }
  }

  /** A photo whose id no earlier photo has writes no file the earlier photos wrote. */
  lemma PhotoOutputsFresh(gallery: string, images: seq<CrawlerHelpers.Image>, extract: string -> Extraction,
                          image: CrawlerHelpers.Image)
    requires forall k | 0 <= k < |images| :: images[k].id != image.id
    ensures forall x | x in Outputs(PhotoPlan(gallery, image, extract(image.fullPath))) ::
      x !in Outputs(SourcePlan(gallery, images, extract))
  {
    PhotoOutputs(gallery, image, extract(image.fullPath));
    forall x | x in Outputs(PhotoPlan(gallery, image, extract(image.fullPath)))
      ensures x !in Outputs(SourcePlan(gallery, images, extract))
    {
      var s :| x == RenditionPath(gallery, s, image.id);
      if x in Outputs(SourcePlan(gallery, images, extract)) {
        SourceOutputsAreRenditions(gallery, images, extract, x);
        var k, s' :| 0 <= k < |images| && x == RenditionPath(gallery, s', images[k].id);
        RenditionPathInjective(gallery, s, image.id, s', images[k].id);
      }
    }
  }

  /** Photos with distinct ids never write the same file twice. */
  lemma {:induction false} SourceOutputsDistinct(gallery: string, images: seq<CrawlerHelpers.Image>, extract: string -> Extraction)
    requires DistinctIds(images)
    ensures NoDuplicates(Outputs(SourcePlan(gallery, images, extract)))
  {
    if images != [] {
      var n := |images| - 1;
      var img := images[n];
      var last := PhotoPlan(gallery, img, extract(img.fullPath));
      assert DistinctIds(images[..n]) by {
        forall i, j | 0 <= i < j < n ensures images[..n][i].id != images[..n][j].id {
          assert images[..n][i] == images[i] && images[..n][j] == images[j];
        }
      }
      SourceOutputsDistinct(gallery, images[..n], extract);
      OutputsAppend(SourcePlan(gallery, images[..n], extract), last);
      PhotoOutputsDistinct(gallery, img, extract(img.fullPath));
      assert forall k | 0 <= k < n :: images[..n][k].id != img.id by {
        forall k | 0 <= k < n ensures images[..n][k].id != img.id {
          assert images[..n][k] == images[k];
        }
      }
      PhotoOutputsFresh(gallery, images[..n], extract, img);
      NoDuplicatesAppend(Outputs(SourcePlan(gallery, images[..n], extract)), Outputs(last));
    }
  }

  /** When every extraction tool starts, a source of n photos gets 3n rendition files. */
  lemma {:induction false} SourceOutputCount(gallery: string, images: seq<CrawlerHelpers.Image>, extract: string -> Extraction)
    requires forall k | 0 <= k < |images| :: extract(images[k].fullPath).Extracted?
    ensures |Outputs(SourcePlan(gallery, images, extract))| == 3 * |images|
  {
    if images != [] {
      var n := |images| - 1;
      SourceOutputCount(gallery, images[..n], extract);
      OutputsAppend(SourcePlan(gallery, images[..n], extract), PhotoPlan(gallery, images[n], extract(images[n].fullPath)));
      PhotoOutputs(gallery, images[n], extract(images[n].fullPath));
    }
  }
}
