/**
 * The product-creation views: the draft endpoint's image upload, and the
 * spreadsheet import, which for each row classifies the row's images,
 * downloads the linked ones, queues the inline ones around them, uploads the
 * queue, assigns one variant image per distinct colour and submits the
 * product. Downloads, uploads and the create call are oracles; the thread
 * pools are replaced by their submission order, which is the order in which
 * the source reads the futures back.
 */
module ProductAction {
  import opened Wrappers
  import Text

  // ---------------------------------------------------------------- CreateOneProductDraf.upload_images

  /**
   * The ids kept by the draft upload: `None` inputs are skipped, and an
   * upload that answers `""` is dropped. `upload` is `callUploadImage`.
   */
  function DraftIds(images: seq<Option<string>>, upload: string -> string): (r: seq<string>)
    ensures |r| <= |images|
  {
    if images == [] then []
    else
      var last := images[|images| - 1];
      var prev := DraftIds(images[..|images| - 1], upload);
      if last.Some? && upload(last.value) != "" then prev + [upload(last.value)] else prev
  }

  /** `upload_images`: one upload per non-`None` input, keeping the non-empty ids in input order. */
  method UploadDraftImages(images: seq<Option<string>>, upload: string -> string) returns (ids: seq<string>)
    ensures ids == DraftIds(images, upload)
  {
    ids := [];
    for i := 0 to |images|
      invariant ids == DraftIds(images[..i], upload)
    {
      assert images[..i + 1][..i] == images[..i];
      if images[i].Some? {
        var id := upload(images[i].value);
        if id != "" {
          ids := ids + [id];
        }
      }
    }
    assert images[..|images|] == images;
  }

  /** An id is kept exactly when some non-`None` input uploads to it and it is not empty. */
  lemma {:induction false} DraftIdsMembers(images: seq<Option<string>>, upload: string -> string, x: string)
    ensures x in DraftIds(images, upload) <==>
      x != "" && exists i :: 0 <= i < |images| && images[i].Some? && upload(images[i].value) == x
  {
    if images != [] {
      var init := images[..|images| - 1];
      DraftIdsMembers(init, upload, x);
      if x != "" && exists i :: 0 <= i < |images| && images[i].Some? && upload(images[i].value) == x {
        var i :| 0 <= i < |images| && images[i].Some? && upload(images[i].value) == x;
        if i < |images| - 1 {
          assert init[i] == images[i];
        }
      }
      if x in DraftIds(init, upload) {
        var i :| 0 <= i < |init| && init[i].Some? && upload(init[i].value) == x;
        assert images[i] == init[i];
      }
    }
  }

  /** The uploads of two batches are the uploads of the first followed by those of the second. */
  lemma {:induction false} DraftIdsAppend(a: seq<Option<string>>, b: seq<Option<string>>, upload: string -> string)
    ensures DraftIds(a + b, upload) == DraftIds(a, upload) + DraftIds(b, upload)
  {
    if b == [] {
      assert a + b == a;
    } else {
      var b' := b[..|b| - 1];
      DraftIdsAppend(a, b', upload);
      assert (a + b)[..|a + b| - 1] == a + b';
    }
  }

  // ---------------------------------------------------------------- process_item, step 1: classification

  /** Where an image entry of a spreadsheet row comes from. */
  datatype Source = Download(url: string) | Inline(base64: string, main: bool)

  /**
   * A value starting with `https` is downloaded; one starting with `white`
   * loses the six characters of `white_` and is a main image; anything else
   * is already base64 and not main.
   */
  function Classify(value: string): (r: Source)
    ensures r.Download? <==> Text.StartsWith(value, "https")
    ensures r.Download? ==> r.url == value
    ensures r.Inline? ==> (r.main <==> Text.StartsWith(value, "white"))
    ensures r.Inline? && !r.main ==> r.base64 == value
    ensures r.Inline? && r.main && |value| >= 6 ==> value == value[..6] + r.base64
    ensures r.Inline? && r.main && |value| < 6 ==> r.base64 == ""
  {
    if Text.StartsWith(value, "https") then Download(value)
    else if Text.StartsWith(value, "white") then Inline(if |value| >= 6 then value[6..] else "", true)
    else Inline(value, false)
  }

  /** An image entry: its spreadsheet column and its value. */
  datatype Entry = Entry(column: string, value: string)
  /** A queued image, ready for upload; inline images have an empty URL. */
  datatype Image = Image(column: string, url: string, base64: string)
  /** An inline image and whether it is a main image. */
  datatype Fixed = Fixed(image: Image, main: bool)
  /** A download or an upload that failed. */
  datatype Failure = Failure(column: string, url: string)

  /** The entries to download, `(column, url)`, and the inline images, each in entry order. */
  datatype Classified = Classified(downloads: seq<Entry>, inlines: seq<Fixed>)

  function ClassifySpec(images: seq<Entry>): (r: Classified)
    ensures |r.downloads| + |r.inlines| == |images|
  {
    if images == [] then Classified([], [])
    else
      var prev := ClassifySpec(images[..|images| - 1]);
      var e := images[|images| - 1];
      match Classify(e.value)
      case Download(url) => prev.(downloads := prev.downloads + [Entry(e.column, url)])
      case Inline(b, main) => prev.(inlines := prev.inlines + [Fixed(Image(e.column, "", b), main)])
  }

  /** The first loop of `process_item`: downloads are submitted, inline images are set aside. */
  method ClassifyImages(images: seq<Entry>) returns (downloads: seq<Entry>, inlines: seq<Fixed>)
    ensures Classified(downloads, inlines) == ClassifySpec(images)
  {
    downloads, inlines := [], [];
    for i := 0 to |images|
      invariant Classified(downloads, inlines) == ClassifySpec(images[..i])
    {
      assert images[..i + 1][..i] == images[..i];
      var col, value := images[i].column, images[i].value;
      if Text.StartsWith(value, "https") {
        downloads := downloads + [Entry(col, value)];
      } else if Text.StartsWith(value, "white") {
        var b := if |value| >= 6 then value[6..] else "";
        inlines := inlines + [Fixed(Image(col, "", b), true)];
      } else {
        inlines := inlines + [Fixed(Image(col, "", value), false)];
      }
    }
    assert images[..|images|] == images;
  }

  /** Every entry is a download exactly when every value starts with `https`. */
  lemma {:induction false} AllDownloads(images: seq<Entry>)
    ensures |ClassifySpec(images).downloads| == |images| <==>
      forall k :: 0 <= k < |images| ==> Text.StartsWith(images[k].value, "https")
    ensures |ClassifySpec(images).downloads| == |images| ==> ClassifySpec(images).downloads == images
  {
    if images != [] {
      var init := images[..|images| - 1];
      AllDownloads(init);
      assert forall k :: 0 <= k < |init| ==> init[k] == images[k];
    }
  }

  // ---------------------------------------------------------------- process_item, step 1: downloads

  /** The downloaded images and the failed downloads, each in submission order. */
  datatype Fetched = Fetched(ok: seq<Image>, failed: seq<Failure>)

  /** `download(url)` is the base64 data of `_process_image_url`, or `None` when it reports an error. */
  function FetchSpec(downloads: seq<Entry>, download: string -> Option<string>): (r: Fetched)
    ensures |r.ok| + |r.failed| == |downloads|
  {
    if downloads == [] then Fetched([], [])
    else
      var prev := FetchSpec(downloads[..|downloads| - 1], download);
      var e := downloads[|downloads| - 1];
      match download(e.value)
      case Some(b) => prev.(ok := prev.ok + [Image(e.column, e.value, b)])
      case None => prev.(failed := prev.failed + [Failure(e.column, e.value)])
  }

  /**
   * The first download whose reply `Image.open` cannot read: `notImage(url)`
   * is the error it raises when the URL answered 200 with something that is
   * not an image.
   */
  function FirstUnreadable(downloads: seq<Entry>, notImage: string -> Option<string>): (r: Option<nat>)
    ensures r.None? <==> forall k :: 0 <= k < |downloads| ==> notImage(downloads[k].value).None?
    ensures r.Some? ==> r.value < |downloads| && notImage(downloads[r.value].value).Some?
    ensures r.Some? ==> forall j :: 0 <= j < r.value ==> notImage(downloads[j].value).None?
  {
    if downloads == [] then None
    else
      var i := |downloads| - 1;
      match FirstUnreadable(downloads[..i], notImage)
      case Some(k) => Some(k)
      case None => if notImage(downloads[i].value).Some? then Some(i) else None
  }

  /**
   * Reading the download futures back in submission order; the first future
   * whose download raised re-raises here, and its error is `raised`.
   */
  method FetchImages(downloads: seq<Entry>, download: string -> Option<string>, notImage: string -> Option<string>)
    returns (ok: seq<Image>, failed: seq<Failure>, raised: Option<string>)
    ensures raised.None? <==> FirstUnreadable(downloads, notImage).None?
    ensures raised.Some? ==> raised == notImage(downloads[FirstUnreadable(downloads, notImage).value].value)
    ensures raised.None? ==> Fetched(ok, failed) == FetchSpec(downloads, download)
  {
    ok, failed, raised := [], [], None;
    for i := 0 to |downloads|
      invariant Fetched(ok, failed) == FetchSpec(downloads[..i], download)
      invariant forall j :: 0 <= j < i ==> notImage(downloads[j].value).None?
    {
      assert downloads[..i + 1][..i] == downloads[..i];
      var e := downloads[i];
      if notImage(e.value).Some? {
        return ok, failed, notImage(e.value);
      }
      var result := download(e.value);
      if result.Some? {
        ok := ok + [Image(e.column, e.value, result.value)];
      } else {
        failed := failed + [Failure(e.column, e.value)];
      }
    }
    assert downloads[..|downloads|] == downloads;
  }

  /** Every download failed exactly when the oracle fails on every URL. */
  lemma {:induction false} AllDownloadsFailed(downloads: seq<Entry>, download: string -> Option<string>)
    ensures |FetchSpec(downloads, download).failed| == |downloads| <==>
      forall k :: 0 <= k < |downloads| ==> download(downloads[k].value).None?
  {
    if downloads != [] {
      var init := downloads[..|downloads| - 1];
      AllDownloadsFailed(init, download);
      assert forall k :: 0 <= k < |init| ==> init[k] == downloads[k];
    }
  }

  // ---------------------------------------------------------------- process_item, step 2: the upload queue

  /** One inline image joins the queue: a main image at the front, any other at the back. */
  function Place(f: Fixed, queue: seq<Image>): (r: seq<Image>)
    ensures |r| == |queue| + 1
    ensures f.main ==> r[0] == f.image && r[1..] == queue
    ensures !f.main ==> r[..|queue|] == queue && r[|queue|] == f.image
  {
    if f.main then [f.image] + queue else queue + [f.image]
  }

  /** The queue after every inline image, in order, has been placed around the downloaded ones. */
  function Arrange(inlines: seq<Fixed>, ok: seq<Image>): seq<Image>
  {
    if inlines == [] then ok
    else Place(inlines[|inlines| - 1], Arrange(inlines[..|inlines| - 1], ok))
  }

  /** The second loop of `process_item`, which rebinds or extends `success_images`. */
  method ArrangeQueue(inlines: seq<Fixed>, ok: seq<Image>) returns (queue: seq<Image>)
    ensures queue == Arrange(inlines, ok)
  {
    queue := ok;
    for i := 0 to |inlines|
      invariant queue == Arrange(inlines[..i], ok)
    {
      assert inlines[..i + 1][..i] == inlines[..i];
      if inlines[i].main {
        queue := [inlines[i].image] + queue;
      } else {
        queue := queue + [inlines[i].image];
      }
    }
    assert inlines[..|inlines|] == inlines;
  }

  /** The main images, in entry order. */
  function Mains(inlines: seq<Fixed>): seq<Image>
  {
    if inlines == [] then []
    else
      var prev := Mains(inlines[..|inlines| - 1]);
      if inlines[|inlines| - 1].main then prev + [inlines[|inlines| - 1].image] else prev
  }

  /** The images that are not main, in entry order. */
  function Others(inlines: seq<Fixed>): seq<Image>
  {
    if inlines == [] then []
    else
      var prev := Others(inlines[..|inlines| - 1]);
      if inlines[|inlines| - 1].main then prev else prev + [inlines[|inlines| - 1].image]
  }

  function Reverse<T>(s: seq<T>): (r: seq<T>)
    ensures |r| == |s|
    ensures forall k :: 0 <= k < |s| ==> r[k] == s[|s| - 1 - k]
  {
    if s == [] then [] else [s[|s| - 1]] + Reverse(s[..|s| - 1])
  }

  /**
   * The queue is the main images in reverse entry order, then the downloaded
   * images in submission order, then the other inline images in entry order.
   */
  lemma {:induction false} ArrangeShape(inlines: seq<Fixed>, ok: seq<Image>)
    ensures Arrange(inlines, ok) == Reverse(Mains(inlines)) + ok + Others(inlines)
  {
    if inlines != [] {
      var init := inlines[..|inlines| - 1];
      var f := inlines[|inlines| - 1];
      ArrangeShape(init, ok);
      if f.main {
        ReverseSnoc(Mains(init), f.image);
        PrependAssoc(f.image, Reverse(Mains(init)), ok, Others(init));
      } else {
        AppendAssoc(Reverse(Mains(init)), ok, Others(init), f.image);
      }
    }
  }

  lemma ReverseSnoc(s: seq<Image>, x: Image)
    ensures Reverse(s + [x]) == [x] + Reverse(s)
  {
    assert (s + [x])[..|s|] == s;
  }

  lemma PrependAssoc(x: Image, a: seq<Image>, b: seq<Image>, c: seq<Image>)
    ensures [x] + (a + b + c) == ([x] + a) + b + c
  {
  }

  lemma AppendAssoc(a: seq<Image>, b: seq<Image>, c: seq<Image>, x: Image)
    ensures a + b + c + [x] == a + b + (c + [x])
  {
  }

  // ---------------------------------------------------------------- _upload_images

  datatype Uploaded = Uploaded(column: string, url: string, id: string)
  datatype UploadRun = UploadRun(ids: seq<Uploaded>, failed: seq<Failure>)
  /** The result of `_upload_images`: the uploaded ids, or every failure when nothing was uploaded. */
  datatype UploadOutcome = UploadedAll(ids: seq<Uploaded>) | NoneUploaded(failed: seq<Failure>)

  /** `upload(image)` is the id returned by `__upload_single_image`, or `None` when it reports an error. */
  function UploadRunSpec(queue: seq<Image>, upload: Image -> Option<string>): (r: UploadRun)
    ensures |r.ids| + |r.failed| == |queue|
  {
    if queue == [] then UploadRun([], [])
    else
      var prev := UploadRunSpec(queue[..|queue| - 1], upload);
      var img := queue[|queue| - 1];
      match upload(img)
      case Some(id) => prev.(ids := prev.ids + [Uploaded(img.column, img.url, id)])
      case None => prev.(failed := prev.failed + [Failure(img.column, img.url)])
  }

  function UploadSpec(queue: seq<Image>, upload: Image -> Option<string>): UploadOutcome
  {
    var run := UploadRunSpec(queue, upload);
    if |run.failed| == |queue| then NoneUploaded(run.failed) else UploadedAll(run.ids)
  }

  /** `_upload_images`: one upload per queued image, results read back in submission order. */
  method UploadImages(queue: seq<Image>, upload: Image -> Option<string>) returns (r: UploadOutcome)
    ensures r == UploadSpec(queue, upload)
  {
    var ids, failed := [], [];
    for i := 0 to |queue|
      invariant UploadRun(ids, failed) == UploadRunSpec(queue[..i], upload)
    {
      assert queue[..i + 1][..i] == queue[..i];
      var img := queue[i];
      var result := upload(img);
      if result.Some? {
        ids := ids + [Uploaded(img.column, img.url, result.value)];
      } else {
        failed := failed + [Failure(img.column, img.url)];
      }
    }
    assert queue[..|queue|] == queue;
    if |failed| == |queue| {
      return NoneUploaded(failed);
    }
    return UploadedAll(ids);
  }

  /**
   * `_upload_images` fails exactly when every upload failed, which includes
   * the empty queue; otherwise at least one id comes back, and the ids are
   * the successful uploads in queue order.
   */
  lemma {:induction false} UploadFailsIffAllFail(queue: seq<Image>, upload: Image -> Option<string>)
    ensures UploadSpec(queue, upload).NoneUploaded? <==> forall k :: 0 <= k < |queue| ==> upload(queue[k]).None?
    ensures UploadSpec(queue, upload).UploadedAll? ==> |UploadSpec(queue, upload).ids| > 0
  {
    if queue != [] {
      var init := queue[..|queue| - 1];
      UploadFailsIffAllFail(init, upload);
      assert forall k :: 0 <= k < |init| ==> init[k] == queue[k];
    }
  }

  /** The uploaded ids keep queue order: id `k` comes from the `k`-th successful upload. */
  lemma {:induction false} UploadKeepsOrder(a: seq<Image>, b: seq<Image>, upload: Image -> Option<string>)
    ensures UploadRunSpec(a + b, upload).ids == UploadRunSpec(a, upload).ids + UploadRunSpec(b, upload).ids
  {
    if b == [] {
      assert a + b == a;
    } else {
      var b' := b[..|b| - 1];
      UploadKeepsOrder(a, b', upload);
      assert (a + b)[..|a + b| - 1] == a + b';
    }
  }

  // ---------------------------------------------------------------- _call_create_product: colour images

  /** A sales attribute of a SKU; `skuImg` is the uri of its `sku_img`, when one is set. */
  datatype Attr = Attr(name: string, value: string, skuImg: Option<string>)
  type Sku = seq<Attr>

  /** The position of the first attribute named `Color`, if any. */
  function ColorIndex(sku: Sku): (r: Option<nat>)
    ensures r.Some? ==> r.value < |sku| && sku[r.value].name == "Color"
    ensures r.Some? ==> forall j :: 0 <= j < r.value ==> sku[j].name != "Color"
    ensures r.None? ==> forall j :: 0 <= j < |sku| ==> sku[j].name != "Color"
  {
    if sku == [] then None
    else if sku[0].name == "Color" then Some(0)
    else match ColorIndex(sku[1..])
      case None => None
      case Some(k) => Some(k + 1)
  }

  /** `color_uri_mapping`, with the colours in the order they were first met. */
  datatype Palette = Palette(mapping: map<string, string>, seen: seq<string>)
  datatype ColorRun = ColorRun(palette: Palette, skus: seq<Sku>)

  /** One SKU of the loop: a new colour gets the next variant image, and the Color attribute gets its colour's uri. */
  function ColorStep(p: Palette, sku: Sku, ids: seq<string>): (r: ColorRun)
    requires |ids| > 0
    ensures |r.skus| == 1
  {
    match ColorIndex(sku)
    case None => ColorRun(p, [sku])
    case Some(k) =>
      var c := sku[k].value;
      var p' := if c in p.mapping then p else Palette(p.mapping[c := ids[|p.mapping| % |ids|]], p.seen + [c]);
      ColorRun(p', [sku[k := sku[k].(skuImg := Some(p'.mapping[c]))]])
  }

  function ColorSpec(skus: seq<Sku>, ids: seq<string>): (r: ColorRun)
    requires |ids| > 0
    ensures |r.skus| == |skus|
  {
    if skus == [] then ColorRun(Palette(map[], []), [])
    else
      var prev := ColorSpec(skus[..|skus| - 1], ids);
      var step := ColorStep(prev.palette, skus[|skus| - 1], ids);
      ColorRun(step.palette, prev.skus + step.skus)
  }

  /** The colour loop of `_call_create_product`, run only when there are variant images. */
  method AssignColorImages(skus: seq<Sku>, ids: seq<string>) returns (out: seq<Sku>)
    ensures |ids| == 0 ==> out == skus
    ensures |ids| > 0 ==> out == ColorSpec(skus, ids).skus
  {
    if |ids| == 0 {
      return skus;
    }
    var mapping: map<string, string> := map[];
    ghost var seen: seq<string> := [];
    out := [];
    for i := 0 to |skus|
      invariant ColorRun(Palette(mapping, seen), out) == ColorSpec(skus[..i], ids)
    {
      assert skus[..i + 1][..i] == skus[..i];
      var sku := skus[i];
      var k := ColorIndex(sku);
      if k.Some? {
        var c := sku[k.value].value;
        if c !in mapping {
          mapping := mapping[c := ids[|mapping| % |ids|]];
          seen := seen + [c];
        }
        sku := sku[k.value := sku[k.value].(skuImg := Some(mapping[c]))];
      }
      out := out + [sku];
    }
    assert skus[..|skus|] == skus;
  }

  /** The colours met so far are distinct, are the mapping's keys, and the `k`-th got variant image `k mod n`. */
  ghost predicate Coherent(p: Palette, ids: seq<string>)
    requires |ids| > 0
  {
    && |p.seen| == |p.mapping|
    && (forall c :: c in p.mapping <==> c in p.seen)
    && (forall j, k :: 0 <= j < k < |p.seen| ==> p.seen[j] != p.seen[k])
    && (forall k :: 0 <= k < |p.seen| ==> p.seen[k] in p.mapping && p.mapping[p.seen[k]] == ids[k % |ids|])
  }

  /** A SKU with its Color attribute's image set to `uri`, and nothing else changed. */
  predicate Painted(before: Sku, after: Sku, uri: Option<string>)
  {
    && |after| == |before|
    && match ColorIndex(before)
       case None => after == before
       case Some(k) => after == before[k := before[k].(skuImg := uri)]
  }

  /** The uri a palette gives a SKU's colour, when the SKU has a Color attribute. */
  function UriOf(p: Palette, sku: Sku): Option<string>
  {
    match ColorIndex(sku)
    case None => None
    case Some(k) => if sku[k].value in p.mapping then Some(p.mapping[sku[k].value]) else None
  }

  lemma ColorStepKeeps(p: Palette, sku: Sku, ids: seq<string>)
    requires |ids| > 0 && Coherent(p, ids)
    ensures Coherent(ColorStep(p, sku, ids).palette, ids)
    ensures Extends(p, ColorStep(p, sku, ids).palette)
    ensures |ColorStep(p, sku, ids).skus| == 1
    ensures Painted(sku, ColorStep(p, sku, ids).skus[0], UriOf(ColorStep(p, sku, ids).palette, sku))
    ensures ColorIndex(sku).Some? ==> sku[ColorIndex(sku).value].value in ColorStep(p, sku, ids).palette.mapping
  {
    var k := ColorIndex(sku);
    if k.Some? {
      var c := sku[k.value].value;
      if c !in p.mapping {
        CoherentAdd(p, c, ids);
      }
    }
  }

  /** A colour not met before joins the palette with the next variant image, keeping it coherent. */
  lemma CoherentAdd(p: Palette, c: string, ids: seq<string>)
    requires |ids| > 0 && Coherent(p, ids) && c !in p.mapping
    ensures Coherent(Palette(p.mapping[c := ids[|p.mapping| % |ids|]], p.seen + [c]), ids)
  {
    assert c !in p.seen;
    var p' := Palette(p.mapping[c := ids[|p.mapping| % |ids|]], p.seen + [c]);
    assert |p'.mapping| == |p.mapping| + 1;
    assert forall j :: 0 <= j < |p.seen| ==> p'.seen[j] == p.seen[j];
  }

  /**
   * After the loop, every SKU's Color attribute carries the uri of its
   * colour, and nothing else in any SKU has changed; the colours met are
   * distinct and the `k`-th new colour got `images_link_variant_ids[k mod n]`.
   */
  lemma {:induction false} ColorSpecPaints(skus: seq<Sku>, ids: seq<string>)
    requires |ids| > 0
    ensures Coherent(ColorSpec(skus, ids).palette, ids)
    ensures |ColorSpec(skus, ids).skus| == |skus|
    ensures forall i :: 0 <= i < |skus| ==>
      Painted(skus[i], ColorSpec(skus, ids).skus[i], UriOf(ColorSpec(skus, ids).palette, skus[i]))
    ensures forall i :: 0 <= i < |skus| && ColorIndex(skus[i]).Some? ==>
      skus[i][ColorIndex(skus[i]).value].value in ColorSpec(skus, ids).palette.mapping
  {
    if skus != [] {
      ColorSpecPaints(skus[..|skus| - 1], ids);
      ColorPaintsStep(skus, ids);
    }
  }

  /** What `ColorSpecPaints` states about `skus`. */
  ghost predicate PaintsAll(skus: seq<Sku>, ids: seq<string>)
    requires |ids| > 0
  {
    Coherent(ColorSpec(skus, ids).palette, ids) && PaintedAll(skus, ColorSpec(skus, ids).skus, ColorSpec(skus, ids).palette)
  }

  /** Each SKU of `after` is its SKU of `before` painted from `p`, whose mapping knows its colour. */
  predicate PaintedAll(before: seq<Sku>, after: seq<Sku>, p: Palette)
  {
    && |after| == |before|
    && (forall i :: 0 <= i < |before| ==> Painted(before[i], after[i], UriOf(p, before[i])))
    && (forall i :: 0 <= i < |before| && ColorIndex(before[i]).Some? ==>
          before[i][ColorIndex(before[i]).value].value in p.mapping)
  }

  /** `q` keeps every colour of `p` with its image. */
  predicate Extends(p: Palette, q: Palette)
  {
    forall c :: c in p.mapping ==> c in q.mapping && q.mapping[c] == p.mapping[c]
  }

  lemma ColorPaintsStep(skus: seq<Sku>, ids: seq<string>)
    requires |ids| > 0 && skus != [] && PaintsAll(skus[..|skus| - 1], ids)
    ensures PaintsAll(skus, ids)
  {
    var init := skus[..|skus| - 1];
    var prev := ColorSpec(init, ids);
    var last := skus[|skus| - 1];
    ColorStepKeeps(prev.palette, last, ids);
    var step := ColorStep(prev.palette, last, ids);
    PaintedAllGrow(init, prev.skus, prev.palette, step.palette);
    PaintedAllAppend(init, prev.skus, [last], step.skus, step.palette);
    InitLast(skus);
  }

  lemma InitLast(s: seq<Sku>)
    requires s != []
    ensures s[..|s| - 1] + [s[|s| - 1]] == s
  {
  }

  lemma PaintedAllGrow(before: seq<Sku>, after: seq<Sku>, p: Palette, q: Palette)
    requires PaintedAll(before, after, p) && Extends(p, q)
    ensures PaintedAll(before, after, q)
  {
    forall i | 0 <= i < |before| ensures Painted(before[i], after[i], UriOf(q, before[i])) {
      PaintedKept(before[i], after[i], p, q);
    }
  }

  lemma PaintedAllAppend(b1: seq<Sku>, a1: seq<Sku>, b2: seq<Sku>, a2: seq<Sku>, q: Palette)
    requires PaintedAll(b1, a1, q) && PaintedAll(b2, a2, q)
    ensures PaintedAll(b1 + b2, a1 + a2, q)
  {
    var b, a := b1 + b2, a1 + a2;
    forall i | 0 <= i < |b| ensures b[i] == (if i < |b1| then b1[i] else b2[i - |b1|]) {}
    forall i | 0 <= i < |a| ensures a[i] == (if i < |a1| then a1[i] else a2[i - |a1|]) {}
  }

  /** A SKU painted from a palette stays painted the same once the palette only grows. */
  lemma PaintedKept(before: Sku, after: Sku, p: Palette, q: Palette)
    requires Painted(before, after, UriOf(p, before))
    requires ColorIndex(before).Some? ==> before[ColorIndex(before).value].value in p.mapping
    requires Extends(p, q)
    ensures Painted(before, after, UriOf(q, before))
    ensures ColorIndex(before).Some? ==> before[ColorIndex(before).value].value in q.mapping
  {
    assert UriOf(q, before) == UriOf(p, before);
  }

  /** Two SKUs of the same colour get the same variant image. */
  lemma SameColorSameImage(skus: seq<Sku>, ids: seq<string>, i: nat, j: nat)
    requires |ids| > 0 && i < |skus| && j < |skus|
    requires ColorIndex(skus[i]).Some? && ColorIndex(skus[j]).Some?
    requires skus[i][ColorIndex(skus[i]).value].value == skus[j][ColorIndex(skus[j]).value].value
    ensures |ColorSpec(skus, ids).skus[i]| == |skus[i]| && |ColorSpec(skus, ids).skus[j]| == |skus[j]|
    ensures var out := ColorSpec(skus, ids).skus;
      out[i][ColorIndex(skus[i]).value].skuImg == out[j][ColorIndex(skus[j]).value].skuImg
  {
    ColorSpecPaints(skus, ids);
  }

  /**
   * Running the colour loop again over its own output changes nothing: the
   * names and colours it reads are the ones it left untouched. Rows that
   * share one `skus` list therefore all see the same images.
   */
  lemma {:induction false} ColorSpecIdempotent(skus: seq<Sku>, ids: seq<string>)
    requires |ids| > 0
    ensures ColorSpec(ColorSpec(skus, ids).skus, ids) == ColorSpec(skus, ids)
  {
    if skus != [] {
      var init := skus[..|skus| - 1];
      var run := ColorSpec(skus, ids);
      var prev := ColorSpec(init, ids);
      var step := ColorStep(prev.palette, skus[|skus| - 1], ids);
      ColorSpecIdempotent(init, ids);
      assert run.skus[..|run.skus| - 1] == prev.skus;
      assert run.skus[|run.skus| - 1] == step.skus[0];
      ColorStepIdempotent(prev.palette, skus[|skus| - 1], ids);
    }
  }

  /** One step over its own output, from the same palette, gives the same step. */
  lemma ColorStepIdempotent(p: Palette, sku: Sku, ids: seq<string>)
    requires |ids| > 0
    ensures ColorStep(p, ColorStep(p, sku, ids).skus[0], ids) == ColorStep(p, sku, ids)
  {
    var k := ColorIndex(sku);
    if k.Some? {
      var sku' := ColorStep(p, sku, ids).skus[0];
      assert |sku'| == |sku| && forall j :: 0 <= j < |sku| ==> sku'[j].name == sku[j].name;
      ColorIndexByNames(sku, sku');
      assert sku'[k.value].value == sku[k.value].value;
      var step := ColorStep(p, sku, ids);
      var c := sku[k.value].value;
      var uri := Some(step.palette.mapping[c]);
      assert sku'[k.value].skuImg == uri;
      assert sku'[k.value := sku'[k.value].(skuImg := uri)] == sku';
    }
  }

  lemma ColorIndexOfPainted(before: Sku, after: Sku, uri: Option<string>)
    requires Painted(before, after, uri)
    ensures ColorIndex(after) == ColorIndex(before)
    ensures ColorIndex(before).Some? ==> after[ColorIndex(before).value].value == before[ColorIndex(before).value].value
  {
    var k := ColorIndex(before);
    if k.Some? {
      assert forall j :: 0 <= j < |after| ==> after[j].name == before[j].name;
      ColorIndexByNames(before, after);
    } else {
      assert after == before;
    }
  }

  lemma {:induction false} ColorIndexByNames(a: Sku, b: Sku)
    requires |a| == |b| && forall j :: 0 <= j < |a| ==> a[j].name == b[j].name
    ensures ColorIndex(a) == ColorIndex(b)
  {
    if a != [] {
      ColorIndexByNames(a[1..], b[1..]);
    }
  }

  // ---------------------------------------------------------------- process_item

  /** The outcome of `process_item` for one spreadsheet row. */
  datatype ItemResult =
    | ImagesNotDownloaded(failed: seq<Failure>)       // E001
    | ImagesNotUploaded(failed: seq<Failure>)         // E002
    | CreateRejected(imageIds: seq<string>)           // E003: the reply has no `data`
    | Created(imageIds: seq<string>, skus: seq<Sku>)

  /** A call of `process_item`: the dictionary it returns, or the exception it raises. */
  datatype ItemRun = Returned(result: ItemResult) | Raised(error: string)

  /**
   * The services one row is processed with. `download` and `notImage` are
   * `_process_image_url` (see `FetchSpec` and `FirstUnreadable`), `upload` is
   * `__upload_single_image`, `accepted` is whether the create reply carries
   * `data`, and `notJson` is the error `json.loads` raises on a create reply
   * that is not JSON. The create call's oracles see the image ids and the
   * SKUs sent.
   */
  datatype Services = Services(download: string -> Option<string>, notImage: string -> Option<string>,
                               upload: Image -> Option<string>,
                               accepted: (seq<string>, seq<Sku>) -> bool,
                               notJson: (seq<string>, seq<Sku>) -> Option<string>)

  /** `item.get("images", [])` of a row without a dictionary of images is a list, and `.items()` raises. */
  const NoImageDict := "'list' object has no attribute 'items'"

  function Ids(ups: seq<Uploaded>): (r: seq<string>)
    ensures |r| == |ups| && forall k :: 0 <= k < |ups| ==> r[k] == ups[k].id
  {
    seq(|ups|, k requires 0 <= k < |ups| => ups[k].id)
  }

  /**
   * The dictionary `process_item` returns when nothing raises: E001 when as
   * many downloads failed as there are image entries; otherwise the queue is
   * uploaded, E002 when that fails; otherwise the product is submitted with
   * the uploaded ids followed by `fixed_image_ids`, and with colour images
   * assigned when there are variant images.
   */
  function ProcessItemSpec(images: seq<Entry>, fixedIds: seq<string>, skus: seq<Sku>, variantIds: seq<string>,
                           download: string -> Option<string>, upload: Image -> Option<string>,
                           accepted: (seq<string>, seq<Sku>) -> bool): ItemResult
  {
    var cl := ClassifySpec(images);
    var fetched := FetchSpec(cl.downloads, download);
    if |fetched.failed| == |images| then ImagesNotDownloaded(fetched.failed)
    else
      match UploadSpec(Queue(images, download), upload)
      case NoneUploaded(failed) => ImagesNotUploaded(failed)
      case UploadedAll(ups) => Submit(Ids(ups) + fixedIds, skus, variantIds, accepted)
  }

  /**
   * `process_item` with its exceptions: a row without an image dictionary
   * raises at once; a link whose reply is not an image raises when its
   * future is read, the first such link in entry order; a create reply that
   * is not JSON raises after the create call. Otherwise the row returns the
   * dictionary of `ProcessItemSpec`.
   */
  function ItemRunSpec(images: Option<seq<Entry>>, fixedIds: seq<string>, skus: seq<Sku>, variantIds: seq<string>,
                       s: Services): (r: ItemRun)
    ensures images.None? ==> r == Raised(NoImageDict)
    ensures r.Returned? ==>
      && images.Some? && FirstUnreadable(ClassifySpec(images.value).downloads, s.notImage).None?
      && r.result == ProcessItemSpec(images.value, fixedIds, skus, variantIds, s.download, s.upload, s.accepted)
    ensures images.Some? && FirstUnreadable(ClassifySpec(images.value).downloads, s.notImage).Some? ==> r.Raised?
  {
    if images.None? then Raised(NoImageDict)
    else
      var downloads := ClassifySpec(images.value).downloads;
      match FirstUnreadable(downloads, s.notImage)
      case Some(k) => Raised(s.notImage(downloads[k].value).value)
      case None =>
        CreateRun(ProcessItemSpec(images.value, fixedIds, skus, variantIds, s.download, s.upload, s.accepted),
                  skus, variantIds, s.notJson)
  }

  /** The run of a row whose downloads are all readable: it raises only when the create reply is not JSON. */
  function CreateRun(r: ItemResult, skus: seq<Sku>, variantIds: seq<string>,
                     notJson: (seq<string>, seq<Sku>) -> Option<string>): ItemRun
  {
    if (r.Created? || r.CreateRejected?) && notJson(r.imageIds, SentSkus(skus, variantIds)).Some? then
      Raised(notJson(r.imageIds, SentSkus(skus, variantIds)).value)
    else Returned(r)
  }

  /** The SKUs the create call sends: colour images are assigned when there are variant images. */
  function SentSkus(skus: seq<Sku>, variantIds: seq<string>): seq<Sku>
  {
    if |variantIds| > 0 then ColorSpec(skus, variantIds).skus else skus
  }

  /** `_call_create_product`: the colour images are assigned, then the product is created. */
  function Submit(ids: seq<string>, skus: seq<Sku>, variantIds: seq<string>,
                  accepted: (seq<string>, seq<Sku>) -> bool): (r: ItemResult)
    ensures (r.Created? || r.CreateRejected?) && r.imageIds == ids
  {
    var painted := SentSkus(skus, variantIds);
    if accepted(ids, painted) then Created(ids, painted) else CreateRejected(ids)
  }

  method ProcessItem(images: Option<seq<Entry>>, fixedIds: seq<string>, skus: seq<Sku>, variantIds: seq<string>,
                     s: Services) returns (r: ItemRun)
    ensures r == ItemRunSpec(images, fixedIds, skus, variantIds, s)
  {
    if images.None? {
      return Raised(NoImageDict);
    }
    var downloads, inlines := ClassifyImages(images.value);
    var ok, failed, raised := FetchImages(downloads, s.download, s.notImage);
    if raised.Some? {
      return Raised(raised.value);
    }
    r := SubmitFetched(images.value, inlines, ok, failed, fixedIds, skus, variantIds, s);
  }

  /** The rest of `process_item` once every download is in and readable: the E001 check, the uploads, the create call. */
  method SubmitFetched(images: seq<Entry>, inlines: seq<Fixed>, ok: seq<Image>, failed: seq<Failure>,
                       fixedIds: seq<string>, skus: seq<Sku>, variantIds: seq<string>, s: Services) returns (r: ItemRun)
    requires inlines == ClassifySpec(images).inlines
    requires Fetched(ok, failed) == FetchSpec(ClassifySpec(images).downloads, s.download)
    ensures r == CreateRun(ProcessItemSpec(images, fixedIds, skus, variantIds, s.download, s.upload, s.accepted),
                           skus, variantIds, s.notJson)
  {
    if |failed| == |images| {
      return Returned(ImagesNotDownloaded(failed));
    }
    var queue := ArrangeQueue(inlines, ok);
    var uploaded := UploadImages(queue, s.upload);
    if uploaded.NoneUploaded? {
      return Returned(ImagesNotUploaded(uploaded.failed));
    }
    r := CallCreateProduct(Ids(uploaded.ids) + fixedIds, skus, variantIds, s.accepted, s.notJson);
  }

  method CallCreateProduct(ids: seq<string>, skus: seq<Sku>, variantIds: seq<string>,
                           accepted: (seq<string>, seq<Sku>) -> bool,
                           notJson: (seq<string>, seq<Sku>) -> Option<string>) returns (r: ItemRun)
    ensures notJson(ids, SentSkus(skus, variantIds)).Some? ==> r == Raised(notJson(ids, SentSkus(skus, variantIds)).value)
    ensures notJson(ids, SentSkus(skus, variantIds)).None? ==> r == Returned(Submit(ids, skus, variantIds, accepted))
  {
    var painted := AssignColorImages(skus, variantIds);
    var reply := notJson(ids, painted);
    if reply.Some? {
      r := Raised(reply.value);
    } else if accepted(ids, painted) {
      r := Returned(Created(ids, painted));
    } else {
      r := Returned(CreateRejected(ids));
    }
  }

  /**
   * E001 is returned exactly when every image entry is a link and every
   * download failed; a row with no images therefore always gets E001.
   */
  lemma DownloadCheck(images: seq<Entry>, fixedIds: seq<string>, skus: seq<Sku>, variantIds: seq<string>,
                      download: string -> Option<string>, upload: Image -> Option<string>,
                      accepted: (seq<string>, seq<Sku>) -> bool)
    ensures ProcessItemSpec(images, fixedIds, skus, variantIds, download, upload, accepted).ImagesNotDownloaded? <==>
      (forall k :: 0 <= k < |images| ==> Text.StartsWith(images[k].value, "https")) &&
      (forall k :: 0 <= k < |images| ==> download(images[k].value).None?)
  {
    var cl := ClassifySpec(images);
    AllDownloads(images);
    AllDownloadsFailed(cl.downloads, download);
  }

  /**
   * Past E001, E002 is returned exactly when every queued upload failed;
   * otherwise the product is submitted with at least one uploaded id,
   * followed by `fixed_image_ids`.
   */
  lemma UploadCheck(images: seq<Entry>, fixedIds: seq<string>, skus: seq<Sku>, variantIds: seq<string>,
                    download: string -> Option<string>, upload: Image -> Option<string>,
                    accepted: (seq<string>, seq<Sku>) -> bool)
    requires !ProcessItemSpec(images, fixedIds, skus, variantIds, download, upload, accepted).ImagesNotDownloaded?
    ensures ProcessItemSpec(images, fixedIds, skus, variantIds, download, upload, accepted).ImagesNotUploaded? <==>
      forall k :: 0 <= k < |Queue(images, download)| ==> upload(Queue(images, download)[k]).None?
    ensures var r := ProcessItemSpec(images, fixedIds, skus, variantIds, download, upload, accepted);
      r.Created? || r.CreateRejected? ==>
        |r.imageIds| > |fixedIds| && r.imageIds[|r.imageIds| - |fixedIds|..] == fixedIds
  {
    var queue := Queue(images, download);
    UploadFailsIffAllFail(queue, upload);
    var up := UploadSpec(queue, upload);
    if up.UploadedAll? {
      var ids := Ids(up.ids) + fixedIds;
      assert ids[|ids| - |fixedIds|..] == fixedIds;
    }
  }

  /** Every link of a row is submitted for download. */
  lemma {:induction false} LinksAreDownloaded(images: seq<Entry>)
    ensures forall k :: 0 <= k < |images| && Text.StartsWith(images[k].value, "https") ==>
      images[k] in ClassifySpec(images).downloads
  {
    if images != [] {
      var init := images[..|images| - 1];
      LinksAreDownloaded(init);
      assert forall k :: 0 <= k < |init| ==> init[k] == images[k];
    }
  }

  /**
   * A row with a link whose reply is not an image raises, whatever the other
   * services answer; a row that returns a dictionary returns the one of
   * `ProcessItemSpec`.
   */
  lemma UnreadableLinkRaises(images: seq<Entry>, k: nat, fixedIds: seq<string>, skus: seq<Sku>,
                             variantIds: seq<string>, s: Services)
    requires k < |images| && Text.StartsWith(images[k].value, "https") && s.notImage(images[k].value).Some?
    ensures ItemRunSpec(Some(images), fixedIds, skus, variantIds, s).Raised?
  {
    LinksAreDownloaded(images);
  }

  /** The upload queue of a row whose downloads are done. */
  function Queue(images: seq<Entry>, download: string -> Option<string>): seq<Image>
  {
    var cl := ClassifySpec(images);
    Arrange(cl.inlines, FetchSpec(cl.downloads, download).ok)
  }

  // ---------------------------------------------------------------- ProcessExcel.post

  /** A spreadsheet row: its optional title and description, and its image dictionary if it has one. */
  datatype Row = Row(title: Option<string>, description: Option<string>, images: Option<seq<Entry>>)
  /** The `skus` argument a row is processed with: its own entry of `skus`, or the whole list. */
  datatype SkusChoice = RowSkus(index: nat) | SharedSkus
  datatype Submission = Submission(order: nat, description: string, skus: SkusChoice)
  /** One entry of the response; `detail` is the failed item's result, `None` on success. */
  datatype RowResult = RowResult(orderInExcel: nat, title: string, status: string, detail: Option<ItemResult>)

  /**
   * What every row is processed with, computed before the rows: the fixed
   * image ids, the variant image ids, and the SKUs of each choice.
   */
  datatype Shared = Shared(fixedIds: seq<string>, variantIds: seq<string>, skusOf: SkusChoice -> seq<Sku>)

  /**
   * The reply of `ProcessExcel.post`: 201 with one entry per submitted row,
   * or an `HttpResponse` built from `{"error": str(e)}`, whose body is the
   * dictionary's one key; `cause` is the `str(e)` it was built from.
   */
  datatype ExcelReply = Processed(results: seq<RowResult>) | Failed(status: nat, cause: string)

  /** `str(e)` of `Shop.DoesNotExist`. */
  const ShopMissing := "Shop matching query does not exist."

  /** `all(isinstance(item, list) for item in skus)`, true for an empty list. */
  predicate AllLists(skusAreLists: seq<bool>)
  {
    forall k :: 0 <= k < |skusAreLists| ==> skusAreLists[k]
  }

  /**
   * The rows submitted for processing: when every `skus` entry is a list,
   * row `i` is submitted with `skus[i]` only when `i < len(skus)`; otherwise
   * every row is submitted with the whole list. The description is the row's
   * own followed by the common one.
   */
  function PlanSpec(rows: seq<Row>, skusAreLists: seq<bool>, description: string): (plan: seq<Submission>)
    ensures forall k :: 0 <= k < |plan| ==> plan[k].order < |rows|
  {
    if rows == [] then []
    else
      var i := |rows| - 1;
      var prev := PlanSpec(rows[..i], skusAreLists, description);
      var desc := rows[i].description.GetOr("") + description;
      if !AllLists(skusAreLists) then prev + [Submission(i, desc, SharedSkus)]
      else if i < |skusAreLists| then prev + [Submission(i, desc, RowSkus(i))]
      else prev
  }

  /** The `process_item` call of a submitted row. */
  function RowRun(sub: Submission, rows: seq<Row>, sh: Shared, s: Services): ItemRun
    requires sub.order < |rows|
  {
    ItemRunSpec(rows[sub.order].images, sh.fixedIds, sh.skusOf(sub.skus), sh.variantIds, s)
  }

  function ResultOf(sub: Submission, rows: seq<Row>, r: ItemResult): RowResult
    requires sub.order < |rows|
  {
    var title := rows[sub.order].title.GetOr("");
    if r.Created? then RowResult(sub.order + 1, title, "success", None)
    else RowResult(sub.order + 1, title, "error", Some(r))
  }

  /** The first call that raised, if any. */
  function FirstRaised(runs: seq<ItemRun>): (r: Option<nat>)
    ensures r.None? <==> forall k :: 0 <= k < |runs| ==> runs[k].Returned?
    ensures r.Some? ==> r.value < |runs| && runs[r.value].Raised?
    ensures r.Some? ==> forall j :: 0 <= j < r.value ==> runs[j].Returned?
  {
    if runs == [] then None
    else
      var i := |runs| - 1;
      match FirstRaised(runs[..i])
      case Some(k) => Some(k)
      case None => if runs[i].Raised? then Some(i) else None
  }

  /** The `process_item` calls of the submitted rows, in submission order. */
  function Runs(plan: seq<Submission>, rows: seq<Row>, sh: Shared, s: Services): (runs: seq<ItemRun>)
    requires forall k :: 0 <= k < |plan| ==> plan[k].order < |rows|
    ensures |runs| == |plan| && forall k :: 0 <= k < |plan| ==> runs[k] == RowRun(plan[k], rows, sh, s)
  {
    seq(|plan|, k requires 0 <= k < |plan| => RowRun(plan[k], rows, sh, s))
  }

  /**
   * Reading the submitted rows' futures back in submission order: the first
   * row whose call raised re-raises, and the catch-all answers 400;
   * otherwise every row has its entry.
   */
  function Collect(plan: seq<Submission>, rows: seq<Row>, runs: seq<ItemRun>): ExcelReply
    requires |runs| == |plan| && forall k :: 0 <= k < |plan| ==> plan[k].order < |rows|
  {
    match FirstRaised(runs)
    case Some(k) => Failed(400, runs[k].error)
    case None => Processed(seq(|plan|, k requires 0 <= k < |plan| => ResultOf(plan[k], rows, runs[k].result)))
  }

  /** The reply of `ProcessExcel.post` for a shop that exists, once the shared images are uploaded. */
  function ExcelSpec(rows: seq<Row>, skusAreLists: seq<bool>, description: string, sh: Shared, s: Services): (r: ExcelReply)
    ensures r.Processed? ==> |r.results| == |PlanSpec(rows, skusAreLists, description)| <= |rows|
    ensures r.Failed? ==> r.status == 400
  {
    var plan := PlanSpec(rows, skusAreLists, description);
    PlanShape(rows, skusAreLists, description);
    Collect(plan, rows, Runs(plan, rows, sh, s))
  }

  /** The submitted rows are a prefix of the spreadsheet, each with its own position. */
  lemma {:induction false} PlanShape(rows: seq<Row>, skusAreLists: seq<bool>, description: string)
    ensures var plan := PlanSpec(rows, skusAreLists, description);
      && |plan| == (if !AllLists(skusAreLists) then |rows|
                   else if |skusAreLists| < |rows| then |skusAreLists| else |rows|)
      && forall k :: 0 <= k < |plan| ==>
           && plan[k].order == k
           && plan[k].description == rows[k].description.GetOr("") + description
           && plan[k].skus == (if AllLists(skusAreLists) then RowSkus(k) else SharedSkus)
  {
    if rows != [] {
      var init := rows[..|rows| - 1];
      PlanShape(init, skusAreLists, description);
      assert forall k :: 0 <= k < |init| ==> init[k] == rows[k];
    }
  }

  method ProcessExcel(rows: seq<Row>, skusAreLists: seq<bool>, description: string, shopExists: bool,
                      sh: Shared, s: Services) returns (r: ExcelReply)
    ensures !shopExists ==> r == Failed(404, ShopMissing)
    ensures shopExists ==> r == ExcelSpec(rows, skusAreLists, description, sh, s)
  {
    if !shopExists {
      return Failed(404, ShopMissing);
    }
    var allLists := true;
    for k := 0 to |skusAreLists|
      invariant allLists == AllLists(skusAreLists[..k])
    {
      allLists := allLists && skusAreLists[k];
    }
    assert skusAreLists[..|skusAreLists|] == skusAreLists;
    var futures := SubmitRows(rows, skusAreLists, allLists, description);
    PlanShape(rows, skusAreLists, description);
    var runs := RunRows(futures, rows, sh, s);
    r := CollectResults(futures, rows, runs);
  }

  /** The loop submitting one `process_item` per row. */
  method SubmitRows(rows: seq<Row>, skusAreLists: seq<bool>, allLists: bool, description: string)
    returns (futures: seq<Submission>)
    requires allLists == AllLists(skusAreLists)
    ensures futures == PlanSpec(rows, skusAreLists, description)
  {
    futures := [];
    for order := 0 to |rows|
      invariant futures == PlanSpec(rows[..order], skusAreLists, description)
    {
      assert rows[..order + 1][..order] == rows[..order];
      var desc := rows[order].description.GetOr("") + description;
      if allLists {
        if order < |skusAreLists| {
          futures := futures + [Submission(order, desc, RowSkus(order))];
        }
      } else {
        futures := futures + [Submission(order, desc, SharedSkus)];
      }
    }
    assert rows[..|rows|] == rows;
  }

  /**
   * The thread pool runs `process_item` for every submitted row; all of them
   * run, whichever of them raises.
   */
  method RunRows(futures: seq<Submission>, rows: seq<Row>, sh: Shared, s: Services) returns (runs: seq<ItemRun>)
    requires forall k :: 0 <= k < |futures| ==> futures[k].order < |rows|
    ensures runs == Runs(futures, rows, sh, s)
  {
    runs := [];
    for idx := 0 to |futures|
      invariant |runs| == idx
      invariant forall k :: 0 <= k < idx ==> runs[k] == RowRun(futures[k], rows, sh, s)
    {
      var sub := futures[idx];
      var run := ProcessItem(rows[sub.order].images, sh.fixedIds, sh.skusOf(sub.skus), sh.variantIds, s);
      runs := runs + [run];
    }
  }

  /** The loop over the submitted rows' futures, one response entry each, until one raises. */
  method CollectResults(futures: seq<Submission>, rows: seq<Row>, runs: seq<ItemRun>) returns (r: ExcelReply)
    requires |runs| == |futures| && forall k :: 0 <= k < |futures| ==> futures[k].order < |rows|
    ensures r == Collect(futures, rows, runs)
  {
    var results := [];
    for idx := 0 to |futures|
      invariant |results| == idx
      invariant forall k :: 0 <= k < idx ==> runs[k].Returned?
      invariant forall k :: 0 <= k < idx ==> results[k] == ResultOf(futures[k], rows, runs[k].result)
    {
      var sub := futures[idx];
      var run := runs[idx];
      if run.Raised? {
        return Failed(400, run.error);
      }
      var title := rows[sub.order].title.GetOr("");
      if run.result.Created? {
        results := results + [RowResult(sub.order + 1, title, "success", None)];
      } else {
        results := results + [RowResult(sub.order + 1, title, "error", Some(run.result))];
      }
    }
    r := Processed(results);
  }

  /**
   * When no submitted row raises, entry `k` of the response is for
   * spreadsheet row `k`, numbered from 1, with that row's title, and is an
   * error exactly when the row's product was not created. With list `skus`,
   * rows past the end of `skus` get no entry, and an empty `skus` gives an
   * empty response.
   */
  lemma ExcelResultPositions(rows: seq<Row>, skusAreLists: seq<bool>, description: string, sh: Shared, s: Services)
    ensures var plan := PlanSpec(rows, skusAreLists, description);
      var r := ExcelSpec(rows, skusAreLists, description, sh, s);
      r.Processed? ==>
      && (AllLists(skusAreLists) ==> |r.results| <= |skusAreLists|)
      && (skusAreLists == [] ==> r.results == [])
      && (!AllLists(skusAreLists) ==> |r.results| == |rows|)
      && forall k :: 0 <= k < |r.results| ==>
           && k < |rows|
           && r.results[k].orderInExcel == k + 1
           && r.results[k].title == rows[k].title.GetOr("")
           && (r.results[k].status == "error" <==> !RowRun(plan[k], rows, sh, s).result.Created?)
  {
    PlanShape(rows, skusAreLists, description);
  }

  /** Read back in order, the futures give a 400 exactly when one raised, with the first one's error. */
  lemma CollectAborts(plan: seq<Submission>, rows: seq<Row>, runs: seq<ItemRun>)
    requires |runs| == |plan| && forall k :: 0 <= k < |plan| ==> plan[k].order < |rows|
    ensures var r := Collect(plan, rows, runs);
      && (r.Failed? <==> exists k :: 0 <= k < |runs| && runs[k].Raised?)
      && (r.Failed? ==> r.status == 400)
      && (r.Failed? ==>
            exists k :: 0 <= k < |runs| && runs[k].Raised? && r.cause == runs[k].error && forall j :: 0 <= j < k ==> runs[j].Returned?)
      && (r.Processed? ==> |r.results| == |plan|)
  {
    var f := FirstRaised(runs);
    if f.Some? {
      assert runs[f.value].Raised?;
    }
  }

  /**
   * The response is a 400 exactly when some submitted row raises, and its
   * cause is the error of the first one.
   */
  lemma ExcelAborts(rows: seq<Row>, skusAreLists: seq<bool>, description: string, sh: Shared, s: Services)
    ensures var plan := PlanSpec(rows, skusAreLists, description);
      var r := ExcelSpec(rows, skusAreLists, description, sh, s);
      && (r.Failed? <==> exists k :: 0 <= k < |plan| && RowRun(plan[k], rows, sh, s).Raised?)
      && (r.Failed? ==> r.status == 400)
      && (r.Failed? ==>
            exists k :: 0 <= k < |plan| && RowRun(plan[k], rows, sh, s).Raised? && r.cause == RowRun(plan[k], rows, sh, s).error &&
              forall j :: 0 <= j < k ==> RowRun(plan[j], rows, sh, s).Returned?)
  {
    var plan := PlanSpec(rows, skusAreLists, description);
    var runs := Runs(plan, rows, sh, s);
    CollectAborts(plan, rows, runs);
    var r := Collect(plan, rows, runs);
    if r.Failed? {
      var k :| 0 <= k < |runs| && runs[k].Raised? && r.cause == runs[k].error &&
        forall j :: 0 <= j < k ==> runs[j].Returned?;
      assert RowRun(plan[k], rows, sh, s) == runs[k];
    }
  }

  /** A submitted row without an image dictionary makes the whole response a 400. */
  lemma RowWithoutImagesAborts(rows: seq<Row>, skusAreLists: seq<bool>, description: string, sh: Shared, s: Services,
                               k: nat)
    requires k < |PlanSpec(rows, skusAreLists, description)|
    requires rows[PlanSpec(rows, skusAreLists, description)[k].order].images.None?
    ensures ExcelSpec(rows, skusAreLists, description, sh, s).Failed?
  {
    var plan := PlanSpec(rows, skusAreLists, description);
    var runs := Runs(plan, rows, sh, s);
    assert runs[k].Raised?;
    CollectAborts(plan, rows, runs);
  }

  // ---------------------------------------------------------------- ProcessExcel.post: shared images

  /**
   * The fixed images and the variant images are each uploaded in order, and
   * every returned id is kept, empty or not. `upload` downloads the URL and
   * uploads its data.
   */
  method UploadEach(urls: seq<string>, upload: string -> string) returns (ids: seq<string>)
    ensures |ids| == |urls|
    ensures forall k :: 0 <= k < |urls| ==> ids[k] == upload(urls[k])
  {
    ids := [];
    for i := 0 to |urls|
      invariant |ids| == i && forall k :: 0 <= k < i ==> ids[k] == upload(urls[k])
    {
      ids := ids + [upload(urls[i])];
    }
  }

  /** The size chart is uploaded unless its URL is missing, empty or `"null"`, in which case its id is `""`. */
  function SizeChartId(url: Option<string>, upload: string -> string): (r: string)
    ensures url.Some? && url.value != "" && url.value != "null" ==> r == upload(url.value)
    ensures !(url.Some? && url.value != "" && url.value != "null") ==> r == ""
  {
    if url.Some? && url.value != "" && url.value != "null" then upload(url.value) else ""
  }
}
