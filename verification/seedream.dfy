/** The Seedream 4.0 Edit adapter of lib/seedream.js (fal.ai): in mock mode
    numbered SVG placeholders; live, an optional upload of the source image
    followed by one subscription to the edit model, whose reply is reduced
    to a list of image URLs. */
module Seedream {
  import opened Outcomes
  import opened Js
  import opened Web
  import opened Providers

  const ModelId := "fal-ai/bytedance/seedream/v4/edit"
  const MockTitle := "Seedream Mock Image"
  const DefaultMimeType := "image/png"
  const PromptHeadLength: nat := 60
  const SliceTypeError := "(prompt || \"no prompt\").slice is not a function"
  const MapTypeError := "imgs.map is not a function"

  /** `USE_MOCK`: no `FAL_KEY` in the environment the module was loaded in. */
  datatype Config = Config(useMock: bool)

  function LoadConfig(env: Env): (c: Config)
    ensures c.useMock <==> "FAL_KEY" !in env || env["FAL_KEY"] == ""
  {
    Config(EnvOr(env, "FAL_KEY", "") == "")
  }

  // ------------------------------------------------------------------ mock

  /** `(prompt || 'no prompt').slice(0, 60)`: only strings and arrays can be
      sliced; any other truthy prompt is a TypeError. */
  function MockHead(prompt: JsValue): (r: Outcome<JsValue>)
    ensures !Truthy(prompt) ==> r == Ok(Str("no prompt"))
    ensures prompt.Str? && prompt.s != "" ==> r == Ok(Str(Take(prompt.s, PromptHeadLength)))
    ensures r.Threw? <==> Truthy(prompt) && !prompt.Str? && !prompt.Arr?
  {
    var v := Or(prompt, Str("no prompt"));
    if v.Str? || v.Arr? then Ok(OptionalSlice(v, PromptHeadLength)) else Threw(SliceTypeError)
  }

  const MiddleDot := " \U{00B7} "

  /** The placeholder subtitle: the printed head, a middle dot and the
      1-based image number. */
  function MockSubtitle(prims: Primitives, head: JsValue, i: nat): string {
    NumberedSubtitle(Stringify(prims, head), MiddleDot, i + 1)
  }

  /** The length `Array.from({ length: Math.max(1, count) })` creates. */
  function MockLength(count: JsNumber): Outcome<nat> {
    ArrayFromLength(Max(Finite(1.0), count))
  }

  /** `mockGenerate`. The subtitle head is only computed when there is at
      least one image to label, so an unsliceable prompt fails only then. */
  function MockImages(prims: Primitives, prompt: JsValue, count: JsNumber): (r: Outcome<seq<string>>)
    ensures MockLength(count).Threw? ==> r == Threw("Invalid array length")
    ensures MockLength(count) == Ok(0) ==> r == Ok([])
    ensures MockLength(count).Ok? && MockLength(count).value > 0 ==>
              (r.Threw? <==> MockHead(prompt).Threw?)
    ensures r.Ok? ==> |r.value| == MockLength(count).value
    ensures r.Ok? && |r.value| > 0 ==> forall i | 0 <= i < |r.value| ::
              r.value[i] == SvgDataUrl(prims, SeedreamSvg, MockTitle, MockSubtitle(prims, MockHead(prompt).value, i))
  {
    var len :- MockLength(count);
    if len == 0 then Ok([])
    else
      var head :- MockHead(prompt);
      Ok(seq(len, (i: int) requires 0 <= i => SvgDataUrl(prims, SeedreamSvg, MockTitle, MockSubtitle(prims, head, i))))
  }

  /** `Math.max(1, count)` does not guard against NaN: a NaN count gives
      `Math.max(1, NaN) = NaN`, an array of length 0, and no images at all. */
  lemma MockNaNCountGivesNoImages(prims: Primitives, prompt: JsValue)
    ensures MockImages(prims, prompt, NaN) == Ok([])
  {
  }

  /** The mock draws as many images as a whole-number count asks for, with
      no cap at eight, as long as the prompt can be sliced. */
  lemma MockCountIsUncapped(prims: Primitives, prompt: JsValue, n: nat)
    requires 1 <= n <= MaxArrayLength
    requires !MockHead(prompt).Threw?
    ensures MockImages(prims, prompt, Finite(n as real)).Ok?
    ensures |MockImages(prims, prompt, Finite(n as real)).value| == n
  {
  }

  /** For any number up to 1 (zero and negatives included) the mock draws
      exactly one image, as long as the prompt can be sliced. */
  lemma MockSmallCountGivesOneImage(prims: Primitives, prompt: JsValue, count: JsNumber)
    requires (count.Finite? && count.r <= 1.0) || count == Infinity(true)
    requires !MockHead(prompt).Threw?
    ensures MockImages(prims, prompt, count).Ok? && |MockImages(prims, prompt, count).value| == 1
  {
  }

  // ------------------------------------------------------------------ live

  /** What `fal.storage.upload` receives: a `File` named after the image
      type when the runtime has a `File` global, else the blob itself. */
  datatype UploadFile = NamedFile(bytes: seq<byte>, name: string, mediaType: string) | RawBlob(blob: Blob)

  function UploadFor(image: Blob, hasFileGlobal: bool): (f: UploadFile)
    ensures hasFileGlobal <==> f.NamedFile?
    ensures f.NamedFile? ==> f.bytes == image.bytes
    ensures f.NamedFile? ==> f.mediaType == (if image.mediaType == "" then DefaultMimeType else image.mediaType)
    ensures f.NamedFile? ==> (f.name == "upload.png" <==> Contains(f.mediaType, "png"))
    ensures f.NamedFile? ==> f.name == "upload.png" || f.name == "upload.jpg"
  {
    var mime := if image.mediaType == "" then DefaultMimeType else image.mediaType;
    assert ("upload." + "jpg")[7] != "upload.png"[7];
    if hasFileGlobal then NamedFile(image.bytes, "upload." + (if Contains(mime, "png") then "png" else "jpg"), mime)
    else RawBlob(image)
  }

  /** The `input` of the subscription. */
  datatype SubscribeInput = SubscribeInput(
    prompt: string, imageUrls: seq<JsValue>, numImages: real, maxImages: real, enableSafetyChecker: bool)

  function LiveInput(prims: Primitives, prompt: JsValue, uploadedUrl: JsValue, count: JsNumber): (r: SubscribeInput)
    ensures r.numImages == r.maxImages == LiveCount(count) && 1.0 <= r.numImages <= 8.0
    ensures r.enableSafetyChecker
    ensures r.imageUrls == if Truthy(uploadedUrl) then [uploadedUrl] else []
    ensures !Truthy(prompt) ==> r.prompt == ""
    ensures prompt.Str? ==> r.prompt == prompt.s
  {
    var n := LiveCount(count);
    SubscribeInput(Stringify(prims, Or(prompt, Str(""))), if Truthy(uploadedUrl) then [uploadedUrl] else [], n, n, true)
  }

  /** A request to fal.ai. */
  datatype FalCall = Upload(file: UploadFile) | Subscribe(modelId: string, input: SubscribeInput)

  /** The client: the reply to the k-th call, or the error it rejects with. */
  type Fal = (nat, FalCall) -> Outcome<JsValue>

  /** What `generateSeedreamImage` settles to (the `images` of its result, or
      the error) and the requests it sent, in order. */
  datatype Run = Run(result: Outcome<seq<JsValue>>, calls: seq<FalCall>)

  /** `typeof i === 'string' ? i : i?.url` */
  function ImageUrlOf(item: JsValue): JsValue {
    if item.Str? then item else Get(item, "url")
  }

  /** `.filter(Boolean)`: the truthy elements, in order. */
  function KeepTruthy(xs: seq<JsValue>): (r: seq<JsValue>)
    ensures |r| <= |xs|
    ensures forall i | 0 <= i < |r| :: Truthy(r[i])
    ensures forall i | 0 <= i < |xs| && Truthy(xs[i]) :: xs[i] in r
    ensures multiset(r) <= multiset(xs)
  {
    if xs == [] then []
    else
      var rest := KeepTruthy(xs[1..]);
      assert xs == [xs[0]] + xs[1..];
      if Truthy(xs[0]) then [xs[0]] + rest else rest
  }

  /** Filtering distributes over concatenation, so the kept elements stay
      in their original order. */
  lemma {:induction false} KeepTruthyConcat(xs: seq<JsValue>, ys: seq<JsValue>)
    ensures KeepTruthy(xs + ys) == KeepTruthy(xs) + KeepTruthy(ys)
  {
    if xs == [] {
      assert xs + ys == ys;
    } else {
      assert (xs + ys)[0] == xs[0];
      assert (xs + ys)[1..] == xs[1..] + ys;
      KeepTruthyConcat(xs[1..], ys);
    }
  }

  /** Nothing is dropped from a list that is truthy throughout. */
  lemma {:induction false} KeepTruthyAllTruthy(xs: seq<JsValue>)
    requires forall i | 0 <= i < |xs| :: Truthy(xs[i])
    ensures KeepTruthy(xs) == xs
  {
    if xs != [] {
      KeepTruthyAllTruthy(xs[1..]);
      assert xs == [xs[0]] + xs[1..];
    }
  }

  /** `result?.data?.images || []` */
  function ReplyImages(result: JsValue): JsValue {
    Or(Get(Get(result, "data"), "images"), Arr([]))
  }

  /** The `images` the adapter resolves to. */
  function ExtractUrls(result: JsValue): (r: Outcome<seq<JsValue>>)
    ensures r.Threw? <==> !ReplyImages(result).Arr?
    ensures r.Ok? ==> |r.value| <= |ReplyImages(result).elems|
    ensures r.Ok? ==> forall i | 0 <= i < |r.value| :: Truthy(r.value[i])
  {
    var imgs := ReplyImages(result);
    if !imgs.Arr? then Threw(MapTypeError)
    else
      var urls := seq(|imgs.elems|, (i: int) requires 0 <= i < |imgs.elems| => ImageUrlOf(imgs.elems[i]));
      Ok(KeepTruthy(urls))
  }

  /** Each image is the string entry or the `url` of some entry of the
      reply, and every entry whose string or `url` is truthy contributes it. */
  lemma ExtractUrlsProvenance(result: JsValue)
    requires ReplyImages(result).Arr?
    ensures var xs := ReplyImages(result).elems;
      var r := ExtractUrls(result).value;
      && (forall i | 0 <= i < |r| :: exists j | 0 <= j < |xs| :: r[i] == ImageUrlOf(xs[j]))
      && (forall j | 0 <= j < |xs| && Truthy(ImageUrlOf(xs[j])) :: ImageUrlOf(xs[j]) in r)
  {
    var xs := ReplyImages(result).elems;
    var urls := seq(|xs|, (i: int) requires 0 <= i < |xs| => ImageUrlOf(xs[i]));
    var r := ExtractUrls(result).value;
    assert r == KeepTruthy(urls);
    forall i | 0 <= i < |r|
      ensures exists j | 0 <= j < |xs| :: r[i] == ImageUrlOf(xs[j])
    {
      assert r[i] in multiset(urls);
      var j :| 0 <= j < |urls| && urls[j] == r[i];
    }
    forall j | 0 <= j < |xs| && Truthy(ImageUrlOf(xs[j]))
      ensures ImageUrlOf(xs[j]) in r
    {
      assert urls[j] == ImageUrlOf(xs[j]);
    }
  }

  /** A reply listing non-empty URL strings is passed through whole and in
      order. */
  lemma ExtractUrlsKeepsUrlStrings(result: JsValue)
    requires ReplyImages(result).Arr?
    requires forall i | 0 <= i < |ReplyImages(result).elems| ::
               ReplyImages(result).elems[i].Str? && ReplyImages(result).elems[i].s != ""
    ensures ExtractUrls(result) == Ok(ReplyImages(result).elems)
  {
    var xs := ReplyImages(result).elems;
    var mapped := seq(|xs|, (i: int) requires 0 <= i < |xs| => ImageUrlOf(xs[i]));
    assert mapped == xs;
    KeepTruthyAllTruthy(xs);
  }

  /** The live path does not promise any image: a reply without usable URLs
      resolves to an empty list. */
  lemma LiveReplyMayHoldNoImages()
    ensures ExtractUrls(Obj(map["data" := Obj(map["images" := Arr([Obj(map[])])])])) == Ok([])
  {
    var result := Obj(map["data" := Obj(map["images" := Arr([Obj(map[])])])]);
    assert ReplyImages(result) == Arr([Obj(map[])]);
    assert ImageUrlOf(Obj(map[])) == Undefined;
  }

  /** `generateSeedreamImage({ image, prompt, count })`. */
  function GenerateImage(cfg: Config, prims: Primitives, hasFileGlobal: bool, prompt: JsValue,
                         image: Option<Blob>, count: JsNumber, fal: Fal): (r: Run)
    ensures cfg.useMock ==> (r.calls == [] && r.result == (
              match MockImages(prims, prompt, count)
              case Ok(images) => Ok(Strs(images))
              case Threw(e) => Threw(e)))
    ensures !cfg.useMock && image.None? ==>
              r.calls == [Subscribe(ModelId, LiveInput(prims, prompt, Null, count))]
    ensures !cfg.useMock && image.Some? ==> 1 <= |r.calls| <= 2 && r.calls[0] == Upload(UploadFor(image.value, hasFileGlobal))
    ensures !cfg.useMock && image.Some? && fal(0, r.calls[0]).Threw? ==>
              r.calls == [r.calls[0]] && r.result == Threw(fal(0, r.calls[0]).message)
    ensures !cfg.useMock && image.Some? && fal(0, r.calls[0]).Ok? ==>
              r.calls == [r.calls[0], Subscribe(ModelId, LiveInput(prims, prompt, fal(0, r.calls[0]).value, count))]
    ensures !cfg.useMock && r.calls[|r.calls| - 1].Subscribe? ==>
              r.result == match fal(|r.calls| - 1, r.calls[|r.calls| - 1])
                          case Ok(reply) => ExtractUrls(reply)
                          case Threw(e) => Threw(e)
  {
    if cfg.useMock then
      match MockImages(prims, prompt, count)
      case Ok(images) => Run(Ok(Strs(images)), [])
      case Threw(e) => Run(Threw(e), [])
    else
      match image
      case None => Subscribed(prims, prompt, Null, count, fal, [])
      case Some(img) =>
        var upload := Upload(UploadFor(img, hasFileGlobal));
        match fal(0, upload)
        case Threw(e) => Run(Threw(e), [upload])
        case Ok(url) => Subscribed(prims, prompt, url, count, fal, [upload])
  }

  /** The subscription after `before` has been sent, and what its reply yields. */
  function Subscribed(prims: Primitives, prompt: JsValue, uploadedUrl: JsValue, count: JsNumber,
                      fal: Fal, before: seq<FalCall>): (r: Run)
    ensures r.calls == before + [Subscribe(ModelId, LiveInput(prims, prompt, uploadedUrl, count))]
  {
    var call := Subscribe(ModelId, LiveInput(prims, prompt, uploadedUrl, count));
    match fal(|before|, call)
    case Threw(e) => Run(Threw(e), before + [call])
    case Ok(reply) => Run(ExtractUrls(reply), before + [call])
  }

  /** Live, at most eight images are requested and at most what the reply
      lists comes back, every one of them a truthy value. */
  lemma LiveRequestAndResultBounds(cfg: Config, prims: Primitives, hasFileGlobal: bool, prompt: JsValue,
                                   image: Option<Blob>, count: JsNumber, fal: Fal)
    requires !cfg.useMock
    ensures var r := GenerateImage(cfg, prims, hasFileGlobal, prompt, image, count, fal);
      var last := r.calls[|r.calls| - 1];
      && (last.Subscribe? ==> last.input.numImages <= 8.0 && last.input.enableSafetyChecker)
      && (r.result.Ok? ==> forall i | 0 <= i < |r.result.value| :: Truthy(r.result.value[i]))
  {
  }

  /** The mode is fixed when the module loads: a module loaded without
      `FAL_KEY` never calls fal.ai, and one loaded with it always does. */
  lemma ModeFixedAtLoad(loadEnv: Env, prims: Primitives, hasFileGlobal: bool, prompt: JsValue,
                        image: Option<Blob>, count: JsNumber, fal: Fal)
    ensures GenerateImage(LoadConfig(loadEnv), prims, hasFileGlobal, prompt, image, count, fal).calls == []
            <==> "FAL_KEY" !in loadEnv || loadEnv["FAL_KEY"] == ""
  {
  }

  /** The two adapters read a live count alike only for whole numbers:
      Seedream asks fal.ai for as many images as Gemini sends requests
      exactly when the clamped count is whole. A fractional count such as
      2.5 reaches fal.ai unrounded, while Gemini rounds it up. */
  lemma LiveCountsAgree(prims: Primitives, prompt: JsValue, uploadedUrl: JsValue, count: JsNumber)
    ensures LiveInput(prims, prompt, uploadedUrl, count).numImages == LiveIterations(count) as real
            <==> LiveCount(count).Floor as real == LiveCount(count)
  {
  }
}
