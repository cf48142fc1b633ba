/** The Gemini adapter of lib/nanoBanana.js: `generateImage` either draws
    numbered SVG placeholders (mock mode, chosen once when the module loads)
    or sends the same request to the model `n` times in sequence and turns
    each reply into an image data URL. */
module NanoBanana {
  import opened Outcomes
  import opened Js
  import opened Web
  import opened Providers

  const DefaultModel := "gemini-2.0-flash"
  const DefaultMimeType := "image/png"
  const MockTitle := "Nano Banana Mock Image"
  const FallbackTitle := "Gemini text response"
  const FallbackSubtitle := "No image data returned by model"
  const PromptHeadLength: nat := 60

  /** `USE_MOCK`, fixed by the environment the module was loaded in. */
  datatype Config = Config(useMock: bool)

  /** Mock mode exactly when the mock flag is `1`, or the API key is unset
      or empty. */
  function LoadConfig(env: Env): (c: Config)
    ensures c.useMock <==> ("GOOGLE_NANO_BANANA_MOCK" in env && env["GOOGLE_NANO_BANANA_MOCK"] == "1")
                           || "GOOGLE_API_KEY" !in env || env["GOOGLE_API_KEY"] == ""
  {
    Config(("GOOGLE_NANO_BANANA_MOCK" in env && env["GOOGLE_NANO_BANANA_MOCK"] == "1")
           || EnvOr(env, "GOOGLE_API_KEY", "") == "")
  }

  /** One entry of `contents[0].parts`. */
  datatype Part = TextPart(text: string) | InlinePart(data: string, mimeType: string)

  /** `model.generateContent(...)` with its model name and the user turn's parts. */
  datatype ImageRequest = ImageRequest(model: string, parts: seq<Part>)

  /** The SDK: the reply to the k-th call, or the error it rejects with. */
  type Gemini = (nat, ImageRequest) -> Outcome<JsValue>

  /** What `generateImage` settles to (the image data URLs of its `{ images }`
      object, or the error) and the requests it sent, in order. */
  datatype Run = Run(result: Outcome<seq<string>>, calls: seq<ImageRequest>)

  // ------------------------------------------------------------------ mock

  const Bullet := " \U{2022} "

  /** The text a placeholder shows for the prompt: its first 60 characters,
      or `no prompt` when it has no non-empty slice. */
  function MockHead(prims: Primitives, prompt: JsValue): (head: string)
    ensures prompt.Str? && prompt.s != "" ==> head == Take(prompt.s, PromptHeadLength)
    ensures !Truthy(prompt) || !(prompt.Str? || prompt.Arr?) ==> head == "no prompt"
  {
    Stringify(prims, Or(OptionalSlice(prompt, PromptHeadLength), Str("no prompt")))
  }

  /** The placeholder subtitle: the prompt's head, a bullet and the 1-based
      image number. */
  function MockSubtitle(prims: Primitives, prompt: JsValue, i: nat): string {
    NumberedSubtitle(MockHead(prims, prompt), Bullet, i + 1)
  }

  /** `mockGenerate`: as many placeholders as `Array.from({length: count})`
      creates; the count is not capped. */
  function MockImages(prims: Primitives, prompt: JsValue, count: JsNumber): (r: Outcome<seq<string>>)
    ensures r.Ok? <==> ArrayFromLength(count).Ok?
    ensures r.Threw? ==> r.message == "Invalid array length"
    ensures r.Ok? ==> |r.value| == ArrayFromLength(count).value
    ensures r.Ok? ==> forall i | 0 <= i < |r.value| ::
              r.value[i] == SvgDataUrl(prims, NanoBananaSvg, MockTitle, MockSubtitle(prims, prompt, i))
  {
    match ArrayFromLength(count)
    case Threw(e) => Threw(e)
    case Ok(len) =>
      Ok(seq(len, (i: int) requires 0 <= i => SvgDataUrl(prims, NanoBananaSvg, MockTitle, MockSubtitle(prims, prompt, i))))
  }

  // ------------------------------------------------------------------ live

  /** The parts of the request: the prompt as text when it is truthy, then
      the image inline in base64 when there is one. */
  function Parts(prims: Primitives, prompt: JsValue, image: Option<Blob>): (r: seq<Part>)
    ensures |r| == (if Truthy(prompt) then 1 else 0) + (if image.Some? then 1 else 0)
    ensures Truthy(prompt) ==> r[0] == TextPart(Stringify(prims, prompt))
    ensures image.Some? ==> r[|r| - 1] == InlinePart(
              prims.base64(image.value.bytes),
              if image.value.mediaType == "" then DefaultMimeType else image.value.mediaType)
  {
    var text := if Truthy(prompt) then [TextPart(Stringify(prims, prompt))] else [];
    var inline := match image
      case None => []
      case Some(img) =>
        [InlinePart(prims.base64(img.bytes), if img.mediaType == "" then DefaultMimeType else img.mediaType)];
    text + inline
  }

  /** What the model reads from a request: the text of its first text part ... */
  function SentText(parts: seq<Part>): Option<string> {
    if parts == [] then None else if parts[0].TextPart? then Some(parts[0].text) else SentText(parts[1..])
  }

  /** ... and the data and type of its first inline part. */
  function SentInline(parts: seq<Part>): Option<(string, string)> {
    if parts == [] then None
    else if parts[0].InlinePart? then Some((parts[0].data, parts[0].mimeType))
    else SentInline(parts[1..])
  }

  /** The model reads back exactly what the adapter put in: the prompt text
      when the prompt is truthy, and the image's base64 and type when there
      is an image. With neither, the request has no parts at all. */
  lemma PartsReadBack(prims: Primitives, prompt: JsValue, image: Option<Blob>)
    ensures SentText(Parts(prims, prompt, image)) == if Truthy(prompt) then Some(Stringify(prims, prompt)) else None
    ensures SentInline(Parts(prims, prompt, image)) ==
              if image.None? then None
              else Some((prims.base64(image.value.bytes),
                         if image.value.mediaType == "" then DefaultMimeType else image.value.mediaType))
    ensures Parts(prims, prompt, image) == [] <==> !Truthy(prompt) && image.None?
  {
    var parts := Parts(prims, prompt, image);
    if Truthy(prompt) && image.Some? {
      assert parts[1..] == [parts[1]];
      assert SentText(parts[1..][1..]) == None;
    }
  }

  /** The request `one(prompt, image)` sends; the model name is read from the
      environment at call time. */
  function LiveRequest(env: Env, prims: Primitives, prompt: JsValue, image: Option<Blob>): (r: ImageRequest)
    ensures r.model != ""
    ensures "GEMINI_IMAGE_MODEL" in env && env["GEMINI_IMAGE_MODEL"] != "" ==> r.model == env["GEMINI_IMAGE_MODEL"]
    ensures "GEMINI_IMAGE_MODEL" !in env || env["GEMINI_IMAGE_MODEL"] == "" ==> r.model == DefaultModel
    ensures r.parts == Parts(prims, prompt, image)
  {
    ImageRequest(EnvOr(env, "GEMINI_IMAGE_MODEL", DefaultModel), Parts(prims, prompt, image))
  }

  /** `p?.inlineData?.data` is truthy. */
  predicate HasInlineData(p: JsValue) {
    Truthy(Get(Get(p, "inlineData"), "data"))
  }

  /** `result?.response?.candidates?.[0]?.content?.parts`, as far as `find`
      can search it. */
  function CandidateParts(result: JsValue): seq<JsValue> {
    var parts := Get(Get(Index(Get(Get(result, "response"), "candidates"), 0), "content"), "parts");
    if parts.Arr? then parts.elems else []
  }

  /** The image of the first part carrying inline data. */
  function InlineDataUrl(prims: Primitives, part: JsValue): string {
    var inline := Get(part, "inlineData");
    "data:" + Stringify(prims, Or(Get(inline, "mimeType"), Str(DefaultMimeType))) + ";base64,"
      + Stringify(prims, Get(inline, "data"))
  }

  /** `parts[k]` is the part `find` settles on. */
  predicate FirstWithData(parts: seq<JsValue>, k: nat) {
    k < |parts| && HasInlineData(parts[k]) && forall j | 0 <= j < k :: !HasInlineData(parts[j])
  }

  /** `parts.find(...) || null` */
  function FoundPart(result: JsValue): JsValue {
    Or(FindFirst(CandidateParts(result), HasInlineData), Null)
  }

  /** What `one` makes of a reply: the first part with inline data as a data
      URL, or an explanatory SVG placeholder when no part has any. */
  function ExtractImage(prims: Primitives, result: JsValue): (r: string)
    ensures StartsWith(r, "data:")
  {
    var found := FoundPart(result);
    if HasInlineData(found) then
      var r := InlineDataUrl(prims, found);
      assert r[..5] == "data:";
      r
    else
      SvgDataUrl(prims, NanoBananaSvg, FallbackTitle, FallbackSubtitle)
  }

  /** The image is taken from the first part that carries inline data ... */
  lemma ExtractImageUsesFirstDataPart(prims: Primitives, result: JsValue, k: nat)
    requires FirstWithData(CandidateParts(result), k)
    ensures ExtractImage(prims, result) == InlineDataUrl(prims, CandidateParts(result)[k])
  {
    var parts := CandidateParts(result);
    FindFirstIsEarliest(parts, HasInlineData, k);
    assert parts[k].Obj?;
    assert FoundPart(result) == parts[k];
  }

  /** ... and the placeholder is used exactly when no part carries any. */
  lemma ExtractImageFallback(prims: Primitives, result: JsValue)
    requires forall k | 0 <= k < |CandidateParts(result)| :: !HasInlineData(CandidateParts(result)[k])
    ensures ExtractImage(prims, result) == SvgDataUrl(prims, NanoBananaSvg, FallbackTitle, FallbackSubtitle)
  {
    var parts := CandidateParts(result);
    assert forall x | x in parts :: !HasInlineData(x);
    assert FindFirst(parts, HasInlineData) == Undefined;
    assert FoundPart(result) == Null;
    assert !HasInlineData(Null);
  }

  /** The replies of the first `n` rounds and the requests sent for them. */
  datatype Rounds = Rounds(replies: Outcome<seq<JsValue>>, calls: seq<ImageRequest>)

  /** The first `n` rounds of `for (i = 0; i < n; i++) images.push(await one(...))`:
      each round sends the same request, and the first rejection ends the
      loop; on success round k's reply is the k-th answer of the SDK. */
  function LiveReplies(req: ImageRequest, gemini: Gemini, n: nat): (r: Rounds)
    ensures 1 <= |r.calls| <= n || (n == 0 && r.calls == [])
    ensures forall k | 0 <= k < |r.calls| :: r.calls[k] == req
    ensures forall k | 0 <= k < |r.calls| - 1 :: gemini(k, req).Ok?
    ensures r.replies.Ok? ==> |r.calls| == n && |r.replies.value| == n
    ensures r.replies.Ok? ==> forall k | 0 <= k < n :: gemini(k, req) == Ok(r.replies.value[k])
    ensures r.replies.Threw? ==> |r.calls| >= 1 && gemini(|r.calls| - 1, req) == Threw(r.replies.message)
  {
    if n == 0 then Rounds(Ok([]), [])
    else
      var before := LiveReplies(req, gemini, n - 1);
      if before.replies.Threw? then before
      else
        match gemini(n - 1, req)
        case Threw(e) => Rounds(Threw(e), before.calls + [req])
        case Ok(reply) => Rounds(Ok(before.replies.value + [reply]), before.calls + [req])
  }

  /** Each reply turned into its image, in order. */
  function ExtractAll(prims: Primitives, replies: seq<JsValue>): (r: seq<string>)
    ensures |r| == |replies| && forall k | 0 <= k < |replies| :: r[k] == ExtractImage(prims, replies[k])
  {
    seq(|replies|, (k: int) requires 0 <= k < |replies| => ExtractImage(prims, replies[k]))
  }

  /** The rounds with each reply turned into its image. */
  function LiveRounds(prims: Primitives, req: ImageRequest, gemini: Gemini, n: nat): (r: Run)
    ensures r.calls == LiveReplies(req, gemini, n).calls
    ensures r.result.Ok? <==> LiveReplies(req, gemini, n).replies.Ok?
    ensures r.result.Ok? ==> |r.result.value| == n && forall k | 0 <= k < n ::
              gemini(k, req).Ok? && r.result.value[k] == ExtractImage(prims, gemini(k, req).value)
    ensures r.result.Threw? ==> gemini(|r.calls| - 1, req) == Threw(r.result.message)
  {
    var rounds := LiveReplies(req, gemini, n);
    match rounds.replies
    case Threw(e) => Run(Threw(e), rounds.calls)
    case Ok(replies) => Run(Ok(ExtractAll(prims, replies)), rounds.calls)
  }

  /** `generateImage({ image, prompt, count })`. */
  function GenerateImage(cfg: Config, env: Env, prims: Primitives, prompt: JsValue, image: Option<Blob>,
                         count: JsNumber, gemini: Gemini): (r: Run)
    ensures cfg.useMock ==> r.calls == [] && r.result == MockImages(prims, prompt, count)
    ensures !cfg.useMock ==> 1 <= |r.calls| <= LiveIterations(count)
    ensures !cfg.useMock ==> forall k | 0 <= k < |r.calls| :: r.calls[k] == LiveRequest(env, prims, prompt, image)
    ensures !cfg.useMock && r.result.Ok? ==> |r.result.value| == |r.calls| == LiveIterations(count)
  {
    if cfg.useMock then
      Run(MockImages(prims, prompt, count), [])
    else
      LiveRounds(prims, LiveRequest(env, prims, prompt, image), gemini, LiveIterations(count))
  }

  /** Whatever the mode, every image is a data URL, so the page shows it
      as it is. */
  lemma GeneratedImagesAreDataUrls(cfg: Config, env: Env, prims: Primitives, prompt: JsValue, image: Option<Blob>,
                                   count: JsNumber, gemini: Gemini)
    ensures var r := GenerateImage(cfg, env, prims, prompt, image, count, gemini);
      r.result.Ok? ==> forall k | 0 <= k < |r.result.value| :: StartsWith(r.result.value[k], "data:")
  {
    var r := GenerateImage(cfg, env, prims, prompt, image, count, gemini);
    if r.result.Ok? {
      forall k | 0 <= k < |r.result.value|
        ensures StartsWith(r.result.value[k], "data:")
      {
        if !cfg.useMock {
          var req := LiveRequest(env, prims, prompt, image);
          assert r.result.value[k] == ExtractImage(prims, gemini(k, req).value);
        }
      }
    }
  }

  /** On the live path every image is exactly what the corresponding reply
      holds, and a rejection is passed on unchanged from the round that
      failed, after which nothing more is sent. */
  lemma LiveImagesFollowReplies(cfg: Config, env: Env, prims: Primitives, prompt: JsValue, image: Option<Blob>,
                                count: JsNumber, gemini: Gemini)
    requires !cfg.useMock
    ensures var r := GenerateImage(cfg, env, prims, prompt, image, count, gemini);
      var req := LiveRequest(env, prims, prompt, image);
      && (r.result.Ok? ==> forall k | 0 <= k < |r.result.value| ::
            gemini(k, req).Ok? && r.result.value[k] == ExtractImage(prims, gemini(k, req).value))
      && (r.result.Threw? ==> gemini(|r.calls| - 1, req) == Threw(r.result.message))
      && (forall k | 0 <= k < |r.calls| - 1 :: gemini(k, req).Ok?)
  {
  }

  /** A whole-number count from 1 to 8 asks for exactly that many images;
      larger counts ask for 8, and NaN or 0 for one. */
  lemma LiveCountIsClamped(count: JsNumber)
    ensures count.Finite? && 1.0 <= count.r <= 8.0 && count.r.Floor as real == count.r ==>
              LiveIterations(count) == count.r.Floor
    ensures count.Finite? && count.r >= 8.0 ==> LiveIterations(count) == 8
    ensures count.NaN? || count == Finite(0.0) ==> LiveIterations(count) == 1
  {
  }

  /** The mode is fixed when the module loads. A module loaded in mock mode
      never sends a request and answers the same whatever the environment
      holds at call time; one loaded with a key sends at least one request
      per call, each naming the model the environment names at call time. */
  lemma ModeFixedAtLoad(loadEnv: Env, callEnv: Env, otherCallEnv: Env, prims: Primitives, prompt: JsValue,
                        image: Option<Blob>, count: JsNumber, gemini: Gemini)
    ensures var cfg := LoadConfig(loadEnv);
      var r := GenerateImage(cfg, callEnv, prims, prompt, image, count, gemini);
      && (r.calls == [] <==> cfg.useMock)
      && (cfg.useMock ==> r == GenerateImage(cfg, otherCallEnv, prims, prompt, image, count, gemini))
      && forall k | 0 <= k < |r.calls| :: r.calls[k].model == EnvOr(callEnv, "GEMINI_IMAGE_MODEL", DefaultModel)
  {
  }
}
