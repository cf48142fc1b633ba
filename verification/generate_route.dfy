/** `POST /api/generate` (app/api/generate/route.js): validate the upload
    form, ask for up to eight prompts, then generate one Gemini image per
    prompt, all at once, and answer with the prompts and the flattened
    images. The `engine` field the page sends is never read. */
module GenerateRoute {
  import opened Outcomes
  import opened Js
  import opened Web
  import opened Providers
  import NanoBanana
  import GeneratePrompts
  import Page

  const MaxCount := 8.0
  const MissingInputs := "template and image are required"

  /** The Gemini SDK seen from the route: the reply to the k-th call made
      for the i-th prompt. */
  type Gemini = (nat, nat, NanoBanana.ImageRequest) -> Outcome<JsValue>

  /** The response and everything sent on the way: the prompt requests and,
      per prompt, the image requests. */
  datatype Run = Run(response: Response, promptRequests: seq<GeneratePrompts.PromptRequest>,
                     imageCalls: seq<seq<NanoBanana.ImageRequest>>)

  /** `Math.min(parseInt(form.get('count') || '1', 10), 8)`: capped at 8,
      but neither floored at 1 nor guarded against NaN. */
  function RequestedCount(form: Form): (c: JsNumber)
    ensures c.NaN? <==> ParseInt(FieldOr(form, "count", "1")).NaN?
    ensures c.Finite? ==> c.r <= MaxCount
    ensures c.Finite? && ParseInt(FieldOr(form, "count", "1")).r <= MaxCount ==>
              c == ParseInt(FieldOr(form, "count", "1"))
  {
    Min(ParseInt(FieldOr(form, "count", "1")), Finite(MaxCount))
  }

  /** The options handed to `generatePrompts`. */
  function PromptArgsOf(prims: Primitives, form: Form, template: string, image: Blob): GeneratePrompts.PromptArgs {
    GeneratePrompts.PromptArgs(
      Str(template), Num(RequestedCount(form)), Str(FieldOr(form, "productDescription", "")),
      Str(prims.base64(image.bytes)), Undefined)
  }

  /** One `generateImage({ image: blobs[i], prompt, count: 1 })` per prompt,
      each on a fresh blob of the uploaded bytes and type. */
  function ImageRuns(cfg: NanoBanana.Config, env: Env, prims: Primitives, prompts: seq<JsValue>,
                     image: Blob, gemini: Gemini): (r: seq<NanoBanana.Run>)
    ensures |r| == |prompts|
    ensures forall i | 0 <= i < |prompts| ::
              r[i] == NanoBanana.GenerateImage(cfg, env, prims, prompts[i], Some(Blob(image.bytes, image.mediaType)),
                                               Finite(1.0), (k: nat, req: NanoBanana.ImageRequest) => gemini(i, k, req))
  {
    seq(|prompts|, (i: int) requires 0 <= i < |prompts| =>
      NanoBanana.GenerateImage(cfg, env, prims, prompts[i], Some(Blob(image.bytes, image.mediaType)),
                               Finite(1.0), (k: nat, req: NanoBanana.ImageRequest) => gemini(i, k, req)))
  }

  /** `runs[i]` is a rejection that settles no later than any other
      rejection, `settle` giving the time at which each generation settles. */
  predicate FirstToReject(runs: seq<NanoBanana.Run>, settle: nat -> nat, i: nat) {
    && i < |runs| && runs[i].result.Threw?
    && forall j | 0 <= j < |runs| && runs[j].result.Threw? :: settle(i) <= settle(j)
  }

  /** The rejection among the first `n` generations that settles first; of
      two settling at the same time, the one of lower index. */
  function FirstRejection(runs: seq<NanoBanana.Run>, settle: nat -> nat, n: nat): (w: Option<nat>)
    requires n <= |runs|
    ensures w.None? <==> forall j | 0 <= j < n :: runs[j].result.Ok?
    ensures w.Some? ==> w.value < n && runs[w.value].result.Threw?
    ensures w.Some? ==> forall j | 0 <= j < n && runs[j].result.Threw? :: settle(w.value) <= settle(j)
  {
    if n == 0 then None
    else
      var w := FirstRejection(runs, settle, n - 1);
      if runs[n - 1].result.Ok? then w
      else if w.None? || settle(n - 1) < settle(w.value) then Some(n - 1)
      else w
  }

  /** `Promise.all`: every value, in order, when all fulfil; otherwise the
      error of the rejection that settles first. When each generation
      settles is up to the services and the scheduler, so `settle` is a
      parameter. */
  function All(runs: seq<NanoBanana.Run>, settle: nat -> nat): (r: Outcome<seq<seq<string>>>)
    ensures r.Ok? <==> forall i | 0 <= i < |runs| :: runs[i].result.Ok?
    ensures r.Ok? ==> |r.value| == |runs| && forall i | 0 <= i < |runs| :: r.value[i] == runs[i].result.value
    ensures r.Threw? ==> exists i | 0 <= i < |runs| :: runs[i].result == Threw(r.message) && FirstToReject(runs, settle, i)
  {
    match FirstRejection(runs, settle, |runs|)
    case None => Ok(seq(|runs|, (i: int) requires 0 <= i < |runs| => runs[i].result.value))
    case Some(w) =>
      assert FirstToReject(runs, settle, w);
      Threw(runs[w].result.message)
  }

  /** Which error is reported depends on timing alone: every failed
      generation is the one reported when it settles before the others. */
  lemma AnyRejectionMayBeReported(runs: seq<NanoBanana.Run>, i: nat)
    requires i < |runs| && runs[i].result.Threw?
    ensures All(runs, (j: nat) => if j == i then 0 else 1) == Threw(runs[i].result.message)
  {
    var settle := (j: nat) => if j == i then 0 else 1;
    var r := All(runs, settle);
    var w :| 0 <= w < |runs| && runs[w].result == Threw(r.message) && FirstToReject(runs, settle, w);
    assert settle(w) <= settle(i);
  }

  /** A failure of a single generation is reported whatever the timing. */
  lemma SoleRejectionIsReported(runs: seq<NanoBanana.Run>, settle: nat -> nat, i: nat)
    requires i < |runs| && runs[i].result.Threw?
    requires forall j | 0 <= j < |runs| && j != i :: runs[j].result.Ok?
    ensures All(runs, settle) == Threw(runs[i].result.message)
  {
  }

  /** The array an element contributes to `flatMap((r) => r.images || r)`:
      its `images` array when it has one, else the element itself, spread
      when it is an array. */
  function Spread(result: JsValue): (r: seq<JsValue>)
    ensures Get(result, "images").Arr? ==> r == Get(result, "images").elems
    ensures !Truthy(Get(result, "images")) && result.Arr? ==> r == result.elems
    ensures !Truthy(Get(result, "images")) && !result.Arr? ==> r == [result]
  {
    var v := Or(Get(result, "images"), result);
    if v.Arr? then v.elems else [v]
  }

  function FlatMapImages(results: seq<JsValue>): seq<JsValue> {
    if results == [] then [] else Spread(results[0]) + FlatMapImages(results[1..])
  }

  /** The concatenation of a list of lists. */
  function Concat(xss: seq<seq<JsValue>>): seq<JsValue> {
    if xss == [] then [] else xss[0] + Concat(xss[1..])
  }

  /** The adapter objects as the route holds them. */
  function AsObjects(imgs: seq<seq<string>>): (r: seq<JsValue>)
    ensures |r| == |imgs| && forall i | 0 <= i < |imgs| :: r[i] == ImagesObject(Strs(imgs[i]))
  {
    seq(|imgs|, (i: int) requires 0 <= i < |imgs| => ImagesObject(Strs(imgs[i])))
  }

  function StrsEach(imgs: seq<seq<string>>): (r: seq<seq<JsValue>>)
    ensures |r| == |imgs| && forall i | 0 <= i < |imgs| :: r[i] == Strs(imgs[i])
  {
    seq(|imgs|, (i: int) requires 0 <= i < |imgs| => Strs(imgs[i]))
  }

  /** On adapter results `r.images` is always an array, so the `|| r`
      fallback never applies and `flatMap` is plain concatenation. */
  lemma {:induction false} FlatMapOfAdapterResults(imgs: seq<seq<string>>)
    ensures FlatMapImages(AsObjects(imgs)) == Concat(StrsEach(imgs))
  {
    if imgs != [] {
      assert AsObjects(imgs)[1..] == AsObjects(imgs[1..]);
      assert StrsEach(imgs)[1..] == StrsEach(imgs[1..]);
      assert Spread(AsObjects(imgs)[0]) == Strs(imgs[0]);
      FlatMapOfAdapterResults(imgs[1..]);
    }
  }

  /** Lists of one element each concatenate to the list of those elements. */
  lemma {:induction false} ConcatOfSingletons(xss: seq<seq<JsValue>>)
    requires forall i | 0 <= i < |xss| :: |xss[i]| == 1
    ensures |Concat(xss)| == |xss|
    ensures forall i | 0 <= i < |xss| :: Concat(xss)[i] == xss[i][0]
  {
    if xss != [] {
      ConcatOfSingletons(xss[1..]);
      assert Concat(xss) == xss[0] + Concat(xss[1..]);
      forall i | 1 <= i < |xss|
        ensures Concat(xss)[i] == xss[i][0]
      {
        assert xss[1..][i - 1] == xss[i];
      }
    }
  }

  /** The image stage, once the prompts are known. */
  function ImageStage(cfg: NanoBanana.Config, env: Env, prims: Primitives, prompts: seq<JsValue>, image: Blob,
                      gemini: Gemini, settle: nat -> nat, promptRequests: seq<GeneratePrompts.PromptRequest>): (r: Run)
    ensures r.promptRequests == promptRequests
    ensures |r.imageCalls| == |prompts|
    ensures r.response.Json? && (r.response.status == 200 || r.response.status == 500)
    ensures r.response.status == 200 ==> r.response.body.PromptsAndImages? && r.response.body.prompts == prompts
    ensures r.response.status == 500 ==> r.response.body.ErrorBody?
  {
    var runs := ImageRuns(cfg, env, prims, prompts, image, gemini);
    var calls := seq(|runs|, (i: int) requires 0 <= i < |runs| => runs[i].calls);
    match All(runs, settle)
    case Threw(e) => Run(Json(500, ErrorBody(e)), promptRequests, calls)
    case Ok(imgs) => Run(Json(200, PromptsAndImages(prompts, FlatMapImages(AsObjects(imgs)))), promptRequests, calls)
  }

  /** What follows validation, for a non-empty template and an image. */
  function Generate(cfg: NanoBanana.Config, env: Env, prims: Primitives, form: Form, template: string,
                    image: Blob, openai: GeneratePrompts.OpenAi, gemini: Gemini, settle: nat -> nat): (r: Run)
    ensures var pr := GeneratePrompts.GeneratePrompts(env, prims, PromptArgsOf(prims, form, template, image), openai);
      && r.promptRequests == pr.requests
      && (pr.result.Threw? ==> r.response == Json(500, ErrorBody(pr.result.message)) && r.imageCalls == [])
      && (pr.result.Ok? ==> r == ImageStage(cfg, env, prims, pr.result.value, image, gemini, settle, pr.requests))
  {
    var pr := GeneratePrompts.GeneratePrompts(env, prims, PromptArgsOf(prims, form, template, image), openai);
    match pr.result
    case Threw(e) => Run(Json(500, ErrorBody(e)), pr.requests, [])
    case Ok(prompts) => ImageStage(cfg, env, prims, prompts, image, gemini, settle, pr.requests)
  }

  /** The template when it is a non-empty string entry. */
  function TemplateOf(form: Form): Option<string> {
    if Field(form, "template").Some? && Field(form, "template").value != "" then Field(form, "template") else None
  }

  /** The handler. `form` is what `request.formData()` settles to; its
      rejection happens outside the `try`, so the framework answers. */
  function Post(cfg: NanoBanana.Config, env: Env, prims: Primitives, form: Outcome<Form>,
                openai: GeneratePrompts.OpenAi, gemini: Gemini, settle: nat -> nat): (r: Run)
    ensures form.Threw? ==> r == Run(Unhandled(form.message), [], [])
    ensures form.Ok? && (TemplateOf(form.value).None? || FileField(form.value, "image").None?) ==>
              r == Run(Json(400, ErrorBody(MissingInputs)), [], [])
    ensures form.Ok? && TemplateOf(form.value).Some? && FileField(form.value, "image").Some? ==>
              r == Generate(cfg, env, prims, form.value, TemplateOf(form.value).value,
                            FileField(form.value, "image").value, openai, gemini, settle)
    ensures r.response.Json? && r.response.status != 200 ==> r.response.body.ErrorBody?
  {
    match form
    case Threw(e) => Run(Unhandled(e), [], [])
    case Ok(f) =>
      match (TemplateOf(f), FileField(f, "image"))
      case (Some(template), Some(image)) => Generate(cfg, env, prims, f, template, image, openai, gemini, settle)
      case _ => Run(Json(400, ErrorBody(MissingInputs)), [], [])
  }

  // ------------------------------------------------------------ properties

  /** Whatever the mode, an adapter asked for one image gives exactly one. */
  lemma SingleImagePerCall(cfg: NanoBanana.Config, env: Env, prims: Primitives, prompt: JsValue,
                           image: Option<Blob>, gemini: NanoBanana.Gemini)
    ensures var r := NanoBanana.GenerateImage(cfg, env, prims, prompt, image, Finite(1.0), gemini);
      r.result.Ok? ==> |r.result.value| == 1
  {
    assert LiveCount(Finite(1.0)) == 1.0;
    assert LiveIterations(Finite(1.0)) == 1;
  }

  /** A successful answer carries exactly one image per prompt, in prompt
      order, each the single image generated for that prompt. */
  lemma OneImagePerPrompt(cfg: NanoBanana.Config, env: Env, prims: Primitives, form: Form, template: string,
                          image: Blob, openai: GeneratePrompts.OpenAi, gemini: Gemini, settle: nat -> nat)
    ensures var r := Generate(cfg, env, prims, form, template, image, openai, gemini, settle);
      var pr := GeneratePrompts.GeneratePrompts(env, prims, PromptArgsOf(prims, form, template, image), openai);
      r.response.Json? && r.response.status == 200 ==>
        && pr.result.Ok?
        && |r.response.body.images| == |r.response.body.prompts| == |r.imageCalls|
        && var runs := ImageRuns(cfg, env, prims, pr.result.value, image, gemini);
           forall i | 0 <= i < |runs| ::
             runs[i].result.Ok? && |runs[i].result.value| == 1
             && r.response.body.images[i] == Str(runs[i].result.value[0])
  {
    var pr := GeneratePrompts.GeneratePrompts(env, prims, PromptArgsOf(prims, form, template, image), openai);
    if pr.result.Ok? {
      ImageStageOneImagePerPrompt(cfg, env, prims, pr.result.value, image, gemini, settle, pr.requests);
    }
  }

  lemma ImageStageOneImagePerPrompt(cfg: NanoBanana.Config, env: Env, prims: Primitives, prompts: seq<JsValue>,
                                    image: Blob, gemini: Gemini, settle: nat -> nat,
                                    promptRequests: seq<GeneratePrompts.PromptRequest>)
    ensures var r := ImageStage(cfg, env, prims, prompts, image, gemini, settle, promptRequests);
      var runs := ImageRuns(cfg, env, prims, prompts, image, gemini);
      r.response.status == 200 ==>
        && |r.response.body.images| == |prompts|
        && forall i | 0 <= i < |prompts| ::
             runs[i].result.Ok? && |runs[i].result.value| == 1
             && r.response.body.images[i] == Str(runs[i].result.value[0])
  {
    var runs := ImageRuns(cfg, env, prims, prompts, image, gemini);
    var all := All(runs, settle);
    if all.Ok? {
      var imgs := all.value;
      forall i | 0 <= i < |imgs|
        ensures |imgs[i]| == 1
      {
        SingleImagePerCall(cfg, env, prims, prompts[i], Some(Blob(image.bytes, image.mediaType)),
                           (k: nat, req: NanoBanana.ImageRequest) => gemini(i, k, req));
      }
      FlatMapOfAdapterResults(imgs);
      ConcatOfSingletons(StrsEach(imgs));
      var images := Concat(StrsEach(imgs));
      forall i | 0 <= i < |prompts|
        ensures images[i] == Str(runs[i].result.value[0])
      {
        assert images[i] == StrsEach(imgs)[i][0];
      }
    }
  }

  /** Per prompt, the mock sends nothing, and the live adapter sends exactly
      one request carrying that prompt and the uploaded bytes and type. */
  lemma ImageCallsPerPrompt(cfg: NanoBanana.Config, env: Env, prims: Primitives, prompts: seq<JsValue>,
                            image: Blob, gemini: Gemini, settle: nat -> nat,
                            promptRequests: seq<GeneratePrompts.PromptRequest>)
    ensures var r := ImageStage(cfg, env, prims, prompts, image, gemini, settle, promptRequests);
      forall i | 0 <= i < |prompts| ::
        if cfg.useMock then r.imageCalls[i] == []
        else r.imageCalls[i] == [NanoBanana.LiveRequest(env, prims, prompts[i], Some(image))]
  {
    var runs := ImageRuns(cfg, env, prims, prompts, image, gemini);
    assert LiveIterations(Finite(1.0)) == 1 by {
      assert LiveCount(Finite(1.0)) == 1.0;
    }
    forall i | 0 <= i < |prompts| && !cfg.useMock
      ensures runs[i].calls == [NanoBanana.LiveRequest(env, prims, prompts[i], Some(image))]
    {
      assert |runs[i].calls| == 1;
      assert Blob(image.bytes, image.mediaType) == image;
    }
  }

  /** A failed image stage reports the error of a generation that failed,
      namely one whose failure settled no later than any other failure. */
  lemma ImageFailureReportsFirstRejection(cfg: NanoBanana.Config, env: Env, prims: Primitives, prompts: seq<JsValue>,
                                          image: Blob, gemini: Gemini, settle: nat -> nat,
                                          promptRequests: seq<GeneratePrompts.PromptRequest>)
    ensures var r := ImageStage(cfg, env, prims, prompts, image, gemini, settle, promptRequests);
      var runs := ImageRuns(cfg, env, prims, prompts, image, gemini);
      r.response.status == 500 ==>
        exists i | 0 <= i < |prompts| :: runs[i].result == Threw(r.response.body.error) && FirstToReject(runs, settle, i)
  {
  }

  /** Nothing at all is sent when the template or the image is missing. */
  lemma MissingInputsSendNothing(cfg: NanoBanana.Config, env: Env, prims: Primitives, form: Form,
                                 openai: GeneratePrompts.OpenAi, gemini: Gemini, settle: nat -> nat)
    requires TemplateOf(form).None? || FileField(form, "image").None?
    ensures var r := Post(cfg, env, prims, Ok(form), openai, gemini, settle);
      r.response == Json(400, ErrorBody(MissingInputs)) && r.promptRequests == [] && r.imageCalls == []
  {
  }

  /** The `engine` field has no effect: forms that differ only there get the
      same answer after the same requests. */
  lemma EngineIsIgnored(cfg: NanoBanana.Config, env: Env, prims: Primitives, form: Form, engine: string,
                        openai: GeneratePrompts.OpenAi, gemini: Gemini, settle: nat -> nat)
    ensures Post(cfg, env, prims, Ok(form.(fields := form.fields["engine" := engine])), openai, gemini, settle)
         == Post(cfg, env, prims, Ok(form), openai, gemini, settle)
  {
    var other := form.(fields := form.fields["engine" := engine]);
    assert Field(other, "template") == Field(form, "template");
    assert FieldOr(other, "count", "1") == FieldOr(form, "count", "1");
    assert FieldOr(other, "productDescription", "") == FieldOr(form, "productDescription", "");
    assert RequestedCount(other) == RequestedCount(form);
    assert FileField(other, "image") == FileField(form, "image");
    if TemplateOf(form).Some? && FileField(form, "image").Some? {
      var image := FileField(form, "image").value;
      var template := TemplateOf(form).value;
      assert PromptArgsOf(prims, other, template, image) == PromptArgsOf(prims, form, template, image);
    }
  }

  /** The count is capped at 8 but not raised to 1: a count field of `20`
      asks for 8 prompts, while `0` or `-3` is passed on as it is. */
  lemma CountCappedNotFloored(form: Form, n: nat)
    ensures Field(form, "count") == Some(DecimalString(n)) ==>
              RequestedCount(form) == Finite(if n as real <= MaxCount then n as real else MaxCount)
    ensures Field(form, "count") == Some("-" + DecimalString(n)) ==> RequestedCount(form) == Finite(-(n as real))
  {
    ParseIntOfDecimal(n);
    ParseIntOfNegativeDecimal(n);
  }

  /** The page and the route agree: a form the page posts with its Generate
      button enabled always passes validation, and the prompt count the
      route asks for is the count the page clamped. */
  lemma PageSubmissionPassesValidation(s: Page.FormState)
    requires !Page.IsGenerateDisabled(s)
    ensures var form := Page.SubmitForm(s).value;
      && TemplateOf(form) == Some(s.template)
      && FileField(form, "image") == s.imageFile
      && RequestedCount(form) == Finite(Page.ClampCount(s.count) as real)
  {
    var form := Page.SubmitForm(s).value;
    var c := Page.ClampCount(s.count);
    assert FieldOr(form, "count", "1") == DecimalString(c) by {
      assert |DecimalString(c)| >= 1;
    }
    ParseIntOfDecimal(c);
  }

  /** Every image of a successful answer is a data URL, which the page's
      `deriveSrc` renders unchanged. */
  lemma AnsweredImagesRenderVerbatim(cfg: NanoBanana.Config, env: Env, prims: Primitives, form: Form,
                                     template: string, image: Blob, openai: GeneratePrompts.OpenAi, gemini: Gemini,
                                     settle: nat -> nat)
    ensures var r := Generate(cfg, env, prims, form, template, image, openai, gemini, settle);
      r.response.Json? && r.response.status == 200 ==>
        forall j | 0 <= j < |r.response.body.images| ::
          r.response.body.images[j].Str? && Page.DeriveSrc(r.response.body.images[j]) == Some(r.response.body.images[j].s)
  {
    var pr := GeneratePrompts.GeneratePrompts(env, prims, PromptArgsOf(prims, form, template, image), openai);
    if pr.result.Ok? {
      ImageStageRendersVerbatim(cfg, env, prims, pr.result.value, image, gemini, settle, pr.requests);
    }
  }

  lemma ImageStageRendersVerbatim(cfg: NanoBanana.Config, env: Env, prims: Primitives, prompts: seq<JsValue>,
                                  image: Blob, gemini: Gemini, settle: nat -> nat,
                                  promptRequests: seq<GeneratePrompts.PromptRequest>)
    ensures var r := ImageStage(cfg, env, prims, prompts, image, gemini, settle, promptRequests);
      r.response.status == 200 ==>
        forall j | 0 <= j < |r.response.body.images| ::
          r.response.body.images[j].Str? && Page.DeriveSrc(r.response.body.images[j]) == Some(r.response.body.images[j].s)
  {
    var runs := ImageRuns(cfg, env, prims, prompts, image, gemini);
    var all := All(runs, settle);
    if all.Ok? {
      var imgs := all.value;
      forall i, k | 0 <= i < |imgs| && 0 <= k < |imgs[i]|
        ensures StartsWith(imgs[i][k], "data:")
      {
        NanoBanana.GeneratedImagesAreDataUrls(cfg, env, prims, prompts[i], Some(Blob(image.bytes, image.mediaType)),
                                              Finite(1.0), (k: nat, req: NanoBanana.ImageRequest) => gemini(i, k, req));
      }
      FlatMapOfAdapterResults(imgs);
      ConcatRendersVerbatim(imgs);
    }
  }

  lemma {:induction false} ConcatRendersVerbatim(imgs: seq<seq<string>>)
    requires forall i, k | 0 <= i < |imgs| && 0 <= k < |imgs[i]| :: StartsWith(imgs[i][k], "data:")
    ensures forall j | 0 <= j < |Concat(StrsEach(imgs))| ::
              Concat(StrsEach(imgs))[j].Str? && Page.DeriveSrc(Concat(StrsEach(imgs))[j]) == Some(Concat(StrsEach(imgs))[j].s)
  {
    if imgs != [] {
      assert StrsEach(imgs)[1..] == StrsEach(imgs[1..]);
      ConcatRendersVerbatim(imgs[1..]);
      var head := Strs(imgs[0]);
      var all := Concat(StrsEach(imgs));
      assert all == head + Concat(StrsEach(imgs[1..]));
      forall j | 0 <= j < |all|
        ensures all[j].Str? && Page.DeriveSrc(all[j]) == Some(all[j].s)
      {
        if j < |head| {
          assert all[j] == Str(imgs[0][j]);
          assert imgs[0][j] != "" by {
            assert StartsWith(imgs[0][j], "data:");
          }
        } else {
          assert all[j] == Concat(StrsEach(imgs[1..]))[j - |head|];
        }
      }
    }
  }

  /** The page shows what the route answered: the prompts and images of a
      successful answer exactly, and for an error answer its message, or the
      status line when that message is empty. */
  lemma PageShowsAnswer(cfg: NanoBanana.Config, env: Env, prims: Primitives, form: Outcome<Form>,
                        openai: GeneratePrompts.OpenAi, gemini: Gemini, settle: nat -> nat)
    ensures var r := Post(cfg, env, prims, form, openai, gemini, settle);
      && (r.response.Json? && r.response.status == 200 ==>
            && r.response.body.PromptsAndImages?
            && Page.ReadResponse(prims, 200, BodyJson(r.response.body))
                 == Page.Results(r.response.body.prompts, r.response.body.images))
      && (r.response.Json? && r.response.status != 200 ==>
            && r.response.body.ErrorBody?
            && (r.response.status == 400 || r.response.status == 500)
            && Page.ReadResponse(prims, r.response.status as nat, BodyJson(r.response.body))
                 == Page.Failed(if r.response.body.error != "" then r.response.body.error
                                else "Request failed (" + DecimalString(r.response.status as nat) + ")"))
  {
    var r := Post(cfg, env, prims, form, openai, gemini, settle);
    if r.response.Json? {
      assert r.response.status == 200 || r.response.status == 400 || r.response.status == 500;
      Page.ReadsRouteBody(prims, r.response.status as nat, r.response.body);
    }
  }

  /** The prompt request carries the upload: the route hands the image over
      as base64, which `generatePrompts` attaches as a PNG data URL, unless
      the upload is empty and its base64 text with it. */
  lemma PromptRequestCarriesUpload(env: Env, prims: Primitives, form: Form, template: string, image: Blob)
    ensures var req := GeneratePrompts.Request(env, prims, PromptArgsOf(prims, form, template, image));
      && (prims.base64(image.bytes) != "" ==>
            req.content[1..] == [GeneratePrompts.InputImage(Str(GeneratePrompts.PngDataPrefix + prims.base64(image.bytes)))])
      && (prims.base64(image.bytes) == "" ==> |req.content| == 1)
  {
  }
}
