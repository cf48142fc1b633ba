/** `POST /api/images` (app/api/images/route.js): one Gemini generation for
    a prompt and an optional image, with the count passed on unclamped. */
module ImagesRoute {
  import opened Outcomes
  import opened Js
  import opened Web
  import opened Providers
  import NanoBanana

  const PromptRequired := "prompt is required"

  /** The response and the Gemini requests sent on the way. */
  datatype Run = Run(response: Response, calls: seq<NanoBanana.ImageRequest>)

  /** `parseInt(form.get('count') || '1', 10)`, with no clamp: one when the
      field is missing or empty, and whatever number the field spells
      otherwise, zero, negative and beyond eight included. */
  function RequestedCount(form: Form): (c: JsNumber)
    ensures Field(form, "count").None? || Field(form, "count") == Some("") ==> c == Finite(1.0)
    ensures forall n: nat :: Field(form, "count") == Some(DecimalString(n)) ==> c == Finite(n as real)
  {
    ParseIntOfDecimal(1);
    assert DecimalString(1) == "1";
    forall n: nat | Field(form, "count") == Some(DecimalString(n))
      ensures ParseInt(FieldOr(form, "count", "1")) == Finite(n as real)
    {
      ParseIntOfDecimal(n);
    }
    ParseInt(FieldOr(form, "count", "1"))
  }

  /** `data.images || data` on what the adapter resolves to: its `images`
      array when it has one, else the value itself. */
  function ImagesOf(data: JsValue): (v: JsValue)
    ensures Get(data, "images").Arr? ==> v == Get(data, "images")
    ensures !Truthy(Get(data, "images")) ==> v == data
  {
    Or(Get(data, "images"), data)
  }

  /** The handler. */
  function Post(cfg: NanoBanana.Config, env: Env, prims: Primitives, form: Outcome<Form>,
                gemini: NanoBanana.Gemini): (r: Run)
    ensures form.Threw? ==> r == Run(Unhandled(form.message), [])
    ensures form.Ok? && !Truthy(FieldValue(form.value, "prompt")) ==>
              r == Run(Json(400, ErrorBody(PromptRequired)), [])
    ensures form.Ok? && Truthy(FieldValue(form.value, "prompt")) ==>
              var run := NanoBanana.GenerateImage(cfg, env, prims, FieldValue(form.value, "prompt"),
                                                  FileField(form.value, "image"), RequestedCount(form.value), gemini);
              && r.calls == run.calls
              && r.response == match run.result
                               case Threw(e) => Json(500, ErrorBody(e))
                               case Ok(images) => Json(200, ImagesBody(Arr(Strs(images))))
  {
    match form
    case Threw(e) => Run(Unhandled(e), [])
    case Ok(f) =>
      var prompt := FieldValue(f, "prompt");
      if !Truthy(prompt) then Run(Json(400, ErrorBody(PromptRequired)), [])
      else
        var run := NanoBanana.GenerateImage(cfg, env, prims, prompt, FileField(f, "image"), RequestedCount(f), gemini);
        match run.result
        case Threw(e) => Run(Json(500, ErrorBody(e)), run.calls)
        case Ok(images) => Run(Json(200, ImagesBody(ImagesOf(ImagesObject(Strs(images))))), run.calls)
  }

  /** In mock mode the count is not capped: a count of `n` gives `n`
      placeholders for every `n` up to the largest array length, and the
      request fails with a RangeError above it. */
  lemma MockCountIsUncapped(env: Env, prims: Primitives, form: Form, n: nat, gemini: NanoBanana.Gemini)
    requires Truthy(FieldValue(form, "prompt"))
    requires Field(form, "count") == Some(DecimalString(n))
    ensures var r := Post(NanoBanana.Config(true), env, prims, Ok(form), gemini);
      && r.calls == []
      && (n <= MaxArrayLength ==> r.response.status == 200 && |r.response.body.imageList.elems| == n)
      && (n > MaxArrayLength ==> r.response == Json(500, ErrorBody("Invalid array length")))
  {
    ParseIntOfDecimal(n);
    assert FieldOr(form, "count", "1") == DecimalString(n) by {
      assert |DecimalString(n)| >= 1;
    }
  }

  /** On the live path at most eight requests are sent, whatever the count. */
  lemma LiveCallsAtMostEight(env: Env, prims: Primitives, form: Form, gemini: NanoBanana.Gemini)
    ensures |Post(NanoBanana.Config(false), env, prims, Ok(form), gemini).calls| <= 8
  {
  }
}
