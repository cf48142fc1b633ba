/** `POST /api/prompts` (app/api/prompts/route.js): read the options from a
    multipart form or from a JSON body, depending on the content type, and
    answer with the generated prompts. */
module PromptsRoute {
  import opened Outcomes
  import opened Js
  import opened Web
  import GeneratePrompts

  const Multipart := "multipart/form-data"

  /** A request: its `content-type` header and what reading its body as a
      form or as JSON settles to; the route reads only one of the two. */
  datatype Request = Request(contentType: Option<string>, form: Outcome<Form>, json: Outcome<JsValue>)

  /** The response and the OpenAI requests sent on the way. */
  datatype Run = Run(response: Response, requests: seq<GeneratePrompts.PromptRequest>)

  /** `(request.headers.get('content-type') || '').includes('multipart/form-data')` */
  predicate IsMultipart(req: Request) {
    Contains(req.contentType.GetOr(""), Multipart)
  }

  /** A multipart content type is recognised with its boundary parameter
      after it, and a request without a content type is read as JSON. */
  lemma ContentTypeDispatch(req: Request, parameters: string)
    ensures IsMultipart(req.(contentType := Some(Multipart + parameters)))
    ensures !IsMultipart(req.(contentType := None))
  {
    assert Multipart <= (Multipart + parameters)[0..];
    assert forall i | 0 <= i <= 0 :: !(Multipart <= ""[i..]);
  }

  /** The options of the form branch: the image, when there is one, as base64. */
  function FormArgs(prims: Primitives, form: Form): (a: GeneratePrompts.PromptArgs)
    ensures a.template == FieldValue(form, "template")
    ensures a.count == Num(ParseInt(FieldOr(form, "count", "1")))
    ensures a.productDescription == Str(FieldOr(form, "productDescription", ""))
    ensures FileField(form, "image").None? <==> a.imageBase64 == Undefined
    ensures a.imageDataUrl == Undefined
  {
    var image := match FileField(form, "image")
      case None => Undefined
      case Some(blob) => Str(prims.base64(blob.bytes));
    GeneratePrompts.PromptArgs(FieldValue(form, "template"), Num(ParseInt(FieldOr(form, "count", "1"))),
                               Str(FieldOr(form, "productDescription", "")), image, Undefined)
  }

  /** `({ template, count = 1, productDescription = '', imageBase64 } = body)`:
      destructuring `null` or `undefined` is a TypeError. */
  function JsonArgs(body: JsValue): (r: Outcome<GeneratePrompts.PromptArgs>)
    ensures r.Threw? <==> Nullish(body)
    ensures r.Ok? ==> r.value.template == Get(body, "template") && r.value.imageBase64 == Get(body, "imageBase64")
    ensures r.Ok? ==> r.value.count == (if Get(body, "count").Undefined? then Num(Finite(1.0)) else Get(body, "count"))
    ensures r.Ok? ==> (r.value.productDescription ==
              if Get(body, "productDescription").Undefined? then Str("") else Get(body, "productDescription"))
    ensures r.Ok? ==> r.value.imageDataUrl == Undefined
  {
    if Nullish(body) then
      Threw("Cannot destructure property 'template' of '(intermediate value)' as it is "
            + (if body.Null? then "null." else "undefined."))
    else
      var count := Get(body, "count");
      var description := Get(body, "productDescription");
      Ok(GeneratePrompts.PromptArgs(
        Get(body, "template"),
        if count.Undefined? then Num(Finite(1.0)) else count,
        if description.Undefined? then Str("") else description,
        Get(body, "imageBase64"),
        Undefined))
  }

  /** The options, or the error that escapes the handler before its `try`:
      a multipart request is read as a form, anything else as JSON. */
  function ArgsOf(prims: Primitives, req: Request): (r: Outcome<GeneratePrompts.PromptArgs>)
    ensures IsMultipart(req) ==> r == match req.form
                                     case Ok(form) => Ok(FormArgs(prims, form))
                                     case Threw(e) => Threw(e)
    ensures !IsMultipart(req) && req.json.Threw? ==> r == Threw(req.json.message)
    ensures !IsMultipart(req) && req.json.Ok? ==> r == JsonArgs(req.json.value)
  {
    if IsMultipart(req) then
      var form :- req.form;
      Ok(FormArgs(prims, form))
    else
      var body :- req.json;
      JsonArgs(body)
  }

  /** The handler. */
  function Post(env: Env, prims: Primitives, req: Request, openai: GeneratePrompts.OpenAi): (r: Run)
    ensures ArgsOf(prims, req).Threw? ==> r == Run(Unhandled(ArgsOf(prims, req).message), [])
    ensures ArgsOf(prims, req).Ok? && !Truthy(ArgsOf(prims, req).value.template) ==>
              r == Run(Json(400, ErrorBody(GeneratePrompts.TemplateRequired)), [])
    ensures ArgsOf(prims, req).Ok? && Truthy(ArgsOf(prims, req).value.template) ==>
              var pr := GeneratePrompts.GeneratePrompts(env, prims, ArgsOf(prims, req).value, openai);
              && r.requests == pr.requests
              && r.response == match pr.result
                               case Threw(e) => Json(500, ErrorBody(e))
                               case Ok(prompts) => Json(200, PromptsBody(prompts))
  {
    match ArgsOf(prims, req)
    case Threw(e) => Run(Unhandled(e), [])
    case Ok(args) =>
      if !Truthy(args.template) then Run(Json(400, ErrorBody(GeneratePrompts.TemplateRequired)), [])
      else
        var pr := GeneratePrompts.GeneratePrompts(env, prims, args, openai);
        match pr.result
        case Threw(e) => Run(Json(500, ErrorBody(e)), pr.requests)
        case Ok(prompts) => Run(Json(200, PromptsBody(prompts)), pr.requests)
  }

  /** Every answer the handler gives itself follows exactly one request to
      the model, or none when it is a 400; the adapter's own template check
      is never what rejects a request here. */
  lemma OneRequestPerAnswer(env: Env, prims: Primitives, req: Request, openai: GeneratePrompts.OpenAi)
    ensures var r := Post(env, prims, req, openai);
      && (r.response.Json? && r.response.status == 400 ==> r.requests == [])
      && (r.response.Json? && r.response.status != 400 ==> |r.requests| == 1)
  {
  }

  /** Both body kinds send the same request for the same options: a form
      and a JSON object carrying the same template, count, description and
      base64 image produce the same prompt request. */
  lemma FormAndJsonAgree(env: Env, prims: Primitives, form: Form, template: string, count: string,
                         description: string, image: Blob, openai: GeneratePrompts.OpenAi)
    requires template != "" && count != "" && description != ""
    requires form == Form(map["template" := template, "count" := count, "productDescription" := description],
                          map["image" := image])
    ensures var body := Obj(map["template" := Str(template), "count" := Num(ParseInt(count)),
                                "productDescription" := Str(description),
                                "imageBase64" := Str(prims.base64(image.bytes))]);
      Post(env, prims, Request(Some(Multipart), Ok(form), Threw("unread")), openai)
        == Post(env, prims, Request(None, Threw("unread"), Ok(body)), openai)
  {
    var body := Obj(map["template" := Str(template), "count" := Num(ParseInt(count)),
                        "productDescription" := Str(description),
                        "imageBase64" := Str(prims.base64(image.bytes))]);
    var viaForm := Request(Some(Multipart), Ok(form), Threw("unread"));
    var viaJson := Request(None, Threw("unread"), Ok(body));
    var args := GeneratePrompts.PromptArgs(Str(template), Num(ParseInt(count)), Str(description),
                                           Str(prims.base64(image.bytes)), Undefined);
    FormBranchArgs(prims, form, template, count, description, image);
    JsonBranchArgs(body, template, count, description, prims.base64(image.bytes));
    assert ArgsOf(prims, viaForm) == Ok(args) by {
      assert Multipart <= Multipart[0..];
    }
    assert ArgsOf(prims, viaJson) == Ok(args) by {
      assert forall i | 0 <= i <= 0 :: !(Multipart <= ""[i..]);
    }
    PostFollowsArgs(env, prims, viaForm, viaJson, openai);
  }

  lemma FormBranchArgs(prims: Primitives, form: Form, template: string, count: string,
                       description: string, image: Blob)
    requires template != "" && count != "" && description != ""
    requires form == Form(map["template" := template, "count" := count, "productDescription" := description],
                          map["image" := image])
    ensures FormArgs(prims, form) == GeneratePrompts.PromptArgs(Str(template), Num(ParseInt(count)), Str(description),
                                                                Str(prims.base64(image.bytes)), Undefined)
  {
  }

  lemma JsonBranchArgs(body: JsValue, template: string, count: string, description: string, image: string)
    requires body == Obj(map["template" := Str(template), "count" := Num(ParseInt(count)),
                             "productDescription" := Str(description), "imageBase64" := Str(image)])
    ensures JsonArgs(body) == Ok(GeneratePrompts.PromptArgs(Str(template), Num(ParseInt(count)), Str(description),
                                                            Str(image), Undefined))
  {
  }

  /** Only one of the two bodies is ever read: the JSON body of a multipart
      request and the form of any other request make no difference. */
  lemma ReadsOneBody(env: Env, prims: Primitives, req: Request, form: Outcome<Form>, json: Outcome<JsValue>,
                     openai: GeneratePrompts.OpenAi)
    ensures IsMultipart(req) ==> Post(env, prims, req.(json := json), openai) == Post(env, prims, req, openai)
    ensures !IsMultipart(req) ==> Post(env, prims, req.(form := form), openai) == Post(env, prims, req, openai)
  {
    if IsMultipart(req) {
      PostFollowsArgs(env, prims, req.(json := json), req, openai);
    } else {
      PostFollowsArgs(env, prims, req.(form := form), req, openai);
    }
  }

  /** The handler reads nothing of the request but its options. */
  lemma PostFollowsArgs(env: Env, prims: Primitives, req1: Request, req2: Request, openai: GeneratePrompts.OpenAi)
    requires ArgsOf(prims, req1) == ArgsOf(prims, req2)
    ensures Post(env, prims, req1, openai) == Post(env, prims, req2, openai)
  {
  }
}
