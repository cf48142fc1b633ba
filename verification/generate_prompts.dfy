/** `generatePrompts` of lib/generatePrompts.js: one request to the OpenAI
    Responses API asking for `count` prompts as a JSON object, and the
    extraction of the `prompts` array from whichever reply shape carries
    the text. */
module GeneratePrompts {
  import opened Outcomes
  import opened Js

  const DefaultModel := "gpt-5"
  const ResponseFormat := "json_object"
  const PngDataPrefix := "data:image/png;base64,"
  const ErrorPrefix := "Failed to parse prompts JSON: "
  const MissingTextOutput := "missing text output"
  const TemplateRequired := "template is required"

  /** The destructured options; an absent option is `Undefined`. */
  datatype PromptArgs = PromptArgs(
    template: JsValue, count: JsValue, productDescription: JsValue,
    imageBase64: JsValue, imageDataUrl: JsValue)

  /** One item of the user message's content. */
  datatype Content = InputText(text: string) | InputImage(imageUrl: JsValue)

  /** `openai.responses.create({ model, input, text: { format } })` with a
      single user message. */
  datatype PromptRequest = PromptRequest(model: string, content: seq<Content>, format: string)

  /** The SDK: the reply to the request, or the error it rejects with. */
  type OpenAi = PromptRequest -> Outcome<JsValue>

  /** What `generatePrompts` settles to and the requests it sent. */
  datatype Run = Run(result: Outcome<seq<JsValue>>, requests: seq<PromptRequest>)

  /** The destructuring defaults `count = 1` and `productDescription = ''`. */
  function CountArg(args: PromptArgs): JsValue {
    if args.count.Undefined? then Num(Finite(1.0)) else args.count
  }

  function DescriptionArg(args: PromptArgs): JsValue {
    if args.productDescription.Undefined? then Str("") else args.productDescription
  }

  const TextLead := "Generate "
  const TextAfterCount := " distinct prompts for "
  const TextAfterTemplate := " photography of a product described as: "
  const TextTail := ". Return the prompts as a JSON array under the key \"prompts\"."

  /** The instruction text, with the three options spliced in as a template
      literal prints them: the count after the lead, then the template, then
      the description just before the closing sentence. */
  function UserText(prims: Primitives, count: JsValue, template: JsValue, description: JsValue): (r: string)
    ensures var lead := TextLead + Stringify(prims, count) + TextAfterCount;
      var t := Stringify(prims, template);
      var d := Stringify(prims, description);
      && |r| == |lead| + |t| + |TextAfterTemplate| + |d| + |TextTail|
      && r[..|lead|] == lead
      && r[|lead|..|lead| + |t|] == t
      && r[|lead| + |t|..|lead| + |t| + |TextAfterTemplate|] == TextAfterTemplate
      && r[|r| - |TextTail| - |d|..|r| - |TextTail|] == d
      && r[|r| - |TextTail|..] == TextTail
  {
    var lead := TextLead + Stringify(prims, count) + TextAfterCount;
    var t := Stringify(prims, template);
    var d := Stringify(prims, description);
    JoinOfFive(lead, t, TextAfterTemplate, d, TextTail);
    lead + t + TextAfterTemplate + d + TextTail
  }

  /** Where each of five joined strings sits in the result. */
  lemma JoinOfFive(a: string, b: string, c: string, d: string, e: string)
    ensures var r := a + b + c + d + e;
      && |r| == |a| + |b| + |c| + |d| + |e|
      && r[..|a|] == a
      && r[|a|..|a| + |b|] == b
      && r[|a| + |b|..|a| + |b| + |c|] == c
      && r[|r| - |e| - |d|..|r| - |e|] == d
      && r[|r| - |e|..] == e
  {
    var r := a + b + c + d + e;
    assert r[..|a|] == a;
    assert r[|a|..|a| + |b|] == b;
    assert r[|a| + |b|..|a| + |b| + |c|] == c;
    assert r[|r| - |e| - |d|..|r| - |e|] == d;
    assert r[|r| - |e|..] == e;
  }

  /** The model can read the options back: for the same count and template,
      two descriptions that print differently give different instructions,
      and so do two templates that print differently but to the same length. */
  lemma UserTextDeterminesOptions(prims: Primitives, count: JsValue, template1: JsValue, template2: JsValue,
                                  description1: JsValue, description2: JsValue)
    requires UserText(prims, count, template1, description1) == UserText(prims, count, template2, description2)
    requires |Stringify(prims, template1)| == |Stringify(prims, template2)|
    ensures Stringify(prims, template1) == Stringify(prims, template2)
    ensures Stringify(prims, description1) == Stringify(prims, description2)
  {
    var r := UserText(prims, count, template1, description1);
    var lead := TextLead + Stringify(prims, count) + TextAfterCount;
    assert r[|lead|..|lead| + |Stringify(prims, template1)|] == Stringify(prims, template1);
    assert |Stringify(prims, description1)| == |Stringify(prims, description2)|;
  }

  /** `imageDataUrl || \`data:image/png;base64,${imageBase64}\``, attached only
      when one of the two is truthy. */
  function ImageContent(prims: Primitives, args: PromptArgs): (r: seq<Content>)
    ensures |r| <= 1
    ensures r != [] <==> Truthy(args.imageBase64) || Truthy(args.imageDataUrl)
    ensures Truthy(args.imageDataUrl) ==> r == [InputImage(args.imageDataUrl)]
    ensures !Truthy(args.imageDataUrl) && Truthy(args.imageBase64) ==>
              r == [InputImage(Str(PngDataPrefix + Stringify(prims, args.imageBase64)))]
  {
    if Truthy(args.imageBase64) || Truthy(args.imageDataUrl) then
      [InputImage(Or(args.imageDataUrl, Str(PngDataPrefix + Stringify(prims, args.imageBase64))))]
    else []
  }

  /** The one request sent: the text item first, then the image if any. */
  function Request(env: Env, prims: Primitives, args: PromptArgs): (r: PromptRequest)
    ensures r.format == ResponseFormat
    ensures 1 <= |r.content| <= 2
    ensures r.content[0] == InputText(UserText(prims, CountArg(args), args.template, DescriptionArg(args)))
    ensures |r.content| == 2 <==> Truthy(args.imageBase64) || Truthy(args.imageDataUrl)
    ensures r.content[1..] == ImageContent(prims, args)
    ensures r.model != ""
    ensures "OPENAI_MODEL" in env && env["OPENAI_MODEL"] != "" ==> r.model == env["OPENAI_MODEL"]
    ensures "OPENAI_MODEL" !in env || env["OPENAI_MODEL"] == "" ==> r.model == DefaultModel
  {
    var text := InputText(UserText(prims, CountArg(args), args.template, DescriptionArg(args)));
    PromptRequest(EnvOr(env, "OPENAI_MODEL", DefaultModel), [text] + ImageContent(prims, args), ResponseFormat)
  }

  // ------------------------------------------------------------ the reply

  /** `c?.type === 'output_text'` */
  predicate IsOutputText(c: JsValue) {
    Get(c, "type") == Str("output_text")
  }

  /** `response?.output?.[0]?.content` */
  function FirstOutputContent(response: JsValue): JsValue {
    Get(Index(Get(response, "output"), 0), "content")
  }

  /** The helper field: `output_text` when it is a string, else its first element. */
  function HelperText(response: JsValue): JsValue {
    var helper := Get(response, "output_text");
    if helper.Str? then helper else Index(helper, 0)
  }

  /** The text the reply carries, tried in the order the code tries it. */
  function TextOut(response: JsValue): (r: JsValue)
    ensures !Nullish(HelperText(response)) ==> r == HelperText(response)
    ensures Nullish(HelperText(response)) && !Nullish(Get(Find(FirstOutputContent(response), IsOutputText), "text")) ==>
              r == Get(Find(FirstOutputContent(response), IsOutputText), "text")
    ensures Nullish(HelperText(response)) && Nullish(Get(Find(FirstOutputContent(response), IsOutputText), "text")) ==>
              r == Get(Index(FirstOutputContent(response), 0), "text")
  {
    Coalesce(Coalesce(HelperText(response), Get(Find(FirstOutputContent(response), IsOutputText), "text")),
             Get(Index(FirstOutputContent(response), 0), "text"))
  }

  /** A string `output_text` wins over every other shape of the reply. */
  lemma OutputTextStringWins(response: JsValue, text: string)
    requires Get(response, "output_text") == Str(text)
    ensures TextOut(response) == Str(text)
  {
  }

  /** The message of the TypeError raised by reading `.prompts` of a nullish value. */
  function NullishReadMessage(v: JsValue): string {
    "Cannot read properties of " + (if v.Null? then "null" else "undefined") + " (reading 'prompts')"
  }

  /** The `try` block: the text, parsed, and its `prompts` if that is an array;
      every failure in it is reported with the common prefix. */
  function ParsePrompts(prims: Primitives, response: JsValue): (r: Outcome<seq<JsValue>>)
    ensures r.Threw? ==> StartsWith(r.message, ErrorPrefix)
    ensures !Truthy(TextOut(response)) ==> r == Threw(ErrorPrefix + MissingTextOutput)
    ensures Truthy(TextOut(response)) && prims.jsonParse(Stringify(prims, TextOut(response))).Threw? ==>
              r == Threw(ErrorPrefix + prims.jsonParse(Stringify(prims, TextOut(response))).message)
    ensures Truthy(TextOut(response)) && prims.jsonParse(Stringify(prims, TextOut(response))).Ok? ==>
              var data := prims.jsonParse(Stringify(prims, TextOut(response))).value;
              r == if Nullish(data) then Threw(ErrorPrefix + NullishReadMessage(data))
                   else if Get(data, "prompts").Arr? then Ok(Get(data, "prompts").elems)
                   else Ok([])
  {
    var inner := ParseText(prims, TextOut(response));
    match inner
    case Ok(prompts) => Ok(prompts)
    case Threw(e) =>
      var m := ErrorPrefix + e;
      assert m[..|ErrorPrefix|] == ErrorPrefix;
      Threw(m)
  }

  /** The statements inside the `try`, before the prefix is added: they
      succeed exactly when there is a text, it parses, and the parsed value
      is not nullish, and then yield its `prompts` when that is an array. */
  function ParseText(prims: Primitives, textOut: JsValue): (r: Outcome<seq<JsValue>>)
    ensures r.Ok? <==> Truthy(textOut) && prims.jsonParse(Stringify(prims, textOut)).Ok?
                       && !Nullish(prims.jsonParse(Stringify(prims, textOut)).value)
    ensures r.Ok? ==> var prompts := Get(prims.jsonParse(Stringify(prims, textOut)).value, "prompts");
              r.value == if prompts.Arr? then prompts.elems else []
  {
    if !Truthy(textOut) then Threw(MissingTextOutput)
    else
      var data :- prims.jsonParse(Stringify(prims, textOut));
      if Nullish(data) then Threw(NullishReadMessage(data))
      else
        var prompts := Get(data, "prompts");
        Ok(if prompts.Arr? then prompts.elems else [])
  }

  /** `generatePrompts(args)`. */
  function GeneratePrompts(env: Env, prims: Primitives, args: PromptArgs, openai: OpenAi): (r: Run)
    ensures !Truthy(args.template) ==> r == Run(Threw(TemplateRequired), [])
    ensures Truthy(args.template) ==> r.requests == [Request(env, prims, args)]
    ensures Truthy(args.template) && openai(Request(env, prims, args)).Threw? ==>
              r.result == Threw(openai(Request(env, prims, args)).message)
    ensures Truthy(args.template) && openai(Request(env, prims, args)).Ok? ==>
              r.result == ParsePrompts(prims, openai(Request(env, prims, args)).value)
  {
    if !Truthy(args.template) then Run(Threw(TemplateRequired), [])
    else
      var req := Request(env, prims, args);
      match openai(req)
      case Threw(e) => Run(Threw(e), [req])
      case Ok(response) => Run(ParsePrompts(prims, response), [req])
  }

  /** A reply whose text parses to an object with a `prompts` array yields
      that array as it is. */
  lemma WellFormedReplyRoundTrip(env: Env, prims: Primitives, args: PromptArgs, openai: OpenAi,
                                 text: string, prompts: seq<JsValue>)
    requires Truthy(args.template)
    requires openai(Request(env, prims, args)) == Ok(Obj(map["output_text" := Str(text)]))
    requires text != ""
    requires prims.jsonParse(text) == Ok(Obj(map["prompts" := Arr(prompts)]))
    ensures GeneratePrompts(env, prims, args, openai).result == Ok(prompts)
  {
    OutputTextStringWins(Obj(map["output_text" := Str(text)]), text);
  }

  /** A parsed reply without a `prompts` array is not an error: it yields no
      prompts. */
  lemma ReplyWithoutPromptsArrayYieldsNone(prims: Primitives, response: JsValue)
    requires Truthy(TextOut(response))
    requires prims.jsonParse(Stringify(prims, TextOut(response))).Ok?
    requires !Nullish(prims.jsonParse(Stringify(prims, TextOut(response))).value)
    requires !Get(prims.jsonParse(Stringify(prims, TextOut(response))).value, "prompts").Arr?
    ensures ParsePrompts(prims, response) == Ok([])
  {
  }
}
