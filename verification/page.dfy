/** The pure decision rules of the browser page (app/page.js): upload
    validation, the count clamp, turning a returned image value into
    something an `<img src>` can show, the full-screen viewer's keyboard
    navigation, and when the Generate button is enabled. */
module Page {
  import opened Outcomes
  import opened Js
  import opened Web

  const MaxMb := 8
  const MaxBytes: nat := MaxMb * 1024 * 1024
  const AllowedTypes: set<string> := {"image/png", "image/jpeg", "image/webp"}

  /** Why a file was refused; the on-screen wording is not modelled. */
  datatype Rejection = UnsupportedType(shownType: string) | TooLarge(size: nat)

  /** The error line under the form. */
  datatype ErrorLine = NoError | FileRejected(reason: Rejection) | Message(text: string)

  /** The part of the page state the file picker touches. */
  datatype FileState = FileState(imageFile: Option<Blob>, error: ErrorLine)

  /** `validateAndSetFile(f)`: its return value and the state it leaves. */
  function ValidateAndSetFile(st: FileState, f: Option<Blob>): (r: (bool, FileState))
    ensures f.None? ==> r.0 && r.1 == st.(imageFile := None)
    ensures f.Some? ==> (r.0 <==> f.value.mediaType in AllowedTypes && |f.value.bytes| <= MaxBytes)
    ensures f.Some? && r.0 ==> r.1 == FileState(f, NoError)
    ensures !r.0 ==> r.1.imageFile == st.imageFile && r.1.error.FileRejected?
    ensures f.Some? && f.value.mediaType !in AllowedTypes ==>
              r.1.error == FileRejected(UnsupportedType(if f.value.mediaType == "" then "unknown" else f.value.mediaType))
    ensures f.Some? && f.value.mediaType in AllowedTypes && |f.value.bytes| > MaxBytes ==>
              r.1.error == FileRejected(TooLarge(|f.value.bytes|))
  {
    match f
    case None => (true, st.(imageFile := None))
    case Some(file) =>
      if file.mediaType !in AllowedTypes then
        (false, st.(error := FileRejected(UnsupportedType(if file.mediaType == "" then "unknown" else file.mediaType))))
      else if |file.bytes| > MaxBytes then
        (false, st.(error := FileRejected(TooLarge(|file.bytes|))))
      else
        (true, FileState(f, NoError))
  }

  /** The size ceiling is inclusive: exactly 8 MiB of an allowed type is
      accepted, one byte more (and so 9 MiB) is refused for its size. */
  lemma SizeCeilingInclusive(st: FileState, mediaType: string, bytes: seq<byte>)
    requires mediaType in AllowedTypes
    ensures |bytes| == MaxBytes ==> ValidateAndSetFile(st, Some(Blob(bytes, mediaType))).0
    ensures |bytes| > MaxBytes ==>
              ValidateAndSetFile(st, Some(Blob(bytes, mediaType))).1.error == FileRejected(TooLarge(|bytes|))
  {
  }

  // --------------------------------------------------------------- count

  /** `clampCount` after `Number(n)`. */
  function ClampCount(x: JsNumber): (r: int)
    ensures 1 <= r <= 8
    ensures x.NaN? ==> r == 1
    ensures x.Infinity? ==> r == (if x.negative then 1 else 8)
    ensures x.Finite? && x.r < 2.0 ==> r == 1
    ensures x.Finite? && x.r >= 8.0 ==> r == 8
    ensures x.Finite? && 1.0 <= x.r < 9.0 ==> r == x.r.Floor
  {
    match x
    case NaN => 1
    case Infinity(negative) => if negative then 1 else 8
    case Finite(v) =>
      var t := Trunc(v);
      if t > 8 then 8 else if t < 1 then 1 else t
  }

  /** Clamping is idempotent: an integer in 1..8 is left as it is, so a
      clamped count clamps to itself. */
  lemma ClampCountIdempotent(x: JsNumber)
    ensures ClampCount(Finite(ClampCount(x) as real)) == ClampCount(x)
  {
  }

  // ------------------------------------------------------------- deriveSrc

  const PngDataPrefix := "data:image/png;base64,"

  predicate HasImageScheme(s: string) {
    StartsWith(s, "http://") || StartsWith(s, "https://") || StartsWith(s, "data:")
  }

  /** `item.b64 || item.base64 || item.image_base64 || item.data` */
  function InlinePayload(item: JsValue): JsValue {
    Or(Or(Or(Get(item, "b64"), Get(item, "base64")), Get(item, "image_base64")), Get(item, "data"))
  }

  /** The object branch of `deriveSrc`, tried field by field. */
  function ObjectSrc(item: JsValue): (r: Option<string>)
    ensures Get(item, "url").Str? ==> r == Some(Get(item, "url").s)
    ensures !Get(item, "url").Str? && InlinePayload(item).Str? ==> r == Some(PngDataPrefix + InlinePayload(item).s)
    ensures !Get(item, "url").Str? && !InlinePayload(item).Str? && Get(item, "image").Str? ==>
              r == Some(Get(item, "image").s)
    ensures !Get(item, "url").Str? && !InlinePayload(item).Str? && !Get(item, "image").Str? ==>
              r == (if Get(Get(item, "image"), "url").Str? then Some(Get(Get(item, "image"), "url").s) else None)
  {
    var url := Get(item, "url");
    if url.Str? then Some(url.s)
    else
      var b64 := InlinePayload(item);
      if b64.Str? then Some(PngDataPrefix + b64.s)
      else
        var image := Get(item, "image");
        if image.Str? then Some(image.s)
        else if Truthy(image) && Get(image, "url").Str? then Some(Get(image, "url").s)
        else None
  }

  /** The inline payload is the first truthy of the four fields, or the last
      field itself when none is truthy. */
  lemma InlinePayloadPriority(item: JsValue)
    ensures Truthy(Get(item, "b64")) ==> InlinePayload(item) == Get(item, "b64")
    ensures !Truthy(Get(item, "b64")) && Truthy(Get(item, "base64")) ==> InlinePayload(item) == Get(item, "base64")
    ensures !Truthy(Get(item, "b64")) && !Truthy(Get(item, "base64")) && Truthy(Get(item, "image_base64")) ==>
              InlinePayload(item) == Get(item, "image_base64")
    ensures !Truthy(Get(item, "b64")) && !Truthy(Get(item, "base64")) && !Truthy(Get(item, "image_base64")) ==>
              InlinePayload(item) == Get(item, "data")
  {
  }

  /** `deriveSrc(item)`; `None` is `null` (nothing to render). */
  function DeriveSrc(item: JsValue): (r: Option<string>)
    ensures !Truthy(item) ==> r == None
    ensures item.Str? && item.s != "" ==>
              r == Some(if HasImageScheme(item.s) then item.s else PngDataPrefix + item.s)
    ensures item.Str? && r.Some? ==> HasImageScheme(r.value)
    ensures item.Bool? || item.Num? ==> r == None
    ensures item.Obj? || item.Arr? ==> r == ObjectSrc(item)
  {
    if !Truthy(item) then None
    else if item.Str? then
      if HasImageScheme(item.s) then Some(item.s) else Some(PngDataPrefix + item.s)
    else if item.Obj? || item.Arr? then ObjectSrc(item)
    else None
  }

  /** Rendering a string twice changes nothing: what `deriveSrc` makes of a
      string is a URL or data URL that it passes through verbatim. */
  lemma DeriveSrcIdempotentOnStrings(s: string)
    requires DeriveSrc(Str(s)).Some?
    ensures DeriveSrc(Str(DeriveSrc(Str(s)).value)) == DeriveSrc(Str(s))
  {
    assert StartsWith(PngDataPrefix + s, "data:") by {
      assert (PngDataPrefix + s)[..5] == "data:";
    }
  }

  // ----------------------------------------------------------------- viewer

  /** The viewer's keydown handler; `None` is a closed viewer, in which case
      no handler is installed. */
  function ViewerKey(index: Option<int>, key: string, imageCount: int): (r: Option<int>)
    ensures index.None? ==> r == None
    ensures key == "Escape" ==> r == None
    ensures index.Some? && key == "ArrowRight" ==>
              r == Some(if imageCount - 1 < index.value + 1 then imageCount - 1 else index.value + 1)
    ensures index.Some? && key == "ArrowLeft" ==> r == Some(if index.value - 1 < 0 then 0 else index.value - 1)
    ensures key != "Escape" && key != "ArrowRight" && key != "ArrowLeft" ==> r == index
  {
    match index
    case None => None
    case Some(i) =>
      if key == "Escape" then None
      else if key == "ArrowRight" then Some(if imageCount - 1 < i + 1 then imageCount - 1 else i + 1)
      else if key == "ArrowLeft" then Some(if i - 1 < 0 then 0 else i - 1)
      else index
  }

  /** Navigation never leaves the image list: from a valid index any key
      gives a valid index or closes the viewer. */
  lemma {:induction false} ViewerStaysInRange(index: Option<int>, keys: seq<string>, imageCount: int)
    requires imageCount >= 1
    requires index.Some? ==> 0 <= index.value < imageCount
    ensures var r := ViewerKeys(index, keys, imageCount); r.Some? ==> 0 <= r.value < imageCount
    decreases |keys|
  {
    if keys != [] {
      ViewerStaysInRange(ViewerKey(index, keys[0], imageCount), keys[1..], imageCount);
    }
  }

  /** A sequence of key presses. */
  function ViewerKeys(index: Option<int>, keys: seq<string>, imageCount: int): Option<int>
    decreases |keys|
  {
    if keys == [] then index else ViewerKeys(ViewerKey(index, keys[0], imageCount), keys[1..], imageCount)
  }

  // ---------------------------------------------------------------- submit

  /** The form state the Generate button and `onSubmit` read. */
  datatype FormState = FormState(
    imageFile: Option<Blob>, template: string, count: JsNumber, engine: string,
    description: string, loading: bool)

  predicate IsGenerateDisabled(s: FormState) {
    s.imageFile.None? || s.template == "" || s.loading
  }

  /** The request `onSubmit` posts to /api/generate, or `None` when no image
      is chosen (the page then shows a message and posts nothing). */
  function SubmitForm(s: FormState): (r: Option<Form>)
    ensures r.Some? <==> s.imageFile.Some?
    ensures r.Some? ==> FileField(r.value, "image") == s.imageFile
    ensures r.Some? ==> Field(r.value, "template") == Some(s.template)
    ensures r.Some? ==> Field(r.value, "count") == Some(DecimalString(ClampCount(s.count)))
    ensures r.Some? ==> (Field(r.value, "productDescription").Some? <==> s.description != "")
    ensures r.Some? && s.description != "" ==> Field(r.value, "productDescription") == Some(s.description)
    ensures r.Some? ==> Field(r.value, "engine") == Some(s.engine)
  {
    match s.imageFile
    case None => None
    case Some(file) =>
      var fields := map["template" := s.template, "count" := DecimalString(ClampCount(s.count)),
                         "engine" := s.engine];
      var fields := if s.description != "" then fields["productDescription" := s.description] else fields;
      Some(Form(fields, map["image" := file]))
  }

  /** `Array.isArray(v) ? v : []`, how the page reads `data.prompts` and
      `data.images` out of a response. */
  function ListOrEmpty(v: JsValue): (r: seq<JsValue>)
    ensures v.Arr? ==> r == v.elems
    ensures !v.Arr? ==> r == []
  {
    if v.Arr? then v.elems else []
  }

  /** What the page shows once `/api/generate` has answered. */
  datatype Shown = Results(prompts: seq<JsValue>, images: seq<JsValue>) | Failed(message: string)

  const FallbackMessage := "Something went wrong"

  /** The error line for a failed request: `new Error(...)` of the body's
      `error`, or of `Request failed (status)` when that is falsy, shown
      through `err?.message || 'Something went wrong'`. */
  function FailureMessage(prims: Primitives, status: nat, data: JsValue): (m: string)
    ensures m != ""
    ensures !Truthy(Get(data, "error")) ==> m == "Request failed (" + DecimalString(status) + ")"
    ensures Get(data, "error").Str? && Get(data, "error").s != "" ==> m == Get(data, "error").s
  {
    var text := if Truthy(Get(data, "error")) then Stringify(prims, Get(data, "error"))
                else "Request failed (" + DecimalString(status) + ")";
    if text != "" then text else FallbackMessage
  }

  /** The `try` block of `onSubmit` after `fetch`: a status outside 200..299
      becomes the error line; otherwise the prompts and images shown are the
      body's arrays, an absent or non-array field showing as empty. */
  function ReadResponse(prims: Primitives, status: nat, data: JsValue): (r: Shown)
    ensures 200 <= status <= 299 ==> r == Results(ListOrEmpty(Get(data, "prompts")), ListOrEmpty(Get(data, "images")))
    ensures !(200 <= status <= 299) ==> r == Failed(FailureMessage(prims, status, data))
  {
    if 200 <= status <= 299 then Results(ListOrEmpty(Get(data, "prompts")), ListOrEmpty(Get(data, "images")))
    else Failed(FailureMessage(prims, status, data))
  }

  /** The page shows a route's answer as it was sent: a successful answer's
      prompts and images exactly, and an error answer's message, or the
      status line when the message is empty. */
  lemma ReadsRouteBody(prims: Primitives, status: nat, body: Body)
    ensures body.PromptsAndImages? && 200 <= status <= 299 ==>
              ReadResponse(prims, status, BodyJson(body)) == Results(body.prompts, body.images)
    ensures body.ErrorBody? && !(200 <= status <= 299) ==>
              ReadResponse(prims, status, BodyJson(body)) ==
                Failed(if body.error != "" then body.error else "Request failed (" + DecimalString(status) + ")")
  {
  }

  /** A response without a JSON body (the framework's own error page) is
      read as `{}` and reported by its status alone. */
  lemma NonJsonAnswerShowsStatus(prims: Primitives, status: nat)
    requires !(200 <= status <= 299)
    ensures ReadResponse(prims, status, Obj(map[])) == Failed("Request failed (" + DecimalString(status) + ")")
  {
  }

  /** An enabled button always posts a form carrying a non-empty template
      and an image. */
  lemma EnabledButtonPostsTemplateAndImage(s: FormState)
    requires !IsGenerateDisabled(s)
    ensures SubmitForm(s).Some?
    ensures FieldOr(SubmitForm(s).value, "template", "") == s.template != ""
    ensures FileField(SubmitForm(s).value, "image").Some?
  {
  }
}
