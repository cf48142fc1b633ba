/** Request and response shapes of the HTTP routes: uploaded blobs, parsed
    multipart forms and the JSON bodies a route answers with. */
module Web {
  import opened Outcomes
  import opened Js

  /** A Blob or File: its bytes and its declared `type` ("" when unknown). */
  datatype Blob = Blob(bytes: seq<byte>, mediaType: string)

  /** A parsed `FormData`: text entries and file entries by field name. */
  datatype Form = Form(fields: map<string, string>, files: map<string, Blob>)

  /** `form.get(name)` for a text entry; `None` is `null`. */
  function Field(form: Form, name: string): Option<string> {
    if name in form.fields then Some(form.fields[name]) else None
  }

  /** `form.get(name) || fallback` */
  function FieldOr(form: Form, name: string, fallback: string): string {
    if name in form.fields && form.fields[name] != "" then form.fields[name] else fallback
  }

  /** `form.get(name)` for a file entry. */
  function FileField(form: Form, name: string): Option<Blob> {
    if name in form.files then Some(form.files[name]) else None
  }

  /** A text entry as the JavaScript value `form.get` returns. */
  function FieldValue(form: Form, name: string): JsValue {
    if name in form.fields then Str(form.fields[name]) else Null
  }

  /** The JSON objects the routes answer with. */
  datatype Body =
    | ErrorBody(error: string)
    | PromptsAndImages(prompts: seq<JsValue>, images: seq<JsValue>)
    | ImagesBody(imageList: JsValue)
    | PromptsBody(prompts: seq<JsValue>)

  /** The JSON value the browser reads back from a body. */
  function BodyJson(body: Body): (v: JsValue)
    ensures v.Obj?
    ensures body.ErrorBody? ==> v.props.Keys == {"error"} && v.props["error"] == Str(body.error)
    ensures body.PromptsAndImages? ==>
              && v.props.Keys == {"prompts", "images"}
              && v.props["prompts"] == Arr(body.prompts) && v.props["images"] == Arr(body.images)
  {
    match body
    case ErrorBody(e) => Obj(map["error" := Str(e)])
    case PromptsAndImages(prompts, images) => Obj(map["prompts" := Arr(prompts), "images" := Arr(images)])
    case ImagesBody(imageList) => Obj(map["images" := imageList])
    case PromptsBody(prompts) => Obj(map["prompts" := Arr(prompts)])
  }

  /** `NextResponse.json(body, {status})`, or the framework's own error page
      when the handler throws outside its `try`. */
  datatype Response = Json(status: int, body: Body) | Unhandled(reason: string)
}
