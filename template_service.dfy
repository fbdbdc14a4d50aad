/**
 * Creating a template: the BPMN XML goes in the body of a POST and the
 * metadata in `X-Template-*` headers. `JSON.stringify` of the tag list is the
 * parameter `encode`; the HTTP call itself is the request value returned.
 */
module TemplateService {
  import opened Text
  import opened JsValues
  import opened TemplateTypes

  const BasePath: string := "/v1.0/m8flow"

  /**
   * The header object `buildHeaders` returns, one field per header it may
   * set, in order `Content-Type`, `X-Template-Key`, `X-Template-Name`,
   * `X-Template-Description`, `X-Template-Category`, `X-Template-Tags`,
   * `X-Template-Visibility`, `X-Template-Status`, `X-Template-Version` and
   * `X-Template-Is-Published`; an optional header is `Some` exactly when its
   * key is present.
   */
  datatype Headers = Headers(
    contentType: string,
    templateKey: string,
    name: string,
    description: Option<string>,
    category: Option<string>,
    tags: Option<string>,
    visibility: Option<string>,
    status: Option<string>,
    version: Option<string>,
    isPublished: Option<string>)

  /** The tag list sent: an array as it is, text split on `,` with each piece trimmed and blanks dropped. */
  function TagValues(tags: TagsField): seq<string>
  {
    match tags
    case TagArray(list) => list
    case TagText(text) => ParseTagText(text)
  }

  /** `if (field) headers[...] = field`: a text header is present exactly when its field is defined and not `""`. */
  function TextHeader(field: Option<string>): Option<string>
  {
    if field.Some? && field.value != "" then Some(field.value) else None
  }

  /** The tags header: the JSON form of the tag list, present exactly when the list is not empty. */
  function TagsHeaderOf(tags: Option<TagsField>, encode: seq<string> -> string): (header: Option<string>)
    ensures header.Some? <==> tags.Some? && |TagValues(tags.value)| > 0
    ensures header.Some? ==> header.value == encode(TagValues(tags.value))
  {
    if tags.Some? then
      var list := TagValues(tags.value);
      if |list| > 0 then Some(encode(list)) else None
    else None
  }

  /**
   * The header object for `m`: content type, trimmed key and name always; each
   * text field as it is, exactly when it is defined and not `""`; the tags as a
   * JSON array exactly when the list is not empty; the visibility and the
   * published flag whenever they are defined.
   */
  predicate HeadersFor(m: CreateTemplateMetadata, encode: seq<string> -> string, h: Headers)
  {
    && h.contentType == "application/xml"
    && h.templateKey == Trim(m.templateKey)
    && h.name == Trim(m.name)
    && (h.description.Some? <==> m.description.Some? && m.description.value != "")
    && (h.description.Some? ==> h.description.value == m.description.value)
    && (h.category.Some? <==> m.category.Some? && m.category.value != "")
    && (h.category.Some? ==> h.category.value == m.category.value)
    && (h.tags.Some? <==> m.tags.Some? && |TagValues(m.tags.value)| > 0)
    && (h.tags.Some? ==> h.tags.value == encode(TagValues(m.tags.value)))
    && (h.visibility.Some? <==> m.visibility.Some?)
    && (h.visibility.Some? ==> h.visibility.value == VisibilityName(m.visibility.value))
    && (h.status.Some? <==> m.status.Some? && m.status.value != "")
    && (h.status.Some? ==> h.status.value == m.status.value)
    && (h.version.Some? <==> m.version.Some? && m.version.value != "")
    && (h.version.Some? ==> h.version.value == m.version.value)
    && (h.isPublished.Some? <==> m.isPublished.Some?)
    && (h.isPublished.Some? ==> h.isPublished.value == if m.isPublished.value then "true" else "false")
  }

  /** `buildHeaders`: the three fixed headers, then each one whose field is set. */
  function BuildHeaders(m: CreateTemplateMetadata, encode: seq<string> -> string): (headers: Headers)
    ensures HeadersFor(m, encode, headers)
  {
    Headers(
      "application/xml", Trim(m.templateKey), Trim(m.name),
      TextHeader(m.description),
      TextHeader(m.category),
      TagsHeaderOf(m.tags, encode),
      if m.visibility.Some? then Some(VisibilityName(m.visibility.value)) else None,
      TextHeader(m.status),
      TextHeader(m.version),
      if m.isPublished.Some? then Some(if m.isPublished.value then "true" else "false") else None)
  }

  /** The description of the header object singles out one object: the one `buildHeaders` returns. */
  lemma HeadersForUnique(m: CreateTemplateMetadata, encode: seq<string> -> string, h: Headers)
    requires HeadersFor(m, encode, h)
    ensures h == BuildHeaders(m, encode)
  {
    var b := BuildHeaders(m, encode);
    assert h.description == b.description && h.category == b.category && h.tags == b.tags;
    assert h.visibility == b.visibility && h.status == b.status && h.version == b.version;
    assert h.isPublished == b.isPublished;
  }

  /** The call handed to the backend. */
  datatype Request = Request(path: string, httpMethod: string, postBody: string, extraHeaders: Headers)

  const KeyAndNameRequired: string := "Template key and name are required"
  const CreateFailed: string := "Failed to create template"

  /** `createTemplate` up to the backend call: the guard rejects before any request exists. */
  method CreateTemplate(bpmnXml: string, m: CreateTemplateMetadata, encode: seq<string> -> string)
    returns (r: Result<Request>)
    ensures r.Failure? <==> Trim(m.templateKey) == "" || Trim(m.name) == ""
    ensures r.Failure? ==> r.error == KeyAndNameRequired
    ensures r.Success? ==>
      r.value.path == BasePath + "/templates" && r.value.httpMethod == "POST"
      && r.value.postBody == bpmnXml && HeadersFor(m, encode, r.value.extraHeaders)
  {
    if Trim(m.templateKey) == "" || Trim(m.name) == "" {
      return Failure(KeyAndNameRequired);
    }
    return Success(Request(BasePath + "/templates", "POST", bpmnXml, BuildHeaders(m, encode)));
  }

  /** The message of the `Error` a failed call rejects with: `String(err.message)` for an object with a `message` key. */
  function FailureMessage(err: JsError): (message: string)
    ensures (err.ErrorObject? || (err.PlainObject? && err.prop.StringMessage?)) ==>
              message == (if err.ErrorObject? then err.errorMessage else err.prop.text)
    ensures err.PlainObject? && err.prop.OtherMessage? ==> message == err.prop.asString
    ensures err.Nullish? || err.Primitive? || err == PlainObject(NoMessage) ==> message == CreateFailed
  {
    match err
    case ErrorObject(text) => text
    case PlainObject(StringMessage(text)) => text
    case PlainObject(OtherMessage(text, _)) => text
    case _ => CreateFailed
  }

  /** How the promise `createTemplate` returned settles once the backend has answered. */
  function Settle(outcome: Outcome<Template>): (r: Result<Template>)
    ensures r.Success? <==> outcome.Responded?
    ensures r.Success? ==> r.value == outcome.value
    ensures r.Failure? ==> r.error == FailureMessage(outcome.err)
  {
    match outcome
    case Responded(t) => Success(t)
    case Failed(err) => Failure(FailureMessage(err))
  }
}
