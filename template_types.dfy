/**
 * The template records shared by the template features: a stored template, the
 * filters of a template listing, and the metadata sent when a template is
 * created.
 */
module TemplateTypes {
  import opened Text
  import opened JsValues

  datatype Visibility = Private | Tenant | Public

  /** The wire spelling of a visibility. */
  function VisibilityName(v: Visibility): string
  {
    match v
    case Private => "PRIVATE"
    case Tenant => "TENANT"
    case Public => "PUBLIC"
  }

  /** Distinct visibilities are spelt differently, and no spelling is empty. */
  lemma VisibilityNameInjective(a: Visibility, b: Visibility)
    ensures VisibilityName(a) != ""
    ensures VisibilityName(a) == VisibilityName(b) <==> a == b
  {
    match a
    case Private => assert VisibilityName(a)[1] == 'R';
    case Tenant => assert VisibilityName(a)[0] == 'T';
    case Public => assert VisibilityName(a)[1] == 'U';
  }

  datatype Template = Template(
    id: int,
    templateKey: string,
    version: string,
    name: string,
    description: Option<string>,
    tags: Option<seq<string>>,
    category: Option<string>,
    tenantId: Option<string>,
    visibility: Visibility,
    bpmnObjectKey: string,
    bpmnContent: Option<string>,
    isPublished: bool,
    status: Option<string>,
    createdAtInSeconds: int,
    createdBy: string,
    updatedAtInSeconds: int,
    modifiedBy: string)

  /**
   * An optional property of an object literal. A spread such as
   * `{...filters, tag: undefined}` keeps the key with the value `undefined`,
   * which `Object.keys` still counts.
   */
  datatype Slot<T> = NoKey | UndefinedKey | Has(value: T)

  /** What reading the property gives: `undefined`, or the value. */
  function Read<T>(s: Slot<T>): Option<T>
  {
    if s.Has? then Some(s.value) else None
  }

  /** A setter's new slot: the value, or an explicit `undefined`. */
  function Assign<T>(v: Option<T>): (s: Slot<T>)
    ensures Read(s) == v && s != NoKey
  {
    if v.Some? then Has(v.value) else UndefinedKey
  }

  datatype TemplateFilters = TemplateFilters(
    search: Slot<string>,
    category: Slot<string>,
    tag: Slot<string>,
    visibility: Slot<Visibility>,
    owner: Slot<string>,
    latestOnly: Slot<bool>)

  const NoFilters := TemplateFilters(NoKey, NoKey, NoKey, NoKey, NoKey, NoKey)

  function KeyOf<T>(s: Slot<T>): nat
  {
    if s == NoKey then 0 else 1
  }

  /** `Object.keys(filters).length`. */
  function KeyCount(f: TemplateFilters): (n: nat)
    ensures n <= 6
    ensures n == 0 <==> f == NoFilters
  {
    KeyOf(f.search) + KeyOf(f.category) + KeyOf(f.tag) + KeyOf(f.visibility) + KeyOf(f.owner) + KeyOf(f.latestOnly)
  }

  /** `tags` of the create metadata: a list, or comma-separated text. */
  datatype TagsField = TagArray(list: seq<string>) | TagText(text: string)

  datatype CreateTemplateMetadata = CreateTemplateMetadata(
    templateKey: string,
    name: string,
    description: Option<string>,
    category: Option<string>,
    tags: Option<TagsField>,
    visibility: Option<Visibility>,
    status: Option<string>,
    version: Option<string>,
    isPublished: Option<bool>)

  // ---------------------------------------------------------------------------
  // Comma-separated tags: `text.split(",").map((s) => s.trim()).filter(Boolean)`

  /** Each piece trimmed, and the pieces that trim to `""` dropped, in order. */
  function TrimmedNonEmpty(pieces: seq<string>): (r: seq<string>)
    ensures |r| <= |pieces|
    ensures forall i :: 0 <= i < |r| ==> r[i] != "" && Trim(r[i]) == r[i]
  {
    if |pieces| == 0 then []
    else
      TrimShape(pieces[0]);
      (if Trim(pieces[0]) == "" then [] else [Trim(pieces[0])]) + TrimmedNonEmpty(pieces[1..])
  }

  /** Trimming keeps only characters of the original. */
  lemma TrimIsSlice(s: string)
    ensures forall ch :: ch in Trim(s) ==> ch in s
  {
    TrimSlice(s);
  }

  /** Pieces without a comma give tags without a comma. */
  lemma {:induction false} TrimmedNonEmptyNoComma(pieces: seq<string>)
    requires forall i :: 0 <= i < |pieces| ==> ',' !in pieces[i]
    ensures forall i :: 0 <= i < |TrimmedNonEmpty(pieces)| ==> ',' !in TrimmedNonEmpty(pieces)[i]
  {
    if |pieces| > 0 {
      assert forall i :: 0 <= i < |pieces| - 1 ==> pieces[1..][i] == pieces[i + 1];
      TrimmedNonEmptyNoComma(pieces[1..]);
      TrimIsSlice(pieces[0]);
    }
  }

  function ParseTagText(text: string): seq<string>
  {
    TrimmedNonEmpty(Split(text, ','))
  }

  /** Every parsed tag is non-empty, trimmed and free of commas. */
  lemma ParseTagTextShape(text: string)
    ensures forall i :: 0 <= i < |ParseTagText(text)| ==>
      var t := ParseTagText(text)[i]; t != "" && Trim(t) == t && ',' !in t
  {
    TrimmedNonEmptyNoComma(Split(text, ','));
  }

  /** Clean pieces come back unchanged. */
  lemma {:induction false} TrimmedNonEmptyClean(pieces: seq<string>)
    requires forall i :: 0 <= i < |pieces| ==> pieces[i] != "" && Trim(pieces[i]) == pieces[i]
    ensures TrimmedNonEmpty(pieces) == pieces
  {
    if |pieces| > 0 {
      assert forall i :: 0 <= i < |pieces| - 1 ==> pieces[1..][i] == pieces[i + 1];
      TrimmedNonEmptyClean(pieces[1..]);
    }
  }

  /** Joining clean tags with `,` and parsing the text gives the tags back. */
  lemma ParseJoinedTags(tags: seq<string>)
    requires forall i :: 0 <= i < |tags| ==> tags[i] != "" && Trim(tags[i]) == tags[i] && ',' !in tags[i]
    ensures ParseTagText(Join(tags, ",")) == tags
  {
    if |tags| == 0 {
      assert Split("", ',') == [""];
      TrimEmpty("");
    } else {
      SplitJoin(tags, ',');
      TrimmedNonEmptyClean(tags);
    }
  }
}
