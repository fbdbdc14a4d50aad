/**
 * The "Save as Template" dialog: the form state, the checks `handleSubmit`
 * runs before anything is sent, the metadata it builds from the form, and the
 * reset when the dialog closes. The diagram XML the editor hands over and the
 * backend's answer are parameters; what the dialog does towards its parent
 * (closing, the success callback) and towards the backend (the create request)
 * is recorded as a list of effects.
 */
module SaveAsTemplateModal {
  import opened Text
  import opened JsValues
  import opened TemplateTypes
  import TemplateService

  const KeyRequired: string := "Template key is required."
  const NameRequired: string := "Name is required."
  const NoDiagram: string := "Could not get diagram content. Please try again."
  const CreateFallback: string := "Failed to create template. Please try again."

  /** What the dialog has done outside itself, in order. */
  datatype Effect =
    | Requested(request: TemplateService.Request)   // `TemplateService.createTemplate` sent this call
    | Closed                                         // `onClose()`
    | Succeeded(template: Template)                  // `onSuccess(template)`

  /** The text of a trimmed form field, left out when it trims to `""`. */
  function Optional(text: string): (field: Option<string>)
    ensures field.Some? <==> Trim(text) != ""
    ensures field.Some? ==> field.value == Trim(text) && Trim(field.value) == field.value
  {
    TrimShape(text);
    if Trim(text) != "" then Some(Trim(text)) else None
  }

  /**
   * The metadata of a submission: the trimmed key and name and the chosen
   * visibility always; the trimmed description and category when they trim to
   * something; the comma-separated tags, each trimmed and blanks dropped, when
   * the tag text trims to something.
   */
  function FormMetadata(key: string, name: string, visibility: Visibility,
                        description: string, category: string, tags: string): CreateTemplateMetadata
  {
    CreateTemplateMetadata(
      Trim(key), Trim(name), Optional(description), Optional(category),
      if Trim(tags) != "" then Some(TagArray(ParseTagText(tags))) else None,
      Some(visibility), None, None, None)
  }

  /** The message shown when a step of the submission throws: an `Error`'s message, otherwise the fixed fallback. */
  function ThrownMessage(err: JsError): string
  {
    if err.ErrorObject? then err.errorMessage else CreateFallback
  }

  /** The form: the field values, the error shown, and whether a submission is running. */
  class TemplateForm {
    var templateKey: string
    var name: string
    var description: string
    var category: string
    var tags: string
    var visibility: Visibility
    var error: Option<string>
    var loading: bool
    var effects: seq<Effect>

    /** The form as the dialog first shows it. */
    predicate Pristine()
      reads this
    {
      && templateKey == "" && name == "" && description == "" && category == "" && tags == ""
      && visibility == Private && error == None
    }

    constructor ()
      ensures Pristine() && !loading && effects == []
    {
      templateKey := "";
      name := "";
      description := "";
      category := "";
      tags := "";
      visibility := Private;
      error := None;
      loading := false;
      effects := [];
    }

    /** The effect on `open`: closing the dialog clears every field, the visibility and the error. */
    method OpenChanged(open: bool)
      modifies this
      ensures !open ==> Pristine()
      ensures open ==> (templateKey == old(templateKey) && name == old(name) && description == old(description)
        && category == old(category) && tags == old(tags) && visibility == old(visibility) && error == old(error))
      ensures loading == old(loading) && effects == old(effects)
    {
      if !open {
        templateKey := "";
        name := "";
        description := "";
        category := "";
        tags := "";
        visibility := Private;
        error := None;
      }
    }

    /** The metadata object `handleSubmit` fills for the current form. */
    method BuildMetadata(trimmedKey: string, trimmedName: string) returns (metadata: CreateTemplateMetadata)
      requires trimmedKey == Trim(templateKey) && trimmedName == Trim(name)
      ensures metadata == FormMetadata(templateKey, name, visibility, description, category, tags)
    {
      metadata := CreateTemplateMetadata(trimmedKey, trimmedName, None, None, None, Some(visibility), None, None, None);
      if Trim(description) != "" {
        metadata := metadata.(description := Some(Trim(description)));
      }
      if Trim(category) != "" {
        metadata := metadata.(category := Some(Trim(category)));
      }
      if Trim(tags) != "" {
        metadata := metadata.(tags := Some(TagArray(TrimmedNonEmpty(Split(tags, ',')))));
      }
    }

    /** The `try` block past the diagram check: the create call, then closing and reporting when it succeeds. */
    method SendTemplate(trimmedKey: string, trimmedName: string, bpmnXml: string,
                        backend: Outcome<Template>, hasOnSuccess: bool, encode: seq<string> -> string)
      requires trimmedKey == Trim(templateKey) && trimmedName == Trim(name)
      requires trimmedKey != "" && trimmedName != ""
      modifies this
      ensures templateKey == old(templateKey) && name == old(name) && description == old(description)
        && category == old(category) && tags == old(tags) && visibility == old(visibility) && loading == old(loading)
      ensures var sent := TemplateService.Request(TemplateService.BasePath + "/templates", "POST", bpmnXml,
          TemplateService.BuildHeaders(FormMetadata(templateKey, name, visibility, description, category, tags), encode));
        && effects == old(effects) + [Requested(sent)]
             + (if backend.Responded? then [Closed] + (if hasOnSuccess then [Succeeded(backend.value)] else []) else [])
        && error == (if backend.Responded? then old(error) else Some(TemplateService.FailureMessage(backend.err)))
    {
      var metadata := BuildMetadata(trimmedKey, trimmedName);
      TrimShape(templateKey);
      TrimShape(name);
      var request := TemplateService.CreateTemplate(bpmnXml, metadata, encode);
      match request {
        case Failure(_) =>
          // the form's own checks already rejected a blank key or name
          assert false;
        case Success(call) =>
          TemplateService.HeadersForUnique(metadata, encode, call.extraHeaders);
          var added := [Requested(call)];
          match TemplateService.Settle(backend) {
            case Success(template) =>
              added := added + [Closed];
              if hasOnSuccess {
                added := added + [Succeeded(template)];
              }
            case Failure(message) =>
              error := Some(message);
          }
          effects := effects + added;
      }
    }

    /**
     * `handleSubmit`. The key is checked before the name; either failing sets
     * its message and stops. Otherwise loading starts and the error clears; a
     * diagram that cannot be read or is blank stops with a message; a readable
     * one is sent with the form's metadata, and on success the dialog closes
     * and reports the template. Loading ends false on every path past the two
     * checks.
     */
    method Submit(xml: Outcome<string>, backend: Outcome<Template>, hasOnSuccess: bool, encode: seq<string> -> string)
      modifies this
      ensures templateKey == old(templateKey) && name == old(name) && description == old(description)
        && category == old(category) && tags == old(tags) && visibility == old(visibility)
      ensures Trim(templateKey) == "" ==>
        error == Some(KeyRequired) && effects == old(effects) && loading == old(loading)
      ensures Trim(templateKey) != "" && Trim(name) == "" ==>
        error == Some(NameRequired) && effects == old(effects) && loading == old(loading)
      ensures Trim(templateKey) != "" && Trim(name) != "" ==> !loading
      ensures Trim(templateKey) != "" && Trim(name) != "" && xml.Failed? ==>
        error == Some(ThrownMessage(xml.err)) && effects == old(effects)
      ensures Trim(templateKey) != "" && Trim(name) != "" && xml.Responded? && Trim(xml.value) == "" ==>
        error == Some(NoDiagram) && effects == old(effects)
      ensures Trim(templateKey) != "" && Trim(name) != "" && xml.Responded? && Trim(xml.value) != "" ==>
        var sent := TemplateService.Request(TemplateService.BasePath + "/templates", "POST", xml.value,
          TemplateService.BuildHeaders(FormMetadata(templateKey, name, visibility, description, category, tags), encode));
        && effects == old(effects) + [Requested(sent)]
             + (if backend.Responded? then [Closed] + (if hasOnSuccess then [Succeeded(backend.value)] else []) else [])
        && error == (if backend.Responded? then None else Some(TemplateService.FailureMessage(backend.err)))
    {
      var trimmedKey := Trim(templateKey);
      var trimmedName := Trim(name);
      if trimmedKey == "" {
        error := Some(KeyRequired);
        return;
      }
      if trimmedName == "" {
        error := Some(NameRequired);
        return;
      }
      loading := true;
      error := None;
      match xml {
        case Failed(err) =>
          error := Some(ThrownMessage(err));
        case Responded(bpmnXml) =>
          if bpmnXml == "" || Trim(bpmnXml) == "" {
            error := Some(NoDiagram);
            loading := false;
            return;
          }
          SendTemplate(trimmedKey, trimmedName, bpmnXml, backend, hasOnSuccess, encode);
      }
      loading := false;
    }
  }

  /** The form's own checks keep the create call's guard from ever firing. */
  lemma FormPassesServiceGuard(key: string, name: string, visibility: Visibility,
                               description: string, category: string, tags: string)
    requires Trim(key) != "" && Trim(name) != ""
    ensures var m := FormMetadata(key, name, visibility, description, category, tags);
      Trim(m.templateKey) != "" && Trim(m.name) != ""
  {
    TrimShape(key);
    TrimShape(name);
  }

  /**
   * What the backend receives from the form: the trimmed key and name, the
   * visibility, the description and category trimmed when they are not blank,
   * and a tags header exactly when the tag text has a non-blank piece.
   */
  lemma FormHeaders(key: string, name: string, visibility: Visibility,
                    description: string, category: string, tags: string, encode: seq<string> -> string)
    ensures var h := TemplateService.BuildHeaders(FormMetadata(key, name, visibility, description, category, tags), encode);
      && h.templateKey == Trim(key) && h.name == Trim(name)
      && h.visibility == Some(VisibilityName(visibility))
      && (h.description.Some? <==> Trim(description) != "")
      && (h.description.Some? ==> h.description.value == Trim(description))
      && (h.category.Some? <==> Trim(category) != "")
      && (h.category.Some? ==> h.category.value == Trim(category))
      && (h.tags.Some? <==> |ParseTagText(tags)| > 0)
      && (h.tags.Some? ==> h.tags.value == encode(ParseTagText(tags)))
      && h.status.None? && h.version.None? && h.isPublished.None?
  {
    TrimShape(key);
    TrimShape(name);
    var m := FormMetadata(key, name, visibility, description, category, tags);
    if Trim(tags) == "" {
      ParseTagTextBlank(tags);
    }
  }

  /** Text that trims to `""` has no non-blank piece. */
  lemma ParseTagTextBlank(text: string)
    requires Trim(text) == ""
    ensures ParseTagText(text) == []
  {
    TrimEmpty(text);
    BlankPieces(Split(text, ','), text);
  }

  /** Every piece of all-blank text is blank. */
  lemma BlankPieces(pieces: seq<string>, text: string)
    requires pieces == Split(text, ',')
    requires forall i :: 0 <= i < |text| ==> IsJsSpace(text[i])
    ensures TrimmedNonEmpty(pieces) == []
  {
    SplitPiecesFromText(text);
    assert forall ch :: ch in text ==> IsJsSpace(ch) by {
      forall ch | ch in text
        ensures IsJsSpace(ch)
      {
        var i :| 0 <= i < |text| && text[i] == ch;
      }
    }
    BlankTrimmedNonEmpty(pieces);
  }

  /** The characters of every piece of `Split(text, ',')` are characters of `text`. */
  lemma {:induction false} SplitPiecesFromText(text: string)
    ensures forall i, ch :: 0 <= i < |Split(text, ',')| && ch in Split(text, ',')[i] ==> ch in text
    decreases |text|
  {
    if |text| > 0 {
      SplitPiecesFromText(text[1..]);
      var rest := Split(text[1..], ',');
      forall i, ch | 0 <= i < |Split(text, ',')| && ch in Split(text, ',')[i]
        ensures ch in text
      {
        if text[0] == ',' {
          if i > 0 {
            assert Split(text, ',')[i] == rest[i - 1];
            assert ch in text[1..];
          }
        } else if i == 0 {
          assert Split(text, ',')[0] == [text[0]] + rest[0];
          if ch != text[0] {
            assert ch in rest[0];
            assert ch in text[1..];
          }
        } else {
          assert Split(text, ',')[i] == rest[i];
          assert ch in text[1..];
        }
      }
    }
  }

  /** Pieces made only of white space all drop out. */
  lemma {:induction false} BlankTrimmedNonEmpty(pieces: seq<string>)
    requires forall i, ch :: 0 <= i < |pieces| && ch in pieces[i] ==> IsJsSpace(ch)
    ensures TrimmedNonEmpty(pieces) == []
    decreases |pieces|
  {
    if |pieces| > 0 {
      assert forall i, ch :: 0 <= i < |pieces| - 1 && ch in pieces[1..][i] ==> ch in pieces[i + 1];
      BlankTrimmedNonEmpty(pieces[1..]);
      assert forall i :: 0 <= i < |pieces[0]| ==> IsJsSpace(pieces[0][i]) by {
        assert forall i :: 0 <= i < |pieces[0]| ==> pieces[0][i] in pieces[0];
      }
      TrimEmpty(pieces[0]);
    }
  }
}
