/**
 * The "Import Process Model" dialog: the two validators (a GitHub URL and a
 * marketplace model alias), the validity shown while the user types, the tab
 * switch, and the guards of the import. The backend call is recorded as an
 * effect; its success and failure callbacks are methods of their own, called
 * with what the backend answered.
 */
module ProcessModelImportDialog {
  import opened Text
  import opened JsValues

  datatype ImportType = GitHub | Marketplace

  const GitHubPrefix: string := "https://github.com/"
  const GroupRequired: string := "Process group ID is required for import."
  const MissingModelId: string := "Import failed: The server response did not contain a valid process model ID."
  const ImportFailed: string := "Import failed"

  /**
   * `validateGithubUrl`: the URL starts with the GitHub prefix, splits on `/`
   * into at least seven parts — it holds at least six slashes — and contains
   * `/tree/` or `/blob/`.
   */
  function ValidateGithubUrl(url: string): (valid: bool)
    ensures valid <==>
      && StartsWith(url, GitHubPrefix)
      && Count(url, '/') >= 6
      && (Contains(url, "/tree/") || Contains(url, "/blob/"))
  {
    SplitLength(url, '/');
    if url == "" || !StartsWith(url, GitHubPrefix) then false
    else if |Split(url, '/')| < 7 then false
    else Contains(url, "/tree/") || Contains(url, "/blob/")
  }

  /** A character of the class `[a-zA-Z0-9_-]`. */
  predicate AliasChar(ch: char)
  {
    ('a' <= ch <= 'z') || ('A' <= ch <= 'Z') || ('0' <= ch <= '9') || ch == '_' || ch == '-'
  }

  /** `[a-zA-Z0-9_-]*$` matched from the start of `s`, one character at a time. */
  function AliasRest(s: string): (matched: bool)
    ensures matched <==> forall i :: 0 <= i < |s| ==> AliasChar(s[i])
  {
    if |s| == 0 then true
    else if !AliasChar(s[0]) then false
    else
      var rest := AliasRest(s[1..]);
      assert forall i :: 1 <= i < |s| ==> s[i] == s[1..][i - 1];
      rest
  }

  /** `validateModelAlias`, the pattern `^[a-zA-Z0-9_-]+$`: one class character, then any number more. */
  function ValidateModelAlias(alias: string): (valid: bool)
    ensures valid <==> |alias| > 0 && forall i :: 0 <= i < |alias| ==> AliasChar(alias[i])
  {
    if |alias| == 0 then false
    else
      var rest := AliasRest(alias[1..]);
      assert forall i :: 1 <= i < |alias| ==> alias[i] == alias[1..][i - 1];
      AliasChar(alias[0]) && rest
  }

  /** `validateInput`: the validator of the current tab. */
  function ValidateInput(importType: ImportType, value: string): bool
  {
    match importType
    case GitHub => ValidateGithubUrl(value)
    case Marketplace => ValidateModelAlias(value)
  }

  /**
   * The validity `handleSourceChange` records: unknown (`null`) for input
   * shorter than three characters, otherwise the current tab's verdict.
   */
  function SourceValidity(importType: ImportType, value: string): (validity: Option<bool>)
    ensures validity.None? <==> |value| < 3
    ensures validity.Some? ==> validity.value == ValidateInput(importType, value)
  {
    if value == "" || |value| < 3 then None else Some(ValidateInput(importType, value))
  }

  /** What `process_model.id` a success response carries, when it is truthy. */
  datatype ImportResponse =
    | NoResult                          // the result is falsy
    | NoProcessModel                    // no `process_model`
    | ProcessModel(id: Option<string>)  // `process_model.id`, possibly missing

  /** The id `successCallback` accepts: present and not `""`. */
  function AcceptedId(response: ImportResponse): (id: Option<string>)
    ensures id.Some? <==> response.ProcessModel? && response.id.Some? && response.id.value != ""
    ensures id.Some? ==> id.value == response.id.value
  {
    match response
    case ProcessModel(Some(modelId)) => if modelId != "" then Some(modelId) else None
    case _ => None
  }

  /**
   * `error?.message || "Import failed"`: the message when the value held in
   * `message` is truthy, otherwise the fallback. A non-string message is
   * shown as its `String(...)` text.
   */
  function FailureText(err: JsError): (message: string)
    ensures !(err.PlainObject? && err.prop.OtherMessage?) ==> message != ""
    ensures err.ErrorObject? && err.errorMessage != "" ==> message == err.errorMessage
    ensures err.PlainObject? && err.prop.StringMessage? && err.prop.text != "" ==> message == err.prop.text
    ensures err.PlainObject? && err.prop.OtherMessage? ==>
      message == if err.prop.truthy then err.prop.asString else ImportFailed
    ensures err.Nullish? || err.Primitive? || err == PlainObject(NoMessage) ==> message == ImportFailed
  {
    match err
    case ErrorObject(text) => if text != "" then text else ImportFailed
    case PlainObject(StringMessage(text)) => if text != "" then text else ImportFailed
    case PlainObject(OtherMessage(text, truthy)) => if truthy then text else ImportFailed
    case _ => ImportFailed
  }

  /** `{message: 0}` is an object whose message is falsy: the fallback shows, not "0". */
  lemma FalsyMessageFallsBack()
    ensures FailureText(PlainObject(OtherMessage("0", false))) == ImportFailed
    ensures FailureText(PlainObject(OtherMessage("7", true))) == "7"
  {
  }

  /** What the dialog has done outside itself, in order. */
  datatype Effect =
    | Posted(path: string, repositoryUrl: string)  // the POST to the import endpoint
    | ImportSucceeded(processModelId: string)      // `onImportSuccess(id)`
    | Closed                                        // `onClose()`

  /** The dialog's state. */
  class ImportDialog {
    var importSource: string
    var isValid: Option<bool>
    var isImporting: bool
    var errorMessage: Option<string>
    var importType: ImportType
    var effects: seq<Effect>

    constructor ()
      ensures importSource == "" && isValid == None && !isImporting && errorMessage == None
      ensures importType == GitHub && effects == []
    {
      importSource := "";
      isValid := None;
      isImporting := false;
      errorMessage := None;
      importType := GitHub;
      effects := [];
    }

    /** `handleSourceChange`: the new text, and its validity on the current tab. */
    method SourceChange(value: string)
      modifies this
      ensures importSource == value && isValid == SourceValidity(importType, value)
      ensures importType == old(importType) && isImporting == old(isImporting)
      ensures errorMessage == old(errorMessage) && effects == old(effects)
    {
      importSource := value;
      if value == "" || |value| < 3 {
        isValid := None;
      } else {
        isValid := Some(ValidateInput(importType, value));
      }
    }

    /** `handleTabChange`: the new tab, an empty source and unknown validity. */
    method TabChange(newType: ImportType)
      modifies this
      ensures importType == newType && importSource == "" && isValid == None
      ensures isImporting == old(isImporting) && errorMessage == old(errorMessage) && effects == old(effects)
    {
      importType := newType;
      importSource := "";
      isValid := None;
    }

    /**
     * `handleImport`. Nothing happens unless the source is known to be valid;
     * a blank group id sets its message and sends nothing; otherwise the error
     * clears and the import is posted. The backend call does not wait, so the
     * `finally` clears `isImporting` at once.
     */
    method Import(processGroupId: string)
      modifies this
      ensures importSource == old(importSource) && isValid == old(isValid) && importType == old(importType)
      ensures isValid != Some(true) ==>
        errorMessage == old(errorMessage) && isImporting == old(isImporting) && effects == old(effects)
      ensures isValid == Some(true) && Trim(processGroupId) == "" ==>
        errorMessage == Some(GroupRequired) && isImporting == old(isImporting) && effects == old(effects)
      ensures isValid == Some(true) && Trim(processGroupId) != "" ==>
        && errorMessage == None && !isImporting
        && effects == old(effects) + [Posted("/process-model-import/" + processGroupId, importSource)]
    {
      if isValid != Some(true) {
        return;
      }
      if processGroupId == "" || Trim(processGroupId) == "" {
        errorMessage := Some(GroupRequired);
        return;
      }
      isImporting := true;
      errorMessage := None;
      effects := effects + [Posted("/process-model-import/" + processGroupId, importSource)];
      isImporting := false;
    }

    /** `successCallback`: a truthy model id is reported and the dialog closes; otherwise an error shows. */
    method Succeeded(response: ImportResponse)
      modifies this
      ensures importSource == old(importSource) && isValid == old(isValid) && importType == old(importType)
      ensures isImporting == old(isImporting)
      ensures AcceptedId(response).Some? ==>
        && effects == old(effects) + [ImportSucceeded(AcceptedId(response).value), Closed]
        && errorMessage == old(errorMessage)
      ensures AcceptedId(response).None? ==>
        errorMessage == Some(MissingModelId) && effects == old(effects)
    {
      match response {
        case ProcessModel(Some(modelId)) =>
          if modelId != "" {
            effects := effects + [ImportSucceeded(modelId), Closed];
            return;
          }
        case _ =>
      }
      errorMessage := Some(MissingModelId);
    }

    /** `failureCallback`: the error's message, or the fallback. */
    method Failed(err: JsError)
      modifies this
      ensures errorMessage == Some(FailureText(err))
      ensures importSource == old(importSource) && isValid == old(isValid) && importType == old(importType)
      ensures isImporting == old(isImporting) && effects == old(effects)
    {
      errorMessage := Some(FailureText(err));
    }
  }

  // ---------------------------------------------------------------------------
  // Properties of the validators

  /** The prefix `https://github.com/` holds three slashes. */
  lemma PrefixSlashes()
    ensures Count(GitHubPrefix, '/') == 3
  {
    var a, b := "https:", "github.com";
    assert GitHubPrefix == a + "/" + "/" + b + "/";
    CountAbsent(a, '/');
    CountAbsent(b, '/');
    CountAppend(a, "/", '/');
    CountAppend(a + "/", "/", '/');
    CountAppend(a + "/" + "/", b, '/');
    CountAppend(a + "/" + "/" + b, "/", '/');
  }

  /** Every URL of the form `owner/repo/tree/branch…` or `owner/repo/blob/branch…` under the prefix is accepted, whatever follows. */
  lemma DocumentedUrlAccepted(owner: string, repo: string, marker: string, branch: string, rest: string)
    requires marker == "/tree/" || marker == "/blob/"
    ensures ValidateGithubUrl(GitHubPrefix + owner + "/" + repo + marker + branch + rest)
  {
    var head := GitHubPrefix + owner + "/" + repo;
    RepositoryHead(owner, repo);
    assert GitHubPrefix + owner + "/" + repo + marker + branch + rest == head + marker + (branch + rest);
    MarkedUrlAccepted(head, marker, branch + rest);
  }

  /** `https://github.com/owner/repo` starts with the prefix and holds four slashes. */
  lemma RepositoryHead(owner: string, repo: string)
    ensures StartsWith(GitHubPrefix + owner + "/" + repo, GitHubPrefix)
    ensures Count(GitHubPrefix + owner + "/" + repo, '/') >= 4
  {
    var front := GitHubPrefix + owner;
    assert (front + "/" + repo)[..|GitHubPrefix|] == GitHubPrefix;
    CountAppend(GitHubPrefix, owner, '/');
    PrefixSlashes();
    CountAppend(front, "/", '/');
    CountAppend(front + "/", repo, '/');
  }

  /** A head under the prefix with four slashes, then `/tree/` or `/blob/`, then anything, is accepted. */
  lemma MarkedUrlAccepted(head: string, marker: string, tail: string)
    requires StartsWith(head, GitHubPrefix) && Count(head, '/') >= 4
    requires marker == "/tree/" || marker == "/blob/"
    ensures ValidateGithubUrl(head + marker + tail)
  {
    var url := head + marker + tail;
    assert url[..|GitHubPrefix|] == head[..|GitHubPrefix|];
    assert url[|head|..|head| + |marker|] == marker;
    ContainsAt(url, marker, |head|);
    CountAppend(head, marker, '/');
    CountAppend(head + marker, tail, '/');
    MarkerSlashes(marker);
  }

  /** Each marker holds two slashes. */
  lemma MarkerSlashes(marker: string)
    requires marker == "/tree/" || marker == "/blob/"
    ensures Count(marker, '/') == 2
  {
    CountAppend([marker[0]], marker[1..], '/');
    assert marker == [marker[0]] + marker[1..];
    assert marker[1..] == marker[1..5] + [marker[5]];
    CountAppend(marker[1..5], [marker[5]], '/');
    CountAbsent(marker[1..5], '/');
  }

  /** An accepted URL has at least three slashes after the prefix: owner, repository and the tree or blob part. */
  lemma AcceptedUrlHasPath(url: string)
    requires ValidateGithubUrl(url)
    ensures Count(url[|GitHubPrefix|..], '/') >= 3
  {
    assert url == GitHubPrefix + url[|GitHubPrefix|..];
    CountAppend(GitHubPrefix, url[|GitHubPrefix|..], '/');
    PrefixSlashes();
  }

  /** Plain `http`, or a host other than github.com, is refused whatever the rest of the URL. */
  lemma OtherHostRefused(rest: string)
    ensures !ValidateGithubUrl("http://github.com/" + rest)
    ensures !ValidateGithubUrl("https://gitlab.com/" + rest)
  {
    assert ("http://github.com/" + rest)[4] == ':';
    assert ("https://gitlab.com/" + rest)[11] == 'l';
  }

  /** An alias is accepted exactly when `.` `/` and spaces are absent and it is not empty: a path is never an alias. */
  lemma AliasRefusesPaths(alias: string)
    requires '/' in alias || ' ' in alias || '.' in alias
    ensures !ValidateModelAlias(alias)
  {
    var i :| 0 <= i < |alias| && alias[i] in "/ .";
    assert !AliasChar(alias[i]);
  }

  /** A source the GitHub tab accepts is never short, so the length rule never hides a valid URL. */
  lemma GitHubValidityKnown(value: string)
    requires ValidateGithubUrl(value)
    ensures SourceValidity(GitHub, value) == Some(true)
  {
    assert |value| >= |GitHubPrefix|;
  }

  /** On the marketplace tab an alias of one or two characters is valid, yet its validity stays unknown. */
  lemma ShortAliasStaysUnknown(alias: string)
    requires 1 <= |alias| < 3 && forall i :: 0 <= i < |alias| ==> AliasChar(alias[i])
    ensures ValidateModelAlias(alias) && SourceValidity(Marketplace, alias) == None
  {
  }
}
