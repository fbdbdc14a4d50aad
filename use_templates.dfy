/**
 * The template-listing hook: the query parameters built from the listing
 * filters, the paths of its three fetches, the message a failed fetch shows,
 * and the loading and error state the fetches keep. `URLSearchParams`'
 * percent-encoding of one name or value is the parameter `escape`; the backend
 * call is the path returned by a fetch's start and the outcome handed to its
 * settlement.
 */
module UseTemplates {
  import opened Text
  import opened JsValues
  import opened TemplateTypes
  import TemplateService

  datatype FilterKey = Search | Category | Tag | VisibilityKey | Owner | LatestOnly

  /** `FILTER_PARAM_KEYS`: the order in which filters become parameters. */
  const FilterParamKeys: seq<FilterKey> := [Search, Category, Tag, VisibilityKey, Owner, LatestOnly]

  /** The parameter name of a filter key. */
  function KeyName(k: FilterKey): string
  {
    match k
    case Search => "search"
    case Category => "category"
    case Tag => "tag"
    case VisibilityKey => "visibility"
    case Owner => "owner"
    case LatestOnly => "latest_only"
  }

  /** The position of a key in `FILTER_PARAM_KEYS`. */
  function Rank(k: FilterKey): (i: nat)
    ensures i < |FilterParamKeys| && FilterParamKeys[i] == k
  {
    match k
    case Search => 0
    case Category => 1
    case Tag => 2
    case VisibilityKey => 3
    case Owner => 4
    case LatestOnly => 5
  }

  /**
   * What `filters[key]` contributes: nothing when it is `undefined`, the
   * string itself otherwise (an empty one included), the wire spelling of a
   * visibility, and `String(value)` of a boolean.
   */
  function ParamValue(f: TemplateFilters, k: FilterKey): (v: Option<string>)
    ensures v.Some? ==> (k == LatestOnly ==> v.value == "true" || v.value == "false")
  {
    match k
    case Search => Read(f.search)
    case Category => Read(f.category)
    case Tag => Read(f.tag)
    case VisibilityKey => if f.visibility.Has? then Some(VisibilityName(f.visibility.value)) else None
    case Owner => Read(f.owner)
    case LatestOnly => if f.latestOnly.Has? then Some(if f.latestOnly.value then "true" else "false") else None
  }

  /** One appended entry of the parameter list: `params.append(key, value)`. */
  datatype Param = Param(key: FilterKey, value: string)

  /** The entries appended while visiting `keys` in order. */
  function ParamsFor(f: TemplateFilters, keys: seq<FilterKey>): seq<Param>
    decreases |keys|
  {
    if |keys| == 0 then []
    else
      var k := keys[|keys| - 1];
      ParamsFor(f, keys[..|keys| - 1]) + (if ParamValue(f, k).Some? then [Param(k, ParamValue(f, k).value)] else [])
  }

  /** The parameter list for the filters: empty without filters. */
  function QueryParams(filters: Option<TemplateFilters>): seq<Param>
  {
    if filters.None? then [] else ParamsFor(filters.value, FilterParamKeys)
  }

  /** `buildTemplateQueryParams`: append each defined filter, in `FILTER_PARAM_KEYS` order. */
  method BuildQueryParams(filters: Option<TemplateFilters>) returns (params: seq<Param>)
    ensures params == QueryParams(filters)
  {
    params := [];
    if filters.None? {
      return;
    }
    var f := filters.value;
    for i := 0 to |FilterParamKeys|
      invariant params == ParamsFor(f, FilterParamKeys[..i])
    {
      var key := FilterParamKeys[i];
      var value := ParamValue(f, key);
      if value.Some? {
        params := params + [Param(key, value.value)];
      }
      assert FilterParamKeys[..i + 1][..i] == FilterParamKeys[..i];
    }
    assert FilterParamKeys[..|FilterParamKeys|] == FilterParamKeys;
  }

  /** An entry is in the list exactly when its key was visited and its filter holds that value. */
  lemma {:induction false} ParamsForMember(f: TemplateFilters, keys: seq<FilterKey>, p: Param)
    ensures p in ParamsFor(f, keys) <==> p.key in keys && ParamValue(f, p.key) == Some(p.value)
    decreases |keys|
  {
    if |keys| > 0 {
      var init := keys[..|keys| - 1];
      ParamsForMember(f, init, p);
      assert keys == init + [keys[|keys| - 1]];
    }
  }

  predicate Increasing(keys: seq<FilterKey>)
  {
    forall i, j :: 0 <= i < j < |keys| ==> Rank(keys[i]) < Rank(keys[j])
  }

  /** The entries' keys come in `FILTER_PARAM_KEYS` order, so no key appears twice. */
  predicate InKeyOrder(params: seq<Param>)
  {
    forall i, j :: 0 <= i < j < |params| ==> Rank(params[i].key) < Rank(params[j].key)
  }

  /** Visiting keys in order gives entries in the same order. */
  lemma {:induction false} ParamsForOrdered(f: TemplateFilters, keys: seq<FilterKey>)
    requires Increasing(keys)
    ensures InKeyOrder(ParamsFor(f, keys))
    decreases |keys|
  {
    if |keys| > 0 {
      var init := keys[..|keys| - 1];
      var k := keys[|keys| - 1];
      assert Increasing(init);
      ParamsForOrdered(f, init);
      forall p | p in ParamsFor(f, init)
        ensures Rank(p.key) < Rank(k)
      {
        ParamsForMember(f, init, p);
        var idx :| 0 <= idx < |init| && init[idx] == p.key;
        assert keys[idx] == p.key;
      }
    }
  }

  /** `(key, value)` is a parameter exactly when there are filters and `filters[key]` is that value. */
  lemma QueryParamsMember(filters: Option<TemplateFilters>, p: Param)
    ensures p in QueryParams(filters) <==> filters.Some? && ParamValue(filters.value, p.key) == Some(p.value)
  {
    if filters.Some? {
      ParamsForMember(filters.value, FilterParamKeys, p);
      assert FilterParamKeys[Rank(p.key)] == p.key;
    }
  }

  /** The parameters follow `FILTER_PARAM_KEYS` order and each key appears at most once. */
  lemma QueryParamsOrdered(filters: Option<TemplateFilters>)
    ensures InKeyOrder(QueryParams(filters))
    ensures |QueryParams(filters)| <= |FilterParamKeys|
  {
    if filters.Some? {
      KeysIncreasing();
      ParamsForOrdered(filters.value, FilterParamKeys);
      RanksBound(QueryParams(filters));
    }
  }

  /** `FILTER_PARAM_KEYS` lists each key at its own rank. */
  lemma KeysIncreasing()
    ensures Increasing(FilterParamKeys)
  {
    forall i | 0 <= i < |FilterParamKeys| ensures Rank(FilterParamKeys[i]) == i {
      assert FilterParamKeys[Rank(FilterParamKeys[i])] == FilterParamKeys[i];
      assert forall j, l :: 0 <= j < l < |FilterParamKeys| ==> FilterParamKeys[j] != FilterParamKeys[l];
    }
  }

  /** Entries in strictly increasing key order number at most the six keys. */
  lemma RanksBound(params: seq<Param>)
    requires InKeyOrder(params)
    ensures |params| <= |FilterParamKeys|
  {
    if |params| > 0 {
      RanksClimb(params, |params| - 1);
    }
  }

  lemma {:induction false} RanksClimb(params: seq<Param>, i: nat)
    requires InKeyOrder(params) && i < |params|
    ensures Rank(params[i].key) >= i
    decreases i
  {
    if i > 0 {
      RanksClimb(params, i - 1);
    }
  }

  /** No parameter at all exactly when there are no filters or none of them is defined. */
  lemma QueryParamsEmpty(filters: Option<TemplateFilters>)
    ensures QueryParams(filters) == [] <==>
      filters.None? || forall k: FilterKey :: ParamValue(filters.value, k).None?
  {
    if filters.Some? && QueryParams(filters) != [] {
      QueryParamsMember(filters, QueryParams(filters)[0]);
    }
    if filters.Some? && QueryParams(filters) == [] {
      forall k: FilterKey
        ensures ParamValue(filters.value, k).None?
      {
        if ParamValue(filters.value, k).Some? {
          QueryParamsMember(filters, Param(k, ParamValue(filters.value, k).value));
        }
      }
    }
  }

  /** Missing filters and `{}` both give an empty parameter list. */
  lemma NoFiltersNoParams()
    ensures QueryParams(None) == [] && QueryParams(Some(NoFilters)) == []
  {
    QueryParamsEmpty(Some(NoFilters));
  }

  /** Only `undefined` is skipped: an empty string is sent as it is, a boolean as `"true"` or `"false"`. */
  lemma QueryParamsKeepValues(f: TemplateFilters)
    ensures f.search == Has("") ==> Param(Search, "") in QueryParams(Some(f))
    ensures f.latestOnly.Has? ==>
      Param(LatestOnly, if f.latestOnly.value then "true" else "false") in QueryParams(Some(f))
    ensures f.search == UndefinedKey ==> forall v :: Param(Search, v) !in QueryParams(Some(f))
  {
    QueryParamsMember(Some(f), Param(Search, ""));
    QueryParamsMember(Some(f), Param(LatestOnly, if f.latestOnly.Has? && f.latestOnly.value then "true" else "false"));
    forall v
      ensures f.search == UndefinedKey ==> Param(Search, v) !in QueryParams(Some(f))
    {
      QueryParamsMember(Some(f), Param(Search, v));
    }
  }

  /** The `(name, value)` pairs of the entries. */
  function Named(params: seq<Param>): (pairs: seq<(string, string)>)
    ensures |pairs| == |params|
    ensures forall i :: 0 <= i < |params| ==> pairs[i] == (KeyName(params[i].key), params[i].value)
  {
    seq(|params|, i requires 0 <= i < |params| => (KeyName(params[i].key), params[i].value))
  }

  /** `params.toString()`: `name=value` pieces joined by `&`, each side passed through `escape`. */
  function Serialize(pairs: seq<(string, string)>, escape: string -> string): (query: string)
    ensures query == "" <==> |pairs| == 0
  {
    var pieces := seq(|pairs|, i requires 0 <= i < |pairs| => escape(pairs[i].0) + "=" + escape(pairs[i].1));
    assert |pieces| > 0 ==> '=' in pieces[0];
    Join(pieces, "&")
  }

  const TemplatesPath: string := "/v1.0/m8flow/templates"

  /** `${base}${query ? `?${query}` : ''}`. */
  function WithQuery(base: string, query: string): string
  {
    if query != "" then base + "?" + query else base
  }

  /** The path `fetchTemplates` requests: a `?` and the query only when some filter is defined. */
  function ListPath(filters: Option<TemplateFilters>, escape: string -> string): (path: string)
    ensures path == TemplatesPath <==> QueryParams(filters) == []
    ensures QueryParams(filters) != [] ==>
      path == TemplatesPath + "?" + Serialize(Named(QueryParams(filters)), escape)
  {
    WithQuery(TemplatesPath, Serialize(Named(QueryParams(filters)), escape))
  }

  /** The single parameter `fetchTemplateByKey` sends: the version when one is given (truthy), else `latest=true`. */
  function ByKeyParams(version: Option<string>): (pairs: seq<(string, string)>)
    ensures |pairs| == 1
    ensures version.Some? && version.value != "" ==> pairs == [("version", version.value)]
    ensures version.None? || version.value == "" ==> pairs == [("latest", "true")]
  {
    if version.Some? && version.value != "" then [("version", version.value)] else [("latest", "true")]
  }

  /** The path `fetchTemplateByKey` requests: it always carries a query. */
  function ByKeyPath(key: string, version: Option<string>, escape: string -> string): (path: string)
    ensures path == TemplatesPath + "/" + key + "?" + Serialize(ByKeyParams(version), escape)
    ensures Serialize(ByKeyParams(version), escape) != ""
  {
    WithQuery(TemplatesPath + "/" + key, Serialize(ByKeyParams(version), escape))
  }

  function ByIdPath(id: int): string
  {
    TemplatesPath + "/" + IntToString(id)
  }

  /**
   * `getErrorMessage`: the `message` of an object whose `message` is a string
   * (an `Error` is one), otherwise the fallback.
   */
  function ErrorMessage(err: JsError, fallback: string): (message: string)
    ensures err.ErrorObject? ==> message == err.errorMessage
    ensures err.PlainObject? && err.prop.StringMessage? ==> message == err.prop.text
    ensures !err.ErrorObject? && !(err.PlainObject? && err.prop.StringMessage?) ==> message == fallback
  {
    match err
    case PlainObject(StringMessage(text)) => text
    case ErrorObject(text) => text
    case _ => fallback
  }

  /**
   * The listing hook and the create call agree on every failure except an
   * object whose `message` is not a string: the create call stringifies it,
   * the hook falls back.
   */
  lemma ErrorMessagesAgree(err: JsError)
    ensures !(err.PlainObject? && err.prop.OtherMessage?) ==>
      ErrorMessage(err, TemplateService.CreateFailed) == TemplateService.FailureMessage(err)
    ensures err.PlainObject? && err.prop.OtherMessage? ==>
      ErrorMessage(err, TemplateService.CreateFailed) == TemplateService.CreateFailed
      && TemplateService.FailureMessage(err) == err.prop.asString
  {
  }

  const FetchTemplatesFailed: string := "Failed to fetch templates"
  const FetchTemplateFailed: string := "Failed to fetch template"

  /** The hook's state: the fetched list, one loading flag per fetch, and the last error. */
  class TemplatesStore {
    var templates: seq<Template>
    var templatesLoading: bool
    var templateByIdLoading: bool
    var templateByKeyLoading: bool
    var error: Option<string>

    constructor ()
      ensures templates == [] && error == None
      ensures !templatesLoading && !templateByIdLoading && !templateByKeyLoading
    {
      templates := [];
      templatesLoading := false;
      templateByIdLoading := false;
      templateByKeyLoading := false;
      error := None;
    }

    /** `fetchTemplates` up to the call: loading on, error cleared, the path built from the filters. */
    method BeginFetchTemplates(filters: Option<TemplateFilters>, escape: string -> string) returns (path: string)
      modifies this
      ensures templatesLoading && error == None
      ensures templates == old(templates)
      ensures templateByIdLoading == old(templateByIdLoading) && templateByKeyLoading == old(templateByKeyLoading)
      ensures path == ListPath(filters, escape)
    {
      templatesLoading := true;
      error := None;
      var params := BuildQueryParams(filters);
      var queryString := Serialize(Named(params), escape);
      path := WithQuery(TemplatesPath, queryString);
    }

    /** The callbacks of `fetchTemplates`: keep the list or record the error; loading ends either way. */
    method SettleFetchTemplates(outcome: Outcome<seq<Template>>)
      modifies this
      ensures !templatesLoading
      ensures outcome.Responded? ==> templates == outcome.value && error == old(error)
      ensures outcome.Failed? ==>
        templates == old(templates) && error == Some(ErrorMessage(outcome.err, FetchTemplatesFailed))
      ensures templateByIdLoading == old(templateByIdLoading) && templateByKeyLoading == old(templateByKeyLoading)
    {
      match outcome
      case Responded(result) =>
        templates := result;
        templatesLoading := false;
      case Failed(err) =>
        error := Some(ErrorMessage(err, FetchTemplatesFailed));
        templatesLoading := false;
    }

    /** `fetchTemplateById` up to the call. */
    method BeginFetchById(id: int) returns (path: string)
      modifies this
      ensures templateByIdLoading && error == None
      ensures templates == old(templates)
      ensures templatesLoading == old(templatesLoading) && templateByKeyLoading == old(templateByKeyLoading)
      ensures path == ByIdPath(id)
    {
      templateByIdLoading := true;
      error := None;
      path := TemplatesPath + "/" + IntToString(id);
    }

    /** The callbacks of `fetchTemplateById`: the promise resolves with the template, or with `null` after recording the error. */
    method SettleFetchById(outcome: Outcome<Template>) returns (resolved: Option<Template>)
      modifies this
      ensures !templateByIdLoading
      ensures resolved == (if outcome.Responded? then Some(outcome.value) else None)
      ensures error == (if outcome.Responded? then old(error) else Some(ErrorMessage(outcome.err, FetchTemplateFailed)))
      ensures templates == old(templates)
      ensures templatesLoading == old(templatesLoading) && templateByKeyLoading == old(templateByKeyLoading)
    {
      match outcome
      case Responded(result) =>
        templateByIdLoading := false;
        resolved := Some(result);
      case Failed(err) =>
        error := Some(ErrorMessage(err, FetchTemplateFailed));
        templateByIdLoading := false;
        resolved := None;
    }

    /** `fetchTemplateByKey` up to the call. */
    method BeginFetchByKey(key: string, version: Option<string>, escape: string -> string) returns (path: string)
      modifies this
      ensures templateByKeyLoading && error == None
      ensures templates == old(templates)
      ensures templatesLoading == old(templatesLoading) && templateByIdLoading == old(templateByIdLoading)
      ensures path == ByKeyPath(key, version, escape)
    {
      templateByKeyLoading := true;
      error := None;
      var params: seq<(string, string)> := [];
      if version.Some? && version.value != "" {
        params := params + [("version", version.value)];
      } else {
        params := params + [("latest", "true")];
      }
      var queryString := Serialize(params, escape);
      path := WithQuery(TemplatesPath + "/" + key, queryString);
    }

    /** The callbacks of `fetchTemplateByKey`. */
    method SettleFetchByKey(outcome: Outcome<Template>) returns (resolved: Option<Template>)
      modifies this
      ensures !templateByKeyLoading
      ensures resolved == (if outcome.Responded? then Some(outcome.value) else None)
      ensures error == (if outcome.Responded? then old(error) else Some(ErrorMessage(outcome.err, FetchTemplateFailed)))
      ensures templates == old(templates)
      ensures templatesLoading == old(templatesLoading) && templateByIdLoading == old(templateByIdLoading)
    {
      match outcome
      case Responded(result) =>
        templateByKeyLoading := false;
        resolved := Some(result);
      case Failed(err) =>
        error := Some(ErrorMessage(err, FetchTemplateFailed));
        templateByKeyLoading := false;
        resolved := None;
    }
  }
}
