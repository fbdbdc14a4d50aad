/**
 * The custom grouping registry: a list of labelled grouping options, starting
 * with the built-in "Custom Grouping" by process model name. Registering a
 * label that is already present changes nothing; lookups by label return the
 * first option with that label. Without a provider every lookup comes back
 * empty and registering does nothing.
 */
module CustomGroupingContext {
  import opened JsValues
  import opened Text
  import opened TaskGrouping

  /**
   * A grouping handler: the built-in one, or one registered by other code
   * under a name. What a registered handler computes is not part of this
   * model; it is supplied where a handler is applied.
   */
  datatype Handler = ByProcessModelName | Registered(name: string)

  /**
   * An option; `caption` is its `label`. The type demands a handler, but an
   * option built by untyped code can lack one, which `getHandler` and its
   * caller allow for.
   */
  datatype GroupingOption = GroupingOption(caption: string, handler: Option<Handler>, headerText: Option<string>)

  const DefaultLabel: string := "Custom Grouping"
  const DefaultHeaderText: string := "Tasks from process model: "
  const Unknown: string := "Unknown"
  const DefaultOption: GroupingOption := GroupingOption(DefaultLabel, Some(ByProcessModelName), Some(DefaultHeaderText))

  /** The built-in handler's key: the last segment of the identifier, or "Unknown" when it is missing or `""`. */
  function ModelNameKey(t: Task): (key: string)
    ensures key != "" && '/' !in key
    ensures t.processModelIdentifier.None? ==> key == Unknown
    ensures t.processModelIdentifier.Some? ==>
      key == if LastSegment(t.processModelIdentifier.value) != "" then LastSegment(t.processModelIdentifier.value) else Unknown
  {
    assert '/' !in Unknown;
    if t.processModelIdentifier.None? then Unknown
    else
      var last := LastSegment(t.processModelIdentifier.value);
      if last != "" then last else Unknown
  }

  /**
   * The built-in handler: the tasks grouped by process model name, or `None`
   * when a model name is one the accumulator inherits, where the handler throws.
   */
  method GroupByModelName(tasks: seq<Task>) returns (groups: Option<Groups>)
    ensures groups.None? <==> exists i :: 0 <= i < |tasks| && ModelNameKey(tasks[i]) in InheritedNames
    ensures groups.Some? ==> Partitions(groups.value, tasks, ModelNameKey)
  {
    groups := GroupTasks(tasks, ModelNameKey, NeverThrows);
  }

  /** A model named `constructor` makes the built-in handler throw. */
  lemma ConstructorModelThrows(t: Task, group: string)
    requires t.processModelIdentifier == Some(group + "/constructor")
    ensures ModelNameKey(t) in InheritedNames
  {
    assert group + "/constructor" == group + "/" + "constructor";
    ModelNameOfPath(t, group, "constructor");
  }

  /** A task of model `group/name` with a non-empty `name` is filed under `name`. */
  lemma ModelNameOfPath(t: Task, group: string, name: string)
    requires name != "" && '/' !in name
    requires t.processModelIdentifier == Some(group + "/" + name)
    ensures ModelNameKey(t) == name
  {
    IdentifierHalves(group, name);
  }

  // ---------------------------------------------------------------------------
  // The option list

  predicate HasLabel(options: seq<GroupingOption>, caption: string)
  {
    exists i :: 0 <= i < |options| && options[i].caption == caption
  }

  predicate UniqueLabels(options: seq<GroupingOption>)
  {
    forall i, j :: 0 <= i < j < |options| ==> options[i].caption != options[j].caption
  }

  /** `options.find(o => o.label === label)`, as the position of the first option with that label. */
  function Find(options: seq<GroupingOption>, caption: string): (r: Option<nat>)
    ensures r.None? <==> !HasLabel(options, caption)
    ensures r.Some? ==> r.value < |options| && options[r.value].caption == caption
    ensures r.Some? ==> forall j :: 0 <= j < r.value ==> options[j].caption != caption
  {
    if |options| == 0 then None
    else if options[0].caption == caption then Some(0)
    else
      var rest := Find(options[1..], caption);
      assert forall j :: 1 <= j < |options| ==> options[j] == options[1..][j - 1];
      match rest
      case None => None
      case Some(i) => Some(i + 1)
  }

  /** The updater `registerOption` hands to the state setter. */
  function Register(options: seq<GroupingOption>, option: GroupingOption): (r: seq<GroupingOption>)
    ensures HasLabel(options, option.caption) ==> r == options
    ensures !HasLabel(options, option.caption) ==> r == options + [option]
  {
    if Find(options, option.caption).Some? then options else options + [option]
  }

  /** Registering keeps the earlier options, makes the label present, and keeps labels unique. */
  lemma RegisterKeepsUnique(options: seq<GroupingOption>, option: GroupingOption)
    requires UniqueLabels(options)
    ensures var r := Register(options, option);
      && r[..|options|] == options
      && HasLabel(r, option.caption)
      && UniqueLabels(r)
  {
    var r := Register(options, option);
    if !HasLabel(options, option.caption) {
      assert r[|options|] == option;
    }
  }

  /** Registering the same option twice is registering it once. */
  lemma RegisterIdempotent(options: seq<GroupingOption>, option: GroupingOption)
    ensures Register(Register(options, option), option) == Register(options, option)
  {
    var once := Register(options, option);
    if !HasLabel(options, option.caption) {
      assert once[|options|] == option;
    }
  }

  // ---------------------------------------------------------------------------
  // What `useCustomGrouping` offers

  /** The context value: the provider's option list, or nothing when no provider encloses the caller. */
  datatype GroupingContext = WithProvider(customOptions: seq<GroupingOption>) | WithoutProvider

  function CustomOptions(c: GroupingContext): seq<GroupingOption>
  {
    if c.WithProvider? then c.customOptions else []
  }

  /** `isCustomOption`: some option has the label. */
  function IsCustomOption(c: GroupingContext, caption: string): (custom: bool)
    ensures custom <==> HasLabel(CustomOptions(c), caption)
  {
    match c
    case WithProvider(options) => Find(options, caption).Some?
    case WithoutProvider => false
  }

  /** `getHandler`: the handler of the first option with the label, when it has one. */
  function GetHandler(c: GroupingContext, caption: string): (h: Option<Handler>)
    ensures !HasLabel(CustomOptions(c), caption) ==> h.None?
    ensures h.Some? ==> exists i :: 0 <= i < |CustomOptions(c)| && CustomOptions(c)[i].caption == caption && CustomOptions(c)[i].handler == h
  {
    match c
    case WithoutProvider => None
    case WithProvider(options) =>
      match Find(options, caption)
      case None => None
      case Some(i) => options[i].handler
  }

  /** `getHeaderText`: the header text of the first option with the label, when it has one. */
  function GetHeaderText(c: GroupingContext, caption: string): (text: Option<string>)
    ensures !HasLabel(CustomOptions(c), caption) ==> text.None?
    ensures text.Some? ==> exists i :: 0 <= i < |CustomOptions(c)| && CustomOptions(c)[i].caption == caption && CustomOptions(c)[i].headerText == text
  {
    match c
    case WithoutProvider => None
    case WithProvider(options) =>
      match Find(options, caption)
      case None => None
      case Some(i) => options[i].headerText
  }

  /** `registerOption`: the updater applied to the provider's state; a no-op without a provider. */
  function RegisterOption(c: GroupingContext, option: GroupingOption): (next: GroupingContext)
    ensures c.WithoutProvider? ==> next == c
    ensures c.WithProvider? ==> next == WithProvider(Register(c.customOptions, option))
  {
    match c
    case WithoutProvider => c
    case WithProvider(options) => WithProvider(Register(options, option))
  }

  /** With unique labels, the lookups return the fields of the one option with the caption. */
  lemma LookupUnique(options: seq<GroupingOption>, i: nat)
    requires UniqueLabels(options) && i < |options|
    ensures GetHandler(WithProvider(options), options[i].caption) == options[i].handler
    ensures GetHeaderText(WithProvider(options), options[i].caption) == options[i].headerText
  {
    var found := Find(options, options[i].caption);
    assert found.Some? && found.value == i;
  }

  /** Without a provider: no options, no custom caption, no handler or header text, and registering is ignored. */
  lemma NoProviderFallback(caption: string, option: GroupingOption)
    ensures CustomOptions(WithoutProvider) == []
    ensures !IsCustomOption(WithoutProvider, caption)
    ensures GetHandler(WithoutProvider, caption).None? && GetHeaderText(WithoutProvider, caption).None?
    ensures RegisterOption(WithoutProvider, option) == WithoutProvider
  {
  }

  /** The provider's state. */
  class GroupingProvider {
    var customOptions: seq<GroupingOption>

    /** The provider starts with the built-in option alone. */
    constructor ()
      ensures customOptions == [DefaultOption]
    {
      customOptions := [DefaultOption];
    }

    function Context(): GroupingContext
      reads this
    {
      WithProvider(customOptions)
    }

    method Register(option: GroupingOption)
      modifies this
      ensures Context() == RegisterOption(old(Context()), option)
    {
      if Find(customOptions, option.caption).None? {
        customOptions := customOptions + [option];
      }
    }
  }

  /** The initial list has unique labels, and "Custom Grouping" is its one custom caption, with its header text. */
  lemma InitialOptions(caption: string)
    ensures UniqueLabels([DefaultOption])
    ensures IsCustomOption(WithProvider([DefaultOption]), caption) <==> caption == DefaultLabel
    ensures GetHandler(WithProvider([DefaultOption]), DefaultLabel) == Some(ByProcessModelName)
    ensures GetHeaderText(WithProvider([DefaultOption]), DefaultLabel) == Some(DefaultHeaderText)
  {
    assert [DefaultOption][0] == DefaultOption;
  }
}
