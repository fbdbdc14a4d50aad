/**
 * The extended task grouping hook: the group-by choices offered (the two
 * built-in groupings, then the registered custom ones) and what selecting one
 * does to the grouped tasks and the selected group-by. The two built-in labels
 * are translations and come in as parameters.
 */
module UseExtendedGrouping {
  import opened JsValues
  import opened TaskGrouping
  import opened CustomGroupingContext

  const MeKey: string := "spiff_synthetic_key_indicating_assigned_to_me"

  /** `t('responsible_party')` and `t('process_group')`. */
  datatype BuiltInLabels = BuiltInLabels(responsibleParty: string, processGroup: string)

  function Captions(options: seq<GroupingOption>): (captions: seq<string>)
    ensures |captions| == |options|
    ensures forall i :: 0 <= i < |options| ==> captions[i] == options[i].caption
  {
    seq(|options|, i requires 0 <= i < |options| => options[i].caption)
  }

  /** `groupByOptions`: responsible party, process group, then every custom label in registry order. */
  function GroupByOptions(labels: BuiltInLabels, c: GroupingContext): (options: seq<string>)
    ensures |options| == 2 + |CustomOptions(c)|
    ensures options[0] == labels.responsibleParty && options[1] == labels.processGroup
    ensures forall i :: 0 <= i < |CustomOptions(c)| ==> options[i + 2] == CustomOptions(c)[i].caption
  {
    [labels.responsibleParty, labels.processGroup] + Captions(CustomOptions(c))
  }

  /** The responsible-party key: the assigned group when it is truthy, otherwise the synthetic "me" key. */
  function ResponsiblePartyKey(t: Task): (key: string)
    ensures key != ""
    ensures t.assignedUserGroupIdentifier.Some? && t.assignedUserGroupIdentifier.value != "" ==>
      key == t.assignedUserGroupIdentifier.value
    ensures t.assignedUserGroupIdentifier.None? || t.assignedUserGroupIdentifier.value == "" ==> key == MeKey
  {
    match t.assignedUserGroupIdentifier
    case Some(group) => if group != "" then group else MeKey
    case None => MeKey
  }

  /**
   * The process-group key: the identifier without its last segment. On a task
   * without an identifier `split` throws (`NoIdentifier`); it is given `""` here.
   */
  function ProcessGroupKey(t: Task): string
  {
    if t.processModelIdentifier.Some? then ParentPath(t.processModelIdentifier.value) else ""
  }

  /** The model `group/name` falls in process group `group`, and its model name is `name`. */
  /** Computing the process-group key throws: the task has no identifier. */
  predicate NoIdentifier(t: Task)
  {
    t.processModelIdentifier.None?
  }

  lemma GroupAndModelName(t: Task, group: string, name: string)
    requires name != "" && '/' !in name
    requires t.processModelIdentifier == Some(group + "/" + name)
    ensures ProcessGroupKey(t) == group && ModelNameKey(t) == name
  {
    IdentifierHalves(group, name);
  }

  /** The two keys of an identifier with a `/` put it back together. */
  lemma KeysReassemble(t: Task)
    requires t.processModelIdentifier.Some? && '/' in t.processModelIdentifier.value
    requires LastSegment(t.processModelIdentifier.value) != ""
    ensures ProcessGroupKey(t) + "/" + ModelNameKey(t) == t.processModelIdentifier.value
  {
    ReassembleIdentifier(t.processModelIdentifier.value);
  }

  /** Which branch of `onGroupBySelect` a selection takes, in the order they are tried. */
  datatype Branch = ProcessGroupBranch | ClearBranch | CustomBranch | ResponsiblePartyBranch | NoBranch

  function BranchOf(groupBy: string, labels: BuiltInLabels, c: GroupingContext): (b: Branch)
    ensures b == ProcessGroupBranch <==> groupBy == labels.processGroup
    ensures b == ClearBranch <==> groupBy != labels.processGroup && groupBy == ""
    ensures b == CustomBranch <==> groupBy != labels.processGroup && groupBy != "" && IsCustomOption(c, groupBy)
    ensures b == ResponsiblePartyBranch <==>
      groupBy != labels.processGroup && groupBy != "" && !IsCustomOption(c, groupBy) && groupBy == labels.responsibleParty
  {
    if groupBy == labels.processGroup then ProcessGroupBranch
    else if groupBy == "" then ClearBranch
    else if IsCustomOption(c, groupBy) then CustomBranch
    else if groupBy == labels.responsibleParty then ResponsiblePartyBranch
    else NoBranch
  }

  /** A custom option that shares the responsible-party label wins over the built-in grouping. */
  lemma CustomShadowsResponsibleParty(labels: BuiltInLabels, c: GroupingContext)
    requires labels.responsibleParty != labels.processGroup && labels.responsibleParty != ""
    requires HasLabel(CustomOptions(c), labels.responsibleParty)
    ensures BranchOf(labels.responsibleParty, labels, c) == CustomBranch
  {
  }

  /**
   * What the handler computes: the built-in one groups by model name, and
   * throws (`None`) on an inherited model name; a registered one gives
   * `registered(name, tasks)`.
   */
  ghost predicate Produces(h: Handler, tasks: seq<Task>, registered: (string, seq<Task>) -> Groups,
                           groups: Option<Groups>)
  {
    match h
    case ByProcessModelName =>
      && (groups.None? <==> Throws(tasks, ModelNameKey, NeverThrows))
      && (groups.Some? ==> Partitions(groups.value, tasks, ModelNameKey))
    case Registered(name) => groups == Some(registered(name, tasks))
  }

  method ApplyHandler(h: Handler, tasks: seq<Task>, registered: (string, seq<Task>) -> Groups)
    returns (groups: Option<Groups>)
    ensures Produces(h, tasks, registered, groups)
  {
    match h
    case ByProcessModelName =>
      groups := GroupByModelName(tasks);
    case Registered(name) =>
      groups := Some(registered(name, tasks));
  }

  /** The state the hook's caller keeps. */
  class GroupingState {
    var groupedTasks: Option<Groups>
    var selectedGroupBy: Option<string>

    constructor ()
      ensures groupedTasks == None && selectedGroupBy == None
    {
      groupedTasks := None;
      selectedGroupBy := None;
    }

    /**
     * `onGroupBySelect`. Without tasks nothing changes. Otherwise the selection
     * is recorded and the first matching branch runs: the process-group
     * grouping, clearing for `""`, the custom handler when the option has
     * one, or the responsible-party grouping; any other label leaves the
     * grouped tasks as they were. `threw` says the grouping threw: the
     * selection set before it stays, and the grouped tasks are not replaced.
     */
    method OnGroupBySelect(tasks: Option<seq<Task>>, groupBy: string, labels: BuiltInLabels, c: GroupingContext,
                           registered: (string, seq<Task>) -> Groups)
      returns (threw: bool)
      modifies this
      ensures tasks.None? ==> !threw && groupedTasks == old(groupedTasks) && selectedGroupBy == old(selectedGroupBy)
      ensures tasks.Some? ==> match BranchOf(groupBy, labels, c)
        case ProcessGroupBranch =>
          && selectedGroupBy == Some(groupBy)
          && (threw <==> Throws(tasks.value, ProcessGroupKey, NoIdentifier))
          && (threw ==> groupedTasks == old(groupedTasks))
          && (!threw ==> groupedTasks.Some? && Partitions(groupedTasks.value, tasks.value, ProcessGroupKey))
        case ClearBranch =>
          !threw && selectedGroupBy == None && groupedTasks == None
        case CustomBranch =>
          && selectedGroupBy == Some(groupBy)
          && (GetHandler(c, groupBy).None? ==> !threw && groupedTasks == old(groupedTasks))
          && (GetHandler(c, groupBy).Some? && threw ==>
                groupedTasks == old(groupedTasks) && Produces(GetHandler(c, groupBy).value, tasks.value, registered, None))
          && (GetHandler(c, groupBy).Some? && !threw ==>
                groupedTasks.Some? && Produces(GetHandler(c, groupBy).value, tasks.value, registered, groupedTasks))
        case ResponsiblePartyBranch =>
          && selectedGroupBy == Some(groupBy)
          && (threw <==> Throws(tasks.value, ResponsiblePartyKey, NeverThrows))
          && (threw ==> groupedTasks == old(groupedTasks))
          && (!threw ==> groupedTasks.Some? && Partitions(groupedTasks.value, tasks.value, ResponsiblePartyKey))
        case NoBranch =>
          !threw && selectedGroupBy == Some(groupBy) && groupedTasks == old(groupedTasks)
    {
      threw := false;
      if tasks.None? {
        return;
      }
      var list := tasks.value;
      selectedGroupBy := Some(groupBy);
      if groupBy == labels.processGroup {
        var grouped := GroupTasks(list, ProcessGroupKey, NoIdentifier);
        threw := grouped.None?;
        if !threw {
          groupedTasks := grouped;
        }
      } else if groupBy == "" {
        groupedTasks := None;
        selectedGroupBy := None;
      } else if IsCustomOption(c, groupBy) {
        var handler := GetHandler(c, groupBy);
        if handler.Some? {
          var grouped := ApplyHandler(handler.value, list, registered);
          threw := grouped.None?;
          if !threw {
            groupedTasks := grouped;
          }
        }
      } else if groupBy == labels.responsibleParty {
        var grouped := GroupTasks(list, ResponsiblePartyKey, NeverThrows);
        threw := grouped.None?;
        if !threw {
          groupedTasks := grouped;
        }
      }
    }
  }
}
