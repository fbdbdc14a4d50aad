/**
 * Grouping tasks into a dictionary: `tasks.reduce` with an accumulator object
 * whose entry for a task's key is created when first needed and then has the
 * task pushed onto it. The accumulator is a plain object, so a key naming a
 * property it inherits makes the `push` throw. The order of the dictionary's
 * keys is not modelled.
 */
module TaskGrouping {
  import opened JsValues
  import opened Text

  /** The fields of a task the groupings read. */
  datatype Task = Task(
    id: int,
    processModelIdentifier: Option<string>,
    assignedUserGroupIdentifier: Option<string>)

  /** `Record<string, Task[]>`. */
  type Groups = map<string, seq<Task>>

  /** The tasks whose key is `k`, in input order. */
  function Members(tasks: seq<Task>, keyOf: Task -> string, k: string): (m: seq<Task>)
    ensures |m| <= |tasks|
    ensures forall t :: t in m ==> t in tasks && keyOf(t) == k
    ensures forall i :: 0 <= i < |tasks| && keyOf(tasks[i]) == k ==> tasks[i] in m
    decreases |tasks|
  {
    if |tasks| == 0 then []
    else
      var init := tasks[..|tasks| - 1];
      var last := tasks[|tasks| - 1];
      var m := Members(init, keyOf, k);
      assert forall i :: 0 <= i < |init| ==> init[i] == tasks[i];
      assert forall t :: t in init ==> t in tasks;
      if keyOf(last) == k then m + [last] else m
  }

  /**
   * `groups` is the grouping of `tasks` by `keyOf`: one entry for each key
   * some task has, holding exactly that key's tasks in input order.
   */
  ghost predicate Partitions(groups: Groups, tasks: seq<Task>, keyOf: Task -> string)
  {
    && (forall k :: k in groups <==> exists i :: 0 <= i < |tasks| && keyOf(tasks[i]) == k)
    && (forall k :: k in groups ==> groups[k] == Members(tasks, keyOf, k))
  }

  /**
   * The names an empty object literal inherits from `Object.prototype`. For
   * such a key `acc[key]` is already truthy, so no entry is created, and
   * `acc[key].push(task)` throws a `TypeError`.
   */
  const InheritedNames: set<string> := {
    "constructor", "hasOwnProperty", "isPrototypeOf", "propertyIsEnumerable", "toLocaleString",
    "toString", "valueOf", "__proto__", "__defineGetter__", "__defineSetter__",
    "__lookupGetter__", "__lookupSetter__"
  }

  /** A key computation that never throws. */
  predicate NeverThrows(t: Task)
  {
    false
  }

  /**
   * The `reduce` throws on some task: computing its key throws (`keyThrows`),
   * or the key names an inherited property.
   */
  predicate Throws(tasks: seq<Task>, keyOf: Task -> string, keyThrows: Task -> bool)
  {
    exists i :: 0 <= i < |tasks| && (keyThrows(tasks[i]) || keyOf(tasks[i]) in InheritedNames)
  }

  /**
   * The `reduce`: each task, in order, is pushed onto its key's entry, created
   * empty when missing. `None` when it throws on the way.
   */
  method GroupTasks(tasks: seq<Task>, keyOf: Task -> string, keyThrows: Task -> bool) returns (r: Option<Groups>)
    ensures r.None? <==> Throws(tasks, keyOf, keyThrows)
    ensures r.Some? ==> Partitions(r.value, tasks, keyOf)
  {
    var groups := map[];
    for i := 0 to |tasks|
      invariant Partitions(groups, tasks[..i], keyOf)
      invariant forall j :: 0 <= j < i ==> !keyThrows(tasks[j]) && keyOf(tasks[j]) !in InheritedNames
    {
      ghost var before := groups;
      if keyThrows(tasks[i]) {
        return None;
      }
      var k := keyOf(tasks[i]);
      if k in InheritedNames {
        return None;
      }
      if k !in groups {
        groups := groups[k := []];
      }
      groups := groups[k := groups[k] + [tasks[i]]];
      assert tasks[..i + 1] == tasks[..i] + [tasks[i]];
      PartitionsStep(before, groups, tasks[..i], tasks[i], keyOf);
    }
    assert tasks[..|tasks|] == tasks;
    return Some(groups);
  }

  /** No task has key `k`: its list of members is empty. */
  lemma {:induction false} MembersAbsent(tasks: seq<Task>, keyOf: Task -> string, k: string)
    requires forall i :: 0 <= i < |tasks| ==> keyOf(tasks[i]) != k
    ensures Members(tasks, keyOf, k) == []
    decreases |tasks|
  {
    if |tasks| > 0 {
      var init := tasks[..|tasks| - 1];
      assert forall i :: 0 <= i < |init| ==> init[i] == tasks[i];
      MembersAbsent(init, keyOf, k);
    }
  }

  /** Appending a task adds it to the members of its own key only. */
  lemma MembersSnoc(prefix: seq<Task>, t: Task, keyOf: Task -> string, k: string)
    ensures Members(prefix + [t], keyOf, k) ==
      if keyOf(t) == k then Members(prefix, keyOf, k) + [t] else Members(prefix, keyOf, k)
  {
    assert (prefix + [t])[..|prefix|] == prefix;
  }

  /**
   * Creating the entry of `t`'s key when it is missing and pushing `t` onto it
   * turns the grouping of `prefix` into that of `prefix + [t]`.
   */
  lemma PartitionsStep(before: Groups, after: Groups, prefix: seq<Task>, t: Task, keyOf: Task -> string)
    requires Partitions(before, prefix, keyOf)
    requires var created := if keyOf(t) in before then before else before[keyOf(t) := []];
      after == created[keyOf(t) := created[keyOf(t)] + [t]]
    ensures Partitions(after, prefix + [t], keyOf)
  {
    PartitionsStepValues(before, after, prefix, t, keyOf);
    PartitionsStepKeys(before, after.Keys, prefix, prefix + [t], t, keyOf);
  }

  lemma PartitionsStepValues(before: Groups, after: Groups, prefix: seq<Task>, t: Task, keyOf: Task -> string)
    requires Partitions(before, prefix, keyOf)
    requires var created := if keyOf(t) in before then before else before[keyOf(t) := []];
      after == created[keyOf(t) := created[keyOf(t)] + [t]]
    ensures forall k :: k in after ==> after[k] == Members(prefix + [t], keyOf, k)
  {
    if keyOf(t) !in before {
      MembersAbsent(prefix, keyOf, keyOf(t));
    }
    forall k | k in after
      ensures after[k] == Members(prefix + [t], keyOf, k)
    {
      MembersSnoc(prefix, t, keyOf, k);
    }
  }

  lemma PartitionsStepKeys(before: Groups, keys: set<string>, prefix: seq<Task>, next: seq<Task>, t: Task,
                           keyOf: Task -> string)
    requires Partitions(before, prefix, keyOf)
    requires next == prefix + [t] && keys == before.Keys + {keyOf(t)}
    ensures forall k :: k in keys <==> exists j :: 0 <= j < |next| && keyOf(next[j]) == k
  {
    forall k
      ensures k in keys <==> exists j :: 0 <= j < |next| && keyOf(next[j]) == k
    {
      if k in before {
        var j :| 0 <= j < |prefix| && keyOf(prefix[j]) == k;
        assert next[j] == prefix[j];
      }
      if k == keyOf(t) {
        assert next[|prefix|] == t;
      }
      if exists j :: 0 <= j < |next| && keyOf(next[j]) == k {
        var j :| 0 <= j < |next| && keyOf(next[j]) == k;
        if j < |prefix| {
          assert next[j] == prefix[j];
        }
      }
    }
  }

  /** In a grouping every task sits in the entry of its own key and in no other, and no entry is empty. */
  lemma PartitionsExact(groups: Groups, tasks: seq<Task>, keyOf: Task -> string)
    requires Partitions(groups, tasks, keyOf)
    ensures forall i :: 0 <= i < |tasks| ==> keyOf(tasks[i]) in groups && tasks[i] in groups[keyOf(tasks[i])]
    ensures forall k, t :: k in groups && t in groups[k] ==> t in tasks && keyOf(t) == k
    ensures forall k :: k in groups ==> |groups[k]| > 0
  {
    forall k | k in groups
      ensures |groups[k]| > 0
    {
      var i :| 0 <= i < |tasks| && keyOf(tasks[i]) == k;
      assert tasks[i] in groups[k];
    }
  }

  /** There is only one grouping of a task list by a key. */
  lemma PartitionsUnique(g1: Groups, g2: Groups, tasks: seq<Task>, keyOf: Task -> string)
    requires Partitions(g1, tasks, keyOf) && Partitions(g2, tasks, keyOf)
    ensures g1 == g2
  {
    assert g1.Keys == g2.Keys;
  }

  // ---------------------------------------------------------------------------
  // The two halves of a `/`-separated process model identifier

  /** `id.split('/').pop()`: the text after the last `/`, or all of `id` when it has none. */
  function LastSegment(id: string): (last: string)
    ensures '/' !in last
  {
    var parts := Split(id, '/');
    parts[|parts| - 1]
  }

  /** `id.split('/').slice(0, -1).join('/')`: everything before the last `/`, or `""` when there is none. */
  function ParentPath(id: string): string
  {
    var parts := Split(id, '/');
    Join(parts[..|parts| - 1], "/")
  }

  /** An identifier with a `/` is its parent path, a `/`, and its last segment. */
  lemma ReassembleIdentifier(id: string)
    requires '/' in id
    ensures ParentPath(id) + "/" + LastSegment(id) == id
  {
    var parts := Split(id, '/');
    SplitLength(id, '/');
    CountPresent(id, '/');
    JoinSplit(id, '/');
    JoinLast(parts, "/");
  }

  /** An identifier without a `/` has the empty parent path and is its own last segment. */
  lemma TopLevelIdentifier(id: string)
    requires '/' !in id
    ensures ParentPath(id) == "" && LastSegment(id) == id
  {
    SplitNoSeparator(id, '/');
  }

  /** `group + "/" + name`, with no `/` in `name`, has parent path `group` and last segment `name`. */
  lemma IdentifierHalves(group: string, name: string)
    requires '/' !in name
    ensures ParentPath(group + "/" + name) == group && LastSegment(group + "/" + name) == name
  {
    SplitConcat(group, name, '/');
    SplitNoSeparator(name, '/');
    var parts := Split(group + "/" + name, '/');
    assert parts == Split(group, '/') + [name];
    assert parts[..|parts| - 1] == Split(group, '/');
    JoinSplit(group, '/');
  }
}
