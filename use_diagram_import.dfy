/**
 * The diagram import hook: once a modeler exists and no XML update is under
 * way, it listens for the end of an import and loads the diagram from the
 * first source given. When an import of a non-DMN diagram ends, it zooms to
 * fit and walks the tasks: each one in a highlighted state gets a marker,
 * and each eligible call activity gets a drill-down overlay, when its process
 * is part of the diagram. The canvas and overlay services are modelled by the
 * calls made to them, in order; the diagram's process ids are a parameter.
 */
module UseDiagramImport {
  import opened JsValues
  import opened Text

  /** The fields of a task the hook reads; `runtimeInfo` holds the own keys of `runtime_info`. */
  datatype BasicTask = BasicTask(
    bpmnIdentifier: string,
    bpmnProcessDefinitionIdentifier: string,
    state: string,
    typename: string,
    runtimeInfo: Option<set<string>>)

  /** `taskIsMultiInstanceChild`: `runtime_info` has an own `iteration` key. */
  predicate IsMultiInstanceChild(t: BasicTask)
  {
    t.runtimeInfo.Some? && "iteration" in t.runtimeInfo.value
  }

  /** `taskSpecsThatCannotBeHighlighted`. */
  const NeverHighlighted: seq<string> := ["Root", "Start", "End"]

  /** The id fragments the highlight check searches for, anywhere in the id. */
  const ExcludedFragments: seq<string> := ["EndJoin", "BoundaryEventParent", "BoundaryEventJoin", "BoundaryEventSplit"]

  /** `checkTaskCanBeHighlighted`. */
  predicate CanBeHighlighted(t: BasicTask)
  {
    var id := t.bpmnIdentifier;
    !IsMultiInstanceChild(t) && id !in NeverHighlighted
      && !Contains(id, "EndJoin") && !Contains(id, "BoundaryEventParent")
      && !Contains(id, "BoundaryEventJoin") && !Contains(id, "BoundaryEventSplit")
  }

  /** A task can be highlighted exactly when it is no multi-instance child, has none of the three names and none of the fragments. */
  lemma HighlightRule(t: BasicTask)
    ensures CanBeHighlighted(t) <==>
      && !IsMultiInstanceChild(t)
      && t.bpmnIdentifier !in NeverHighlighted
      && forall f :: f in ExcludedFragments ==> !Contains(t.bpmnIdentifier, f)
  {
    if CanBeHighlighted(t) {
      forall f | f in ExcludedFragments
        ensures !Contains(t.bpmnIdentifier, f)
      {
        assert f == "EndJoin" || f == "BoundaryEventParent" || f == "BoundaryEventJoin" || f == "BoundaryEventSplit";
      }
    }
    assert "EndJoin" in ExcludedFragments && "BoundaryEventParent" in ExcludedFragments;
    assert "BoundaryEventJoin" in ExcludedFragments && "BoundaryEventSplit" in ExcludedFragments;
  }

  /** The fragments are searched for, not compared: one anywhere in the id rules the task out. */
  lemma FragmentAnywhereBlocks(t: BasicTask, f: string, prefix: string, suffix: string)
    requires f in ExcludedFragments
    requires t.bpmnIdentifier == prefix + f + suffix
    ensures !CanBeHighlighted(t)
  {
    assert t.bpmnIdentifier[|prefix|..|prefix| + |f|] == f;
    ContainsAt(t.bpmnIdentifier, f, |prefix|);
    HighlightRule(t);
  }

  /** The highlight classes. */
  datatype Highlight = Completed | Active | Cancelled | Errored

  function ClassName(h: Highlight): string
  {
    match h
    case Completed => "completed-task-highlight"
    case Active => "active-task-highlight"
    case Cancelled => "cancelled-task-highlight"
    case Errored => "errored-task-highlight"
  }

  lemma ClassNamesDistinct(a: Highlight, b: Highlight)
    ensures ClassName(a) != ""
    ensures ClassName(a) == ClassName(b) <==> a == b
  {
    if a != b {
      assert ClassName(a)[1] != ClassName(b)[1];
    }
  }

  /** The class chosen for a task state; any other state leaves `className` empty and gets no marker. */
  function HighlightOf(state: string): Option<Highlight>
  {
    if state == "COMPLETED" then Some(Completed)
    else if state in ["READY", "WAITING", "STARTED"] then Some(Active)
    else if state == "CANCELLED" then Some(Cancelled)
    else if state == "ERROR" then Some(Errored)
    else None
  }

  /** Which states are highlighted, and how. */
  lemma StateClasses(state: string)
    ensures HighlightOf(state) == Some(Completed) <==> state == "COMPLETED"
    ensures HighlightOf(state) == Some(Active) <==> state == "READY" || state == "WAITING" || state == "STARTED"
    ensures HighlightOf(state) == Some(Cancelled) <==> state == "CANCELLED"
    ensures HighlightOf(state) == Some(Errored) <==> state == "ERROR"
    ensures HighlightOf(state) == None <==>
      state !in ["COMPLETED", "READY", "WAITING", "STARTED", "CANCELLED", "ERROR"]
  {
  }

  /** The states in which a call activity gets no overlay. */
  const NotYetRun: seq<string> := ["FUTURE", "LIKELY", "MAYBE"]

  /** The test around `addOverlayOnCallActivity` together with its own early return. */
  predicate OverlayEligible(t: BasicTask, diagramType: string, hasClickHandler: bool)
  {
    && t.typename == "CallActivity"
    && t.state !in NotYetRun
    && !IsMultiInstanceChild(t)
    && hasClickHandler
    && diagramType == "readonly"
  }

  /** What the hook asks of bpmn-js. */
  datatype CanvasCall = Zoom | AddMarker(element: string, className: string) | AddOverlay(element: string)

  /** A task's marker: highlightable, with a class, and of a process in the diagram. */
  function MarkerCalls(t: BasicTask, processIds: seq<string>): (calls: seq<CanvasCall>)
    ensures |calls| <= 1
    ensures calls != [] <==>
      HighlightOf(t.state).Some? && CanBeHighlighted(t) && t.bpmnProcessDefinitionIdentifier in processIds
    ensures calls != [] ==> calls == [AddMarker(t.bpmnIdentifier, ClassName(HighlightOf(t.state).value))]
  {
    var h := HighlightOf(t.state);
    if h.Some? && CanBeHighlighted(t) && t.bpmnProcessDefinitionIdentifier in processIds then
      [AddMarker(t.bpmnIdentifier, ClassName(h.value))]
    else []
  }

  /** A task's overlay: an eligible call activity of a process in the diagram. */
  function OverlayCalls(t: BasicTask, processIds: seq<string>, diagramType: string, hasClickHandler: bool)
    : (calls: seq<CanvasCall>)
    ensures |calls| <= 1
    ensures calls != [] <==> OverlayEligible(t, diagramType, hasClickHandler) && t.bpmnProcessDefinitionIdentifier in processIds
    ensures calls != [] ==> calls == [AddOverlay(t.bpmnIdentifier)]
  {
    if OverlayEligible(t, diagramType, hasClickHandler) && t.bpmnProcessDefinitionIdentifier in processIds then
      [AddOverlay(t.bpmnIdentifier)]
    else []
  }

  /** The calls the `tasks.forEach` makes, task by task in order. */
  function TaskCalls(tasks: seq<BasicTask>, processIds: seq<string>, diagramType: string, hasClickHandler: bool)
    : seq<CanvasCall>
    decreases |tasks|
  {
    if |tasks| == 0 then []
    else
      var t := tasks[|tasks| - 1];
      TaskCalls(tasks[..|tasks| - 1], processIds, diagramType, hasClickHandler)
        + CallsFor(t, processIds, diagramType, hasClickHandler)
  }

  /** The calls for one task: its marker, then its overlay. */
  function CallsFor(t: BasicTask, processIds: seq<string>, diagramType: string, hasClickHandler: bool)
    : seq<CanvasCall>
  {
    MarkerCalls(t, processIds) + OverlayCalls(t, processIds, diagramType, hasClickHandler)
  }

  /** How an import ended, as far as the listener reads it. */
  datatype ImportEvent = ImportFailed(error: string) | Imported

  /**
   * `onImportDone`. A failed import is reported and nothing else happens; a
   * DMN diagram gets nothing; otherwise the canvas zooms to fit and, when
   * there are tasks, each one is visited in order.
   */
  method OnImportDone(event: ImportEvent, diagramType: string, tasks: Option<seq<BasicTask>>,
                      processIds: seq<string>, hasClickHandler: bool)
    returns (calls: seq<CanvasCall>, reported: Option<string>)
    ensures event.ImportFailed? ==> calls == [] && reported == Some(event.error)
    ensures event.Imported? ==> reported == None
    ensures event.Imported? && diagramType == "dmn" ==> calls == []
    ensures event.Imported? && diagramType != "dmn" ==>
      calls == [Zoom] + (if tasks.Some? then TaskCalls(tasks.value, processIds, diagramType, hasClickHandler) else [])
  {
    calls := [];
    reported := None;
    if event.ImportFailed? {
      reported := Some(event.error);
      return;
    }
    if diagramType == "dmn" {
      return;
    }
    calls := [Zoom];
    if tasks.Some? {
      var list := tasks.value;
      var visited: seq<CanvasCall> := [];
      for i := 0 to |list|
        invariant visited == TaskCalls(list[..i], processIds, diagramType, hasClickHandler)
      {
        var added := VisitTask(list[i], processIds, diagramType, hasClickHandler);
        visited := visited + added;
        assert list[..i + 1] == list[..i] + [list[i]];
        TaskCallsSnoc(list[..i], list[i], processIds, diagramType, hasClickHandler);
      }
      assert list[..|list|] == list;
      calls := calls + visited;
    }
  }

  lemma TaskCallsSnoc(prefix: seq<BasicTask>, t: BasicTask, processIds: seq<string>, diagramType: string,
                      hasClickHandler: bool)
    ensures TaskCalls(prefix + [t], processIds, diagramType, hasClickHandler) ==
      TaskCalls(prefix, processIds, diagramType, hasClickHandler) + CallsFor(t, processIds, diagramType, hasClickHandler)
  {
    assert (prefix + [t])[..|prefix|] == prefix;
  }

  /** One pass of the `forEach` callback: the marker when there is a class, then the overlay test. */
  method VisitTask(t: BasicTask, processIds: seq<string>, diagramType: string, hasClickHandler: bool)
    returns (added: seq<CanvasCall>)
    ensures added == CallsFor(t, processIds, diagramType, hasClickHandler)
  {
    added := [];
    var h := HighlightOf(t.state);
    if h.Some? {
      if CanBeHighlighted(t) && t.bpmnProcessDefinitionIdentifier in processIds {
        added := added + [AddMarker(t.bpmnIdentifier, ClassName(h.value))];
      }
    }
    if t.typename == "CallActivity" && t.state !in NotYetRun {
      if !IsMultiInstanceChild(t) && hasClickHandler && diagramType == "readonly" {
        if t.bpmnProcessDefinitionIdentifier in processIds {
          added := added + [AddOverlay(t.bpmnIdentifier)];
        }
      }
    }
  }

  /** `t` is a task that may be highlighted, of a process in the diagram, whose state has class `className`, on `element`. */
  predicate MarkerFits(t: BasicTask, processIds: seq<string>, element: string, className: string)
  {
    && t.bpmnIdentifier == element && CanBeHighlighted(t) && t.bpmnProcessDefinitionIdentifier in processIds
    && HighlightOf(t.state).Some? && ClassName(HighlightOf(t.state).value) == className
  }

  /** `t` is an eligible call activity of a process in the diagram, on `element`. */
  predicate OverlayFits(t: BasicTask, processIds: seq<string>, diagramType: string, hasClickHandler: bool, element: string)
  {
    t.bpmnIdentifier == element && OverlayEligible(t, diagramType, hasClickHandler)
      && t.bpmnProcessDefinitionIdentifier in processIds
  }

  /** The walk makes each task's calls. */
  lemma {:induction false} TaskCallsInclude(tasks: seq<BasicTask>, processIds: seq<string>, diagramType: string,
                                            hasClickHandler: bool, i: nat, call: CanvasCall)
    requires i < |tasks| && call in CallsFor(tasks[i], processIds, diagramType, hasClickHandler)
    ensures call in TaskCalls(tasks, processIds, diagramType, hasClickHandler)
    decreases |tasks|
  {
    var init := tasks[..|tasks| - 1];
    var last := CallsFor(tasks[|tasks| - 1], processIds, diagramType, hasClickHandler);
    assert TaskCalls(tasks, processIds, diagramType, hasClickHandler)
      == TaskCalls(init, processIds, diagramType, hasClickHandler) + last;
    if i < |init| {
      assert init[i] == tasks[i];
      TaskCallsInclude(init, processIds, diagramType, hasClickHandler, i, call);
    } else {
      assert i == |tasks| - 1;
    }
  }

  /** The walk makes no call that is not some task's. */
  lemma {:induction false} TaskCallsFrom(tasks: seq<BasicTask>, processIds: seq<string>, diagramType: string,
                                         hasClickHandler: bool, call: CanvasCall) returns (i: nat)
    requires call in TaskCalls(tasks, processIds, diagramType, hasClickHandler)
    ensures i < |tasks| && call in CallsFor(tasks[i], processIds, diagramType, hasClickHandler)
    decreases |tasks|
  {
    var init := tasks[..|tasks| - 1];
    if call in TaskCalls(init, processIds, diagramType, hasClickHandler) {
      i := TaskCallsFrom(init, processIds, diagramType, hasClickHandler, call);
      assert init[i] == tasks[i];
    } else {
      i := |tasks| - 1;
    }
  }

  /** Every marker is of a task that may be highlighted, in the class of its state, of a process in the diagram. */
  lemma MarkersJustified(tasks: seq<BasicTask>, processIds: seq<string>, diagramType: string,
                         hasClickHandler: bool, element: string, className: string)
    requires AddMarker(element, className) in TaskCalls(tasks, processIds, diagramType, hasClickHandler)
    ensures exists i :: 0 <= i < |tasks| && MarkerFits(tasks[i], processIds, element, className)
  {
    var i := TaskCallsFrom(tasks, processIds, diagramType, hasClickHandler, AddMarker(element, className));
    assert AddMarker(element, className) in MarkerCalls(tasks[i], processIds);
    assert MarkerFits(tasks[i], processIds, element, className);
  }

  /** Every task that may be highlighted, has a class and belongs to the diagram gets its marker. */
  lemma MarkersComplete(tasks: seq<BasicTask>, processIds: seq<string>, diagramType: string,
                        hasClickHandler: bool, i: nat)
    requires i < |tasks|
    requires HighlightOf(tasks[i].state).Some? && CanBeHighlighted(tasks[i])
    requires tasks[i].bpmnProcessDefinitionIdentifier in processIds
    ensures AddMarker(tasks[i].bpmnIdentifier, ClassName(HighlightOf(tasks[i].state).value))
      in TaskCalls(tasks, processIds, diagramType, hasClickHandler)
  {
    var call := AddMarker(tasks[i].bpmnIdentifier, ClassName(HighlightOf(tasks[i].state).value));
    assert MarkerCalls(tasks[i], processIds) == [call];
    TaskCallsInclude(tasks, processIds, diagramType, hasClickHandler, i, call);
  }

  /** Every overlay is on an eligible call activity of a process in the diagram. */
  lemma OverlaysJustified(tasks: seq<BasicTask>, processIds: seq<string>, diagramType: string,
                          hasClickHandler: bool, element: string)
    requires AddOverlay(element) in TaskCalls(tasks, processIds, diagramType, hasClickHandler)
    ensures exists i :: 0 <= i < |tasks| && OverlayFits(tasks[i], processIds, diagramType, hasClickHandler, element)
  {
    var i := TaskCallsFrom(tasks, processIds, diagramType, hasClickHandler, AddOverlay(element));
    assert AddOverlay(element) in OverlayCalls(tasks[i], processIds, diagramType, hasClickHandler);
    assert OverlayFits(tasks[i], processIds, diagramType, hasClickHandler, element);
  }

  /** Every eligible call activity of a process in the diagram gets its overlay. */
  lemma OverlaysComplete(tasks: seq<BasicTask>, processIds: seq<string>, diagramType: string,
                         hasClickHandler: bool, i: nat)
    requires i < |tasks|
    requires OverlayEligible(tasks[i], diagramType, hasClickHandler)
    requires tasks[i].bpmnProcessDefinitionIdentifier in processIds
    ensures AddOverlay(tasks[i].bpmnIdentifier) in TaskCalls(tasks, processIds, diagramType, hasClickHandler)
  {
    assert OverlayCalls(tasks[i], processIds, diagramType, hasClickHandler) == [AddOverlay(tasks[i].bpmnIdentifier)];
    TaskCallsInclude(tasks, processIds, diagramType, hasClickHandler, i, AddOverlay(tasks[i].bpmnIdentifier));
  }

  /** A multi-instance child is neither highlighted nor given an overlay, and the walk never zooms. */
  lemma MultiInstanceChildUntouched(t: BasicTask, processIds: seq<string>, diagramType: string, hasClickHandler: bool)
    requires IsMultiInstanceChild(t)
    ensures MarkerCalls(t, processIds) == [] && OverlayCalls(t, processIds, diagramType, hasClickHandler) == []
  {
  }

  /** Each task adds at most a marker and an overlay. */
  lemma {:induction false} TaskCallsBound(tasks: seq<BasicTask>, processIds: seq<string>, diagramType: string,
                                          hasClickHandler: bool)
    ensures |TaskCalls(tasks, processIds, diagramType, hasClickHandler)| <= 2 * |tasks|
    ensures Zoom !in TaskCalls(tasks, processIds, diagramType, hasClickHandler)
    decreases |tasks|
  {
    if |tasks| > 0 {
      TaskCallsBound(tasks[..|tasks| - 1], processIds, diagramType, hasClickHandler);
    }
  }

  // ---------------------------------------------------------------------------
  // Where the diagram comes from

  /** The blank diagram fetched when no source is given, and the placeholder its text handler fills in. */
  datatype Blank = BlankBpmn | BlankDmn

  function BlankPath(b: Blank): string
  {
    match b
    case BlankBpmn => "/new_bpmn_diagram.bpmn"
    case BlankDmn => "/new_dmn_diagram.dmn"
  }

  /** The placeholder replaced by a fresh random id, and the prefix of that id. */
  function Placeholder(b: Blank): (string, string)
  {
    match b
    case BlankBpmn => ("{{PROCESS_ID}}", "Process_")
    case BlankDmn => ("{{DECISION_ID}}", "decision_")
  }

  /**
   * How the diagram is loaded: the given XML is used as it is; a URL is
   * fetched with no text handler, so its text is not used; a file is read
   * through the JSON API; a blank diagram is fetched and its placeholder
   * filled in.
   */
  datatype Load = UseXml(xml: string) | FetchUrl(url: string) | FetchFile(path: string) | FetchBlank(blank: Blank)

  /** What one run of the effect does. */
  datatype EffectRun = Skipped | ListenAndLoad(load: Load)

  /** The effect: skipped without a modeler or during XML updates, else the first truthy source wins. */
  function RunEffect(hasModeler: bool, performingXmlUpdates: bool, diagramXML: Option<string>, url: Option<string>,
                     fileName: Option<string>, processModelId: string, diagramType: string): (run: EffectRun)
    ensures run == Skipped <==> !hasModeler || performingXmlUpdates
    ensures run.ListenAndLoad? && diagramXML.Some? && diagramXML.value != "" ==> run.load == UseXml(diagramXML.value)
    ensures run.ListenAndLoad? && run.load.FetchUrl? ==>
      (diagramXML.None? || diagramXML.value == "") && url == Some(run.load.url) && run.load.url != ""
    ensures run.ListenAndLoad? && run.load.FetchFile? ==>
      && (diagramXML.None? || diagramXML.value == "") && (url.None? || url.value == "")
      && fileName.Some? && fileName.value != ""
      && run.load.path == "/process-models/" + processModelId + "/files/" + fileName.value
    ensures run.ListenAndLoad? && run.load.FetchBlank? <==>
      run.ListenAndLoad? && (diagramXML.None? || diagramXML.value == "") && (url.None? || url.value == "")
        && (fileName.None? || fileName.value == "")
    ensures run.ListenAndLoad? && run.load.FetchBlank? ==> (run.load.blank == BlankDmn <==> diagramType == "dmn")
  {
    if !hasModeler || performingXmlUpdates then Skipped
    else if diagramXML.Some? && diagramXML.value != "" then ListenAndLoad(UseXml(diagramXML.value))
    else if url.Some? && url.value != "" then ListenAndLoad(FetchUrl(url.value))
    else if fileName.Some? && fileName.value != "" then
      ListenAndLoad(FetchFile("/process-models/" + processModelId + "/files/" + fileName.value))
    else ListenAndLoad(FetchBlank(if diagramType == "dmn" then BlankDmn else BlankBpmn))
  }

  /** The sources are tried in order: XML, then URL, then file name; later ones are ignored once one is truthy. */
  lemma SourcePrecedence(diagramXML: Option<string>, url: Option<string>, url2: Option<string>,
                         fileName: Option<string>, fileName2: Option<string>, processModelId: string, diagramType: string)
    ensures diagramXML.Some? && diagramXML.value != "" ==>
      RunEffect(true, false, diagramXML, url, fileName, processModelId, diagramType) ==
      RunEffect(true, false, diagramXML, url2, fileName2, processModelId, diagramType)
    ensures url.Some? && url.value != "" ==>
      RunEffect(true, false, None, url, fileName, processModelId, diagramType) ==
      RunEffect(true, false, Some(""), url, fileName2, processModelId, diagramType)
  {
  }

  /** The blank diagram depends on the diagram type alone: DMN for `dmn`, BPMN for every other type. */
  lemma BlankFallback(processModelId: string, diagramType: string)
    ensures RunEffect(true, false, None, None, None, processModelId, diagramType) ==
      ListenAndLoad(FetchBlank(if diagramType == "dmn" then BlankDmn else BlankBpmn))
    ensures BlankPath(BlankDmn) != BlankPath(BlankBpmn)
  {
  }
}
