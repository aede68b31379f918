/**
 * The UI controller: it holds the active tool and the selection, forwards
 * mouse events to the active tool, and cancels or finishes a tool when it
 * is replaced or completed. Tools are referred to by a handle; the calls
 * forwarded to them are recorded in order, and what a tool does with them
 * is the business of the tool modules.
 */
module Controller {
  import opened Base
  import opened UiMath

  /** A handle on a tool object. */
  type ToolRef = nat

  /** A call the controller makes on a tool. */
  datatype ToolCall =
    | MouseDown(tool: ToolRef, pt: Triple, mesh: Option<string>)
    | MouseMove(tool: ToolRef, pt: Triple)
    | Cancel(tool: ToolRef)
    | Finish(tool: ToolRef)
  {
    /** The call ends the tool's work. */
    predicate Closes() {
      Cancel? || Finish?
    }
  }

  /** The last call made on tool t, if any. */
  function LastCall(calls: seq<ToolCall>, t: ToolRef): (r: Option<ToolCall>)
    ensures r.Some? ==> r.value in calls && r.value.tool == t
    decreases |calls|
  {
    if calls == [] then None
    else if calls[|calls| - 1].tool == t then Some(calls[|calls| - 1])
    else LastCall(calls[..|calls| - 1], t)
  }

  /** Appending a call changes only the last call of the tool it is made on. */
  lemma LastCallAppend(calls: seq<ToolCall>, c: ToolCall, t: ToolRef)
    ensures LastCall(calls + [c], t) == if c.tool == t then Some(c) else LastCall(calls, t)
  {
    assert (calls + [c])[..|calls + [c]| - 1] == calls;
  }

  /** There is no last call on t exactly when no call was made on t. */
  lemma {:induction false} LastCallNone(calls: seq<ToolCall>, t: ToolRef)
    ensures LastCall(calls, t).None? <==> forall i | 0 <= i < |calls| :: calls[i].tool != t
    decreases |calls|
  {
    if calls != [] {
      var init := calls[..|calls| - 1];
      LastCallNone(init, t);
      assert forall i | 0 <= i < |init| :: init[i] == calls[i];
    }
  }

  /** Tool t is at rest: never called, or its last call cancelled or finished it. */
  ghost predicate Closed(calls: seq<ToolCall>, t: ToolRef) {
    LastCall(calls, t).None? || LastCall(calls, t).value.Closes()
  }

  class UIController {
    var activeTool: Option<ToolRef>
    var selectedObjs: seq<string>
    /** The calls made on tools, in order. */
    var calls: seq<ToolCall>

    /** Every tool other than the active one is at rest. */
    ghost predicate Valid()
      reads this
    {
      forall t: ToolRef | Some(t) != activeTool :: Closed(calls, t)
    }

    /** No active tool, nothing selected. */
    constructor ()
      ensures Valid()
      ensures activeTool == None && selectedObjs == [] && calls == []
    {
      activeTool := None;
      selectedObjs := [];
      calls := [];
    }

    /** getSelectedObjs: the selection, in the order the objects were clicked. */
    method GetSelectedObjs() returns (r: seq<string>)
      ensures r == selectedObjs
    {
      r := selectedObjs;
    }

    /** setActiveTool: the tool being replaced, if any, is cancelled once; then the new one is active. */
    method SetActiveTool(tool: ToolRef)
      requires Valid()
      modifies this
      ensures Valid()
      ensures activeTool == Some(tool) && selectedObjs == old(selectedObjs)
      ensures calls == old(calls) + (if old(activeTool).Some? then [Cancel(old(activeTool).value)] else [])
    {
      if activeTool.Some? {
        var c := Cancel(activeTool.value);
        forall t: ToolRef
          ensures LastCall(calls + [c], t) == if c.tool == t then Some(c) else LastCall(calls, t)
        {
          LastCallAppend(calls, c, t);
        }
        calls := calls + [c];
      }
      activeTool := Some(tool);
    }

    /** leftClick: forwarded to the active tool; without one, a clicked object is added to the selection and a click on nothing does nothing. */
    method LeftClick(pt: Triple, mesh: Option<string>)
      requires Valid()
      modifies this
      ensures Valid()
      ensures activeTool == old(activeTool)
      ensures activeTool.Some? ==> calls == old(calls) + [MouseDown(activeTool.value, pt, mesh)] && selectedObjs == old(selectedObjs)
      ensures activeTool.None? ==> calls == old(calls) && selectedObjs == old(selectedObjs) + (if mesh.Some? then [mesh.value] else [])
    {
      if activeTool.Some? {
        var c := MouseDown(activeTool.value, pt, mesh);
        forall t: ToolRef
          ensures LastCall(calls + [c], t) == if c.tool == t then Some(c) else LastCall(calls, t)
        {
          LastCallAppend(calls, c, t);
        }
        calls := calls + [c];
      } else if mesh.Some? {
        selectedObjs := selectedObjs + [mesh.value];
      }
    }

    /** mouseMove: forwarded to the active tool, without the hovered object. */
    method MouseMove(pt: Triple)
      requires Valid()
      modifies this
      ensures Valid()
      ensures activeTool == old(activeTool) && selectedObjs == old(selectedObjs)
      ensures calls == old(calls) + (if activeTool.Some? then [ToolCall.MouseMove(activeTool.value, pt)] else [])
    {
      if activeTool.Some? {
        var c := ToolCall.MouseMove(activeTool.value, pt);
        forall t: ToolRef
          ensures LastCall(calls + [c], t) == if c.tool == t then Some(c) else LastCall(calls, t)
        {
          LastCallAppend(calls, c, t);
        }
        calls := calls + [c];
      }
    }

    /** activeToolComplete: the active tool, if any, is finished and no tool is active afterwards. */
    method ActiveToolComplete()
      requires Valid()
      modifies this
      ensures Valid()
      ensures activeTool == None && selectedObjs == old(selectedObjs)
      ensures calls == old(calls) + (if old(activeTool).Some? then [Finish(old(activeTool).value)] else [])
    {
      if activeTool.Some? {
        var c := Finish(activeTool.value);
        forall t: ToolRef
          ensures LastCall(calls + [c], t) == if c.tool == t then Some(c) else LastCall(calls, t)
        {
          LastCallAppend(calls, c, t);
        }
        calls := calls + [c];
        activeTool := None;
      }
    }

    /** rightClick: completes the active tool. */
    method RightClick(pt: Triple)
      requires Valid()
      modifies this
      ensures Valid()
      ensures activeTool == None && selectedObjs == old(selectedObjs)
      ensures calls == old(calls) + (if old(activeTool).Some? then [Finish(old(activeTool).value)] else [])
    {
      ActiveToolComplete();
    }
  }

  /**
   * The process-wide holder of the one controller: constructing the
   * singleton creates the controller only the first time.
   */
  class ControllerRegistry {
    var instance: UIController?

    constructor ()
      ensures instance == null
    {
      instance := null;
    }

    /** The singleton's constructor: a fresh controller only when none exists yet. */
    method NewSingleton()
      modifies this
      ensures old(instance) != null ==> instance == old(instance)
      ensures old(instance) == null ==> instance != null && fresh(instance)
      ensures old(instance) == null ==> instance.Valid() && instance.activeTool == None && instance.selectedObjs == [] && instance.calls == []
    {
      if instance == null {
        instance := new UIController();
      }
    }

    /** getInstance: the controller the first construction created. */
    function GetInstance(): (c: UIController?)
      reads this
      ensures c == instance
    {
      instance
    }
  }
}
