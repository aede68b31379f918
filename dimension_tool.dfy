/**
 * The dimension tool: the first click places a dimension preview (snapped
 * to the closest point of an attachable object under the mouse), mouse
 * moves drag its second point, and the second click commits a new
 * dimension and snaps it to the picked object.
 *
 * The kernel's answers the tool awaits are parameters: whether an object
 * can be referred to, the closest point on it, the id of each dimension
 * object built, the undo event id. An await is taken to complete before
 * the next mouse event.
 */
module DimensionTools {
  import opened Base
  import opened UiMath
  import opened ToolCommands

  class DimensionTool {
    var curTemp: Option<Preview>
    var lastAttached: Option<Hovered>
    var offset: real
    var undoEventId: string
    /** The calls this tool has made into the operations layer. */
    var issued: seq<Cmd>

    /** The tool opens at most one undo event and makes every call inside it; its preview is a dimension. */
    ghost predicate Valid()
      reads this
    {
      OneEvent(issued, undoEventId) && (curTemp.Some? ==> curTemp.value.DimensionPreview?)
    }

    /** No preview, nothing attached, no event; offset 5 unless given. */
    constructor (offset: real := 5.0)
      ensures Valid()
      ensures curTemp == None && lastAttached == None && this.offset == offset && undoEventId == "" && issued == []
    {
      curTemp := None;
      lastAttached := None;
      this.offset := offset;
      undoEventId := "";
      issued := [];
    }

    /** One call inside the open event (or naming none). */
    method Issue(c: Cmd)
      requires Valid()
      requires !c.BeginUndoEvent? && (c.UsesEvent() ==> undoEventId != "" && c.event == undoEventId)
      modifies this
      ensures Valid()
      ensures issued == old(issued) + [c]
      ensures curTemp == old(curTemp) && undoEventId == old(undoEventId) && offset == old(offset) && lastAttached == old(lastAttached)
    {
      WithinOne(c, undoEventId);
      KeepOneEvent(issued, undoEventId, [c]);
      issued := issued + [c];
    }

    /** canAttach: the kernel is asked only about a hovered object, and its answer decides. */
    method CanAttach(hovered: Option<Hovered>, answer: bool) returns (r: bool)
      requires Valid()
      modifies this
      ensures Valid()
      ensures r <==> hovered.Some? && answer
      ensures issued == old(issued) + (if hovered.Some? then [CanReferTo(hovered.value.name)] else [])
      ensures curTemp == old(curTemp) && undoEventId == old(undoEventId) && offset == old(offset) && lastAttached == old(lastAttached)
    {
      if hovered.Some? {
        Issue(CanReferTo(hovered.value.name));
        r := answer;
      } else {
        r := false;
      }
    }

    /** The calls a commit makes after the event is open: the preview deleted, the new dimension created, then snapped to the picked object at its first point and at the click. */
    static function CommitCalls(event: string, previewId: string, pt: Triple, picked: Option<Hovered>, dim: Preview, attach: bool): (c: seq<Cmd>)
      requires dim.DimensionPreview?
      ensures |c| == 2 + (if picked.Some? then 1 else 0) + (if picked.Some? && attach then 2 else 0)
      ensures c[..2] == [DeleteTempObject(previewId), CreateObj(event, Some(dim))]
    {
      [DeleteTempObject(previewId), CreateObj(event, Some(dim))]
      + (if picked.Some? then [CanReferTo(picked.value.name)] else [])
      + (if picked.Some? && attach then [SnapToPoint(event, dim.id, picked.value.name, dim.first), SnapToPoint(event, dim.id, picked.value.name, pt)] else [])
    }

    /**
     * createDimension: open the event if none is open; build a new
     * dimension between the preview's points (its id minted by the kernel),
     * delete the preview, create the dimension, and snap it to the picked
     * object when that can be referred to.
     */
    method CreateDimension(pt: Triple, picked: Option<Hovered>, minted: EventId, dimId: string, attachAnswer: bool)
      requires Valid() && curTemp.Some?
      modifies this
      ensures Valid()
      ensures curTemp == old(curTemp) && offset == old(offset) && lastAttached == old(lastAttached)
      ensures undoEventId == LazyEvent(old(undoEventId), minted)
      ensures issued == old(issued) + LazyBegin(old(undoEventId), "Create Dimension", minted)
        + CommitCalls(undoEventId, curTemp.value.id, pt, picked, DimensionPreview(curTemp.value.first, curTemp.value.second, offset, dimId), attachAnswer)
    {
      if undoEventId == "" {
        issued := issued + [BeginUndoEvent("Create Dimension", minted)];
        undoEventId := minted;
      }
      ghost var withBegin := issued;
      assert withBegin == old(issued) + LazyBegin(old(undoEventId), "Create Dimension", minted);
      assert OneEvent(withBegin, undoEventId) by {
        LazyOneEvent(old(issued), old(undoEventId), "Create Dimension", minted, []);
        assert withBegin + [] == withBegin;
      }
      Commit(pt, picked, DimensionPreview(curTemp.value.first, curTemp.value.second, offset, dimId), attachAnswer);
    }

    /** The calls of createDimension once the event is open. */
    method Commit(pt: Triple, picked: Option<Hovered>, dim: Preview, attachAnswer: bool)
      requires Valid() && curTemp.Some? && undoEventId != "" && dim.DimensionPreview?
      modifies this
      ensures Valid()
      ensures curTemp == old(curTemp) && undoEventId == old(undoEventId) && offset == old(offset) && lastAttached == old(lastAttached)
      ensures issued == old(issued) + CommitCalls(undoEventId, curTemp.value.id, pt, picked, dim, attachAnswer)
    {
      Issue(DeleteTempObject(curTemp.value.id));
      Issue(CreateObj(undoEventId, Some(dim)));
      var attach := CanAttach(picked, attachAnswer);
      if attach {
        Issue(SnapToPoint(undoEventId, dim.id, picked.value.name, dim.first));
        Issue(SnapToPoint(undoEventId, dim.id, picked.value.name, pt));
      }
    }

    /**
     * onMouseDown: without a preview, the first point is the closest point
     * of the hovered object when it can be attached to, else (x, y, 0); the
     * second is (x+1, y, 0); the preview is drawn. With one, a dimension is
     * committed at (x, y, 0) and the preview dropped.
     */
    method OnMouseDown(pt: Triple, picked: Option<Hovered>, referAnswer: bool, closest: Triple, newId: string, minted: EventId)
      requires Valid()
      modifies this
      ensures Valid()
      ensures offset == old(offset) && lastAttached == old(lastAttached)
      ensures old(curTemp).None? ==>
        var attach := picked.Some? && referAnswer;
        var first := if attach then closest else Triple(pt.x, pt.y, 0.0);
        && curTemp == Some(DimensionPreview(first, Triple(pt.x + 1.0, pt.y, 0.0), offset, newId))
        && undoEventId == old(undoEventId)
        && issued == old(issued) + (if picked.Some? then [CanReferTo(picked.value.name)] else [])
                                  + (if attach then [GetClosestPoint(picked.value.name, Triple(pt.x, pt.y, 0.0))] else [])
                                  + [RenderTempObject(curTemp.value)]
      ensures old(curTemp).Some? ==>
        && curTemp == None
        && undoEventId == LazyEvent(old(undoEventId), minted)
        && issued == old(issued) + LazyBegin(old(undoEventId), "Create Dimension", minted)
             + old(CommitCalls(LazyEvent(undoEventId, minted), curTemp.value.id, Triple(pt.x, pt.y, 0.0), picked,
                               DimensionPreview(curTemp.value.first, curTemp.value.second, offset, newId), referAnswer))
    {
      if curTemp.None? {
        var first;
        var attach := CanAttach(picked, referAnswer);
        if attach {
          Issue(GetClosestPoint(picked.value.name, Triple(pt.x, pt.y, 0.0)));
          first := closest;
        } else {
          first := Triple(pt.x, pt.y, 0.0);
        }
        var second := Triple(pt.x + 1.0, pt.y, 0.0);
        curTemp := Some(DimensionPreview(first, second, offset, newId));
        Issue(RenderTempObject(curTemp.value));
      } else {
        CreateDimension(Triple(pt.x, pt.y, 0.0), picked, minted, newId, referAnswer);
        curTemp := None;
      }
    }

    /** onMouseMove: joinability is asked first; while previewing, the second point follows the mouse at z 0 and the preview is redrawn. */
    method OnMouseMove(pt: Triple, hovered: Option<Hovered>, referAnswer: bool) returns (joinable: bool)
      requires Valid()
      modifies this
      ensures Valid()
      ensures joinable <==> hovered.Some? && referAnswer
      ensures undoEventId == old(undoEventId) && offset == old(offset) && lastAttached == old(lastAttached)
      ensures old(curTemp).None? ==> curTemp == None && issued == old(issued) + (if hovered.Some? then [CanReferTo(hovered.value.name)] else [])
      ensures old(curTemp).Some? ==>
        var cur := old(curTemp).value;
        && curTemp == Some(DimensionPreview(cur.first, Triple(pt.x, pt.y, 0.0), cur.offset, cur.id))
        && issued == old(issued) + (if hovered.Some? then [CanReferTo(hovered.value.name)] else []) + [RenderTempObject(curTemp.value)]
    {
      joinable := CanAttach(hovered, referAnswer);
      if curTemp.Some? {
        var cur := curTemp.value;
        curTemp := Some(DimensionPreview(cur.first, Triple(pt.x, pt.y, 0.0), cur.offset, cur.id));
        Issue(RenderTempObject(curTemp.value));
      }
    }

    /** cancel: the event is cancelled if one was opened; then the preview is deleted, which throws without one. */
    method Cancel() returns (outcome: Outcome)
      requires Valid()
      modifies this
      ensures Valid()
      ensures outcome == (if curTemp.None? then Thrown else Done)
      ensures issued == old(issued) + (if undoEventId != "" then [CancelEvent(undoEventId)] else [])
                                    + (if curTemp.Some? then [DeleteTempObject(curTemp.value.id)] else [])
      ensures curTemp == old(curTemp) && undoEventId == old(undoEventId) && offset == old(offset) && lastAttached == old(lastAttached)
    {
      if undoEventId != "" {
        Issue(CancelEvent(undoEventId));
      }
      if curTemp.None? {
        outcome := Thrown;
      } else {
        Issue(DeleteTempObject(curTemp.value.id));
        outcome := Done;
      }
    }

    /**
     * finish: commit only when there is a preview, at the given point (a
     * missing point throws before anything is called), then end the event
     * if one is open.
     */
    method Finish(pt: Option<Triple>, picked: Option<Hovered>, referAnswer: bool, newId: string, minted: EventId) returns (outcome: Outcome)
      requires Valid()
      modifies this
      ensures Valid()
      ensures outcome == (if curTemp.Some? && pt.None? then Thrown else Done)
      ensures curTemp.None? ==> issued == old(issued) + (if undoEventId != "" then [EndUndoEvent(undoEventId)] else []) && undoEventId == old(undoEventId)
      ensures curTemp.Some? && pt.None? ==> issued == old(issued) && undoEventId == old(undoEventId)
      ensures curTemp.Some? && pt.Some? ==>
        && undoEventId == LazyEvent(old(undoEventId), minted)
        && issued == old(issued) + LazyBegin(old(undoEventId), "Create Dimension", minted)
             + CommitCalls(undoEventId, curTemp.value.id, Triple(pt.value.x, pt.value.y, 0.0), picked,
                           DimensionPreview(curTemp.value.first, curTemp.value.second, offset, newId), referAnswer)
             + [EndUndoEvent(undoEventId)]
      ensures curTemp == old(curTemp) && offset == old(offset) && lastAttached == old(lastAttached)
    {
      if curTemp.Some? {
        if pt.None? {
          return Thrown;
        }
        CreateDimension(Triple(pt.value.x, pt.value.y, 0.0), picked, minted, newId, referAnswer);
      }
      if undoEventId != "" {
        Issue(EndUndoEvent(undoEventId));
      }
      outcome := Done;
    }
  }
}
