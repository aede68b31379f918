/**
 * The door tool: the first click places a door preview, mouse moves turn
 * it toward the mouse, and the second click commits it.
 */
module DoorTools {
  import opened Base
  import opened UiMath
  import opened ToolCommands

  class DoorTool {
    var curTemp: Option<Preview>
    var width: real
    var height: real
    var length: real
    var undoEventId: string
    /** The calls this tool has made into the operations layer. */
    var issued: seq<Cmd>

    /** The tool opens at most one undo event and makes every call inside it; its preview is a door. */
    ghost predicate Valid()
      reads this
    {
      OneEvent(issued, undoEventId) && (curTemp.Some? ==> curTemp.value.DoorPreview?)
    }

    /** No preview and no event; width 1, height 4 and length 2 unless given. */
    constructor (width: real := 1.0, height: real := 4.0, length: real := 2.0)
      ensures Valid()
      ensures curTemp == None && this.width == width && this.height == height && this.length == length
      ensures undoEventId == "" && issued == []
    {
      curTemp := None;
      this.width := width;
      this.height := height;
      this.length := length;
      undoEventId := "";
      issued := [];
    }

    /** Doors go into walls: any hovered wall will do. */
    function CanJoinToWall(hovered: Option<Hovered>): (r: bool)
      ensures r <==> hovered.Some? && hovered.value.typeName == "Wall"
    {
      match hovered
      case None => false
      case Some(h) => h.typeName == "Wall"
    }

    /** One call inside the open event (or naming none). */
    method Issue(c: Cmd)
      requires Valid()
      requires !c.BeginUndoEvent? && (c.UsesEvent() ==> undoEventId != "" && c.event == undoEventId)
      modifies this
      ensures Valid()
      ensures issued == old(issued) + [c]
      ensures curTemp == old(curTemp) && undoEventId == old(undoEventId)
      ensures width == old(width) && height == old(height) && length == old(length)
    {
      WithinOne(c, undoEventId);
      KeepOneEvent(issued, undoEventId, [c]);
      issued := issued + [c];
    }

    /**
     * createDoor: open the event if none is open, then commit the preview.
     * Committing a null preview throws inside createObj.
     */
    method CreateDoor(picked: Option<Hovered>, minted: EventId) returns (outcome: Outcome)
      requires Valid()
      modifies this
      ensures Valid()
      ensures undoEventId == LazyEvent(old(undoEventId), minted)
      ensures issued == old(issued) + LazyBegin(old(undoEventId), "Create Door", minted) + [CreateObj(undoEventId, curTemp)]
      ensures outcome == (if curTemp.None? then Thrown else Done)
      ensures curTemp == old(curTemp) && width == old(width) && height == old(height) && length == old(length)
    {
      if undoEventId == "" {
        issued := issued + [BeginUndoEvent("Create Door", minted)];
        undoEventId := minted;
      }
      assert issued == old(issued) + LazyBegin(old(undoEventId), "Create Door", minted);
      var create := CreateObj(undoEventId, curTemp);
      WithinOne(create, undoEventId);
      LazyOneEvent(old(issued), old(undoEventId), "Create Door", minted, [create]);
      issued := issued + [create];
      outcome := if curTemp.None? then Thrown else Done;
    }

    /**
     * onMouseDown: without a preview, a door from (x, y, 0) to
     * (x+1, y+1, 0) facing (1, 0, 0) is built (its id minted by the kernel)
     * and drawn; with one, the preview is committed and dropped.
     */
    method OnMouseDown(pt: Triple, picked: Option<Hovered>, minted: EventId, doorId: string)
      requires Valid()
      modifies this
      ensures Valid()
      ensures width == old(width) && height == old(height) && length == old(length)
      ensures old(curTemp).None? ==>
        && curTemp == Some(DoorPreview(Triple(pt.x, pt.y, 0.0), Triple(pt.x + 1.0, pt.y + 1.0, 0.0), width, height, length, Triple(1.0, 0.0, 0.0), doorId))
        && undoEventId == old(undoEventId)
        && issued == old(issued) + [RenderTempObject(curTemp.value)]
      ensures old(curTemp).Some? ==>
        && curTemp == None
        && undoEventId == LazyEvent(old(undoEventId), minted)
        && issued == old(issued) + LazyBegin(old(undoEventId), "Create Door", minted) + [CreateObj(undoEventId, old(curTemp))]
    {
      if curTemp.None? {
        var first := Triple(pt.x, pt.y, 0.0);
        var second := Triple(pt.x + 1.0, pt.y + 1.0, 0.0);
        curTemp := Some(DoorPreview(first, second, width, height, length, Triple(1.0, 0.0, 0.0), doorId));
        Issue(RenderTempObject(curTemp.value));
      } else {
        var _ := CreateDoor(picked, minted);
        curTemp := None;
      }
    }

    /** onMouseMove: while previewing, the door turns toward the mouse in the plane (z of the direction 0) and is redrawn; the answer is joinability. */
    method OnMouseMove(pt: Triple, hovered: Option<Hovered>) returns (joinable: bool)
      requires Valid()
      modifies this
      ensures Valid()
      ensures joinable == CanJoinToWall(hovered)
      ensures undoEventId == old(undoEventId) && width == old(width) && height == old(height) && length == old(length)
      ensures old(curTemp).None? ==> curTemp == None && issued == old(issued)
      ensures old(curTemp).Some? ==>
        var first := old(curTemp).value.first;
        && curTemp == Some(old(curTemp).value.(dir := Triple(pt.x - first.x, pt.y - first.y, 0.0)))
        && issued == old(issued) + [RenderTempObject(curTemp.value)]
    {
      if curTemp.Some? {
        var curFirst := curTemp.value.first;
        var curDir := Triple(pt.x - curFirst.x, pt.y - curFirst.y, 0.0);
        curTemp := Some(curTemp.value.(dir := curDir));
        Issue(RenderTempObject(curTemp.value));
      }
      joinable := CanJoinToWall(hovered);
    }

    /** cancel: the event is cancelled if one was opened; then the preview is deleted, which throws without one. */
    method Cancel() returns (outcome: Outcome)
      requires Valid()
      modifies this
      ensures Valid()
      ensures outcome == (if curTemp.None? then Thrown else Done)
      ensures issued == old(issued) + (if undoEventId != "" then [CancelEvent(undoEventId)] else [])
                                    + (if curTemp.Some? then [DeleteTempObject(curTemp.value.id)] else [])
      ensures curTemp == old(curTemp) && undoEventId == old(undoEventId)
      ensures width == old(width) && height == old(height) && length == old(length)
    {
      if undoEventId != "" {
        Issue(CancelEvent(undoEventId));
      }
      if curTemp.None? {
        outcome := Thrown;
      } else {
        Issue(DeleteTempObject(curTemp.value.id));
        outcome := Done;
      }
    }

    /** finish: commit the preview, even a null one, then end the event; a throwing commit leaves the event open. */
    method Finish(picked: Option<Hovered>, minted: EventId) returns (outcome: Outcome)
      requires Valid()
      modifies this
      ensures Valid()
      ensures undoEventId == LazyEvent(old(undoEventId), minted)
      ensures outcome == (if curTemp.None? then Thrown else Done)
      ensures issued == old(issued) + LazyBegin(old(undoEventId), "Create Door", minted) + [CreateObj(undoEventId, curTemp)]
                        + (if curTemp.Some? then [EndUndoEvent(undoEventId)] else [])
      ensures curTemp == old(curTemp) && width == old(width) && height == old(height) && length == old(length)
    {
      outcome := CreateDoor(picked, minted);
      if outcome == Done && undoEventId != "" {
        Issue(EndUndoEvent(undoEventId));
      }
    }
  }
}
