/**
 * The wall tool: click to start a wall, click again to commit it and start
 * the next one from the click, so that consecutive walls are joined end to
 * start; a wall under the mouse at commit time is joined to the
 * committed wall's second point.
 */
module WallTools {
  import opened Base
  import opened UiMath
  import opened ToolCommands

  class WallTool {
    var firstPt: Option<Triple>
    var secondPt: Option<Triple>
    var activeWidth: real
    var activeHeight: real
    var lastId: string
    var activeTempId: string
    var undoEventId: string
    /** The calls this tool has made into the operations layer. */
    var issued: seq<Cmd>

    /** The tool opens at most one undo event and makes every call inside it; both points are set together. */
    ghost predicate Valid()
      reads this
    {
      OneEvent(issued, undoEventId) && (firstPt.Some? <==> secondPt.Some?)
    }

    /** No points, no ids, no event; width 1 and height 5 unless given. */
    constructor (width: real := 1.0, height: real := 5.0)
      ensures Valid()
      ensures firstPt == None && secondPt == None && activeWidth == width && activeHeight == height
      ensures lastId == "" && activeTempId == "" && undoEventId == "" && issued == []
    {
      firstPt := None;
      secondPt := None;
      activeWidth := width;
      activeHeight := height;
      lastId := "";
      activeTempId := "";
      undoEventId := "";
      issued := [];
    }

    /** A hovered mesh can be joined to when it is a wall other than the previous and the active one. */
    function CanJoinToWall(hovered: Option<Hovered>): (r: bool)
      reads this
      ensures r <==> hovered.Some? && hovered.value.typeName == "Wall" && hovered.value.name != lastId && hovered.value.name != activeTempId
    {
      match hovered
      case None => false
      case Some(h) => h.typeName == "Wall" && h.name != lastId && h.name != activeTempId
    }

    /** The calls committing the active wall makes inside event: the wall, then the join to the previous wall, then the join to the picked one. */
    function CommitCalls(event: string, picked: Option<Hovered>): (c: seq<Cmd>)
      reads this
      ensures |c| == 1 + (if lastId != "" then 1 else 0) + (if CanJoinToWall(picked) then 1 else 0)
      ensures c[0] == Cmd.CreateWall(event, firstPt, secondPt, activeWidth, activeHeight, activeTempId)
      ensures lastId != "" ==> c[1] == JoinAtPoint(event, lastId, activeTempId, firstPt)
      ensures CanJoinToWall(picked) ==> c[|c| - 1] == JoinAtPoint(event, activeTempId, picked.value.name, secondPt)
      ensures forall i | 0 <= i < |c| :: !c[i].BeginUndoEvent? && c[i].UsesEvent() && c[i].event == event
    {
      [Cmd.CreateWall(event, firstPt, secondPt, activeWidth, activeHeight, activeTempId)]
      + (if lastId != "" then [JoinAtPoint(event, lastId, activeTempId, firstPt)] else [])
      + (if CanJoinToWall(picked) then [JoinAtPoint(event, activeTempId, picked.value.name, secondPt)] else [])
    }

    /** createWall: open the event if none is open, then commit the active wall with its joins. */
    method CreateWall(picked: Option<Hovered>, minted: EventId)
      requires Valid()
      modifies this
      ensures Valid()
      ensures undoEventId == LazyEvent(old(undoEventId), minted)
      ensures issued == old(issued) + LazyBegin(old(undoEventId), "Create Wall", minted) + old(CommitCalls(LazyEvent(undoEventId, minted), picked))
      ensures firstPt == old(firstPt) && secondPt == old(secondPt) && lastId == old(lastId) && activeTempId == old(activeTempId)
      ensures activeWidth == old(activeWidth) && activeHeight == old(activeHeight)
    {
      if undoEventId == "" {
        issued := issued + [BeginUndoEvent("Create Wall", minted)];
        undoEventId := minted;
      }
      assert issued == old(issued) + LazyBegin(old(undoEventId), "Create Wall", minted);
      assert undoEventId == LazyEvent(old(undoEventId), minted);
      var commit := CommitCalls(undoEventId, picked);
      WithinAll(commit, undoEventId);
      LazyOneEvent(old(issued), old(undoEventId), "Create Wall", minted, commit);
      issued := issued + commit;
    }

    /**
     * onMouseDown: the first click starts a preview from (x, y, 0) to
     * (x+1, y+1, 0) and opens no event; a later click commits the active
     * wall, remembers it as the previous one, and starts a new preview from
     * (x, y, 0) to (x+0.1, y+0.1, 0). The preview's id is the one
     * renderTempWall hands back.
     */
    method OnMouseDown(pt: Triple, picked: Option<Hovered>, minted: EventId, tempId: string)
      requires Valid()
      modifies this
      ensures Valid()
      ensures activeTempId == tempId && activeWidth == old(activeWidth) && activeHeight == old(activeHeight)
      ensures firstPt == Some(Triple(pt.x, pt.y, 0.0))
      ensures old(firstPt).None? ==>
        && secondPt == Some(Triple(pt.x + 1.0, pt.y + 1.0, 0.0))
        && lastId == old(lastId) && undoEventId == old(undoEventId)
        && issued == old(issued) + [RenderTempWall(firstPt.value, secondPt.value, activeWidth, activeHeight, None)]
      ensures old(firstPt).Some? ==>
        && secondPt == Some(Triple(pt.x + 0.1, pt.y + 0.1, 0.0))
        && lastId == old(activeTempId) && undoEventId == LazyEvent(old(undoEventId), minted)
        && issued == old(issued) + LazyBegin(old(undoEventId), "Create Wall", minted)
                     + old(CommitCalls(LazyEvent(undoEventId, minted), picked))
                     + [RenderTempWall(firstPt.value, secondPt.value, activeWidth, activeHeight, None)]
    {
      if firstPt.None? {
        firstPt := Some(Triple(pt.x, pt.y, 0.0));
        secondPt := Some(Triple(pt.x + 1.0, pt.y + 1.0, 0.0));
      } else {
        CreateWall(picked, minted);
        lastId := activeTempId;
        firstPt := Some(Triple(pt.x, pt.y, 0.0));
        secondPt := Some(Triple(pt.x + 0.1, pt.y + 0.1, 0.0));
      }
      ghost var before := issued;
      var render := RenderTempWall(firstPt.value, secondPt.value, activeWidth, activeHeight, None);
      issued := issued + [render];
      activeTempId := tempId;
      WithinOne(render, undoEventId);
      KeepOneEvent(before, undoEventId, [render]);
    }

    /** onMouseMove: while previewing, the second point follows the mouse in x and y (z kept) and the preview is redrawn; the answer is joinability. */
    method OnMouseMove(pt: Triple, hovered: Option<Hovered>) returns (joinable: bool)
      requires Valid()
      modifies this
      ensures Valid()
      ensures joinable == CanJoinToWall(hovered)
      ensures firstPt == old(firstPt) && lastId == old(lastId) && activeTempId == old(activeTempId) && undoEventId == old(undoEventId)
      ensures activeWidth == old(activeWidth) && activeHeight == old(activeHeight)
      ensures old(firstPt).None? ==> secondPt == old(secondPt) && issued == old(issued)
      ensures old(firstPt).Some? ==>
        && secondPt == Some(Triple(pt.x, pt.y, old(secondPt).value.z))
        && issued == old(issued) + [RenderTempWall(firstPt.value, secondPt.value, activeWidth, activeHeight, Some(activeTempId))]
    {
      if firstPt.Some? {
        secondPt := Some(secondPt.value.(x := pt.x, y := pt.y));
        var draw := RenderTempWall(firstPt.value, secondPt.value, activeWidth, activeHeight, Some(activeTempId));
        WithinOne(draw, undoEventId);
        KeepOneEvent(issued, undoEventId, [draw]);
        issued := issued + [draw];
      }
      joinable := CanJoinToWall(hovered);
    }

    /** cancel: the event is cancelled if one was opened; the preview is deleted in any case. */
    method Cancel()
      requires Valid()
      modifies this
      ensures Valid()
      ensures issued == old(issued) + (if undoEventId != "" then [CancelEvent(undoEventId)] else []) + [DeleteTempObject(activeTempId)]
      ensures firstPt == old(firstPt) && secondPt == old(secondPt) && lastId == old(lastId) && activeTempId == old(activeTempId)
      ensures undoEventId == old(undoEventId) && activeWidth == old(activeWidth) && activeHeight == old(activeHeight)
    {
      if undoEventId != "" {
        var cancel := CancelEvent(undoEventId);
        WithinOne(cancel, undoEventId);
        KeepOneEvent(issued, undoEventId, [cancel]);
        issued := issued + [cancel];
      }
      var delete := DeleteTempObject(activeTempId);
      WithinOne(delete, undoEventId);
      KeepOneEvent(issued, undoEventId, [delete]);
      issued := issued + [delete];
    }

    /** finish: commit the active wall, then end the event, which committing has opened. */
    method Finish(picked: Option<Hovered>, minted: EventId)
      requires Valid()
      modifies this
      ensures Valid()
      ensures undoEventId == LazyEvent(old(undoEventId), minted)
      ensures issued == old(issued) + LazyBegin(old(undoEventId), "Create Wall", minted)
                        + old(CommitCalls(LazyEvent(undoEventId, minted), picked)) + [EndUndoEvent(undoEventId)]
      ensures firstPt == old(firstPt) && secondPt == old(secondPt) && lastId == old(lastId) && activeTempId == old(activeTempId)
    {
      CreateWall(picked, minted);
      if undoEventId != "" {
        var end := EndUndoEvent(undoEventId);
        WithinOne(end, undoEventId);
        KeepOneEvent(issued, undoEventId, [end]);
        issued := issued + [end];
      }
    }
  }
}
