/**
 * The slab tool: every click commits the current slab preview (if any) and
 * starts a new one. The ids of the slabs the kernel builds are parameters.
 */
module SlabTools {
  import opened Base
  import opened UiMath
  import opened ToolCommands

  class SlabTool {
    var curTemp: Option<Preview>
    var undoEventId: string
    /** The calls this tool has made into the operations layer. */
    var issued: seq<Cmd>

    /** The tool opens at most one undo event and makes every call inside it; its preview is a slab. */
    ghost predicate Valid()
      reads this
    {
      OneEvent(issued, undoEventId) && (curTemp.Some? ==> curTemp.value.SlabPreview?)
    }

    /** No preview and no event. */
    constructor ()
      ensures Valid()
      ensures curTemp == None && undoEventId == "" && issued == []
    {
      curTemp := None;
      undoEventId := "";
      issued := [];
    }

    /** One call inside the open event (or naming none). */
    method Issue(c: Cmd)
      requires Valid()
      requires !c.BeginUndoEvent? && (c.UsesEvent() ==> undoEventId != "" && c.event == undoEventId)
      modifies this
      ensures Valid()
      ensures issued == old(issued) + [c]
      ensures curTemp == old(curTemp) && undoEventId == old(undoEventId)
    {
      WithinOne(c, undoEventId);
      KeepOneEvent(issued, undoEventId, [c]);
      issued := issued + [c];
    }

    /**
     * createSlab: open the event if none is open; then delete the preview
     * and create a new slab. Without a preview the deletion throws, after
     * the event has been opened.
     */
    method CreateSlab(picked: Option<Hovered>, minted: EventId, slabId: string) returns (outcome: Outcome)
      requires Valid()
      modifies this
      ensures Valid()
      ensures curTemp == old(curTemp)
      ensures undoEventId == LazyEvent(old(undoEventId), minted)
      ensures outcome == (if curTemp.None? then Thrown else Done)
      ensures issued == old(issued) + LazyBegin(old(undoEventId), "Create Slab", minted)
        + (if curTemp.Some? then [DeleteTempObject(curTemp.value.id), CreateObj(undoEventId, Some(SlabPreview(slabId)))] else [])
    {
      if undoEventId == "" {
        issued := issued + [BeginUndoEvent("Create Slab", minted)];
        undoEventId := minted;
      }
      ghost var withBegin := issued;
      assert withBegin == old(issued) + LazyBegin(old(undoEventId), "Create Slab", minted);
      assert OneEvent(withBegin, undoEventId) by {
        LazyOneEvent(old(issued), old(undoEventId), "Create Slab", minted, []);
        assert withBegin + [] == withBegin;
      }
      if curTemp.None? {
        return Thrown;
      }
      Issue(DeleteTempObject(curTemp.value.id));
      Issue(CreateObj(undoEventId, Some(SlabPreview(slabId))));
      outcome := Done;
    }

    /** onMouseDown: commit the preview if there is one; in any case a new preview is built and drawn. */
    method OnMouseDown(pt: Triple, picked: Option<Hovered>, minted: EventId, slabId: string, previewId: string)
      requires Valid()
      modifies this
      ensures Valid()
      ensures curTemp == Some(SlabPreview(previewId))
      ensures old(curTemp).None? ==> undoEventId == old(undoEventId) && issued == old(issued) + [RenderTempObject(SlabPreview(previewId))]
      ensures old(curTemp).Some? ==>
        && undoEventId == LazyEvent(old(undoEventId), minted)
        && issued == old(issued) + LazyBegin(old(undoEventId), "Create Slab", minted)
             + [DeleteTempObject(old(curTemp).value.id), CreateObj(undoEventId, Some(SlabPreview(slabId)))]
             + [RenderTempObject(SlabPreview(previewId))]
    {
      if curTemp.Some? {
        var _ := CreateSlab(picked, minted, slabId);
      }
      curTemp := Some(SlabPreview(previewId));
      Issue(RenderTempObject(curTemp.value));
    }

    /** onMouseMove: the preview is redrawn; slabs never join. */
    method OnMouseMove(pt: Triple, hovered: Option<Hovered>) returns (joinable: bool)
      requires Valid()
      modifies this
      ensures Valid()
      ensures !joinable
      ensures curTemp == old(curTemp) && undoEventId == old(undoEventId)
      ensures issued == old(issued) + (if curTemp.Some? then [RenderTempObject(curTemp.value)] else [])
    {
      if curTemp.Some? {
        Issue(RenderTempObject(curTemp.value));
      }
      joinable := false;
    }

    /** cancel: unlike the other tools, an open event is ended rather than cancelled; the preview, if any, is deleted. */
    method Cancel()
      requires Valid()
      modifies this
      ensures Valid()
      ensures issued == old(issued) + (if undoEventId != "" then [EndUndoEvent(undoEventId)] else [])
                                    + (if curTemp.Some? then [DeleteTempObject(curTemp.value.id)] else [])
      ensures curTemp == old(curTemp) && undoEventId == old(undoEventId)
    {
      if undoEventId != "" {
        Issue(EndUndoEvent(undoEventId));
      }
      if curTemp.Some? {
        Issue(DeleteTempObject(curTemp.value.id));
      }
    }

    /** finish: commit the preview, then end the event; without a preview the commit throws and the event stays open. */
    method Finish(pt: Triple, picked: Option<Hovered>, minted: EventId, slabId: string) returns (outcome: Outcome)
      requires Valid()
      modifies this
      ensures Valid()
      ensures curTemp == old(curTemp)
      ensures undoEventId == LazyEvent(old(undoEventId), minted)
      ensures outcome == (if curTemp.None? then Thrown else Done)
      ensures issued == old(issued) + LazyBegin(old(undoEventId), "Create Slab", minted)
        + (if curTemp.Some? then [DeleteTempObject(curTemp.value.id), CreateObj(undoEventId, Some(SlabPreview(slabId))), EndUndoEvent(undoEventId)] else [])
    {
      outcome := CreateSlab(picked, minted, slabId);
      if outcome == Done {
        Issue(EndUndoEvent(undoEventId));
      }
    }
  }
}
