/**
 * What the drawing tools ask of the operations layer. Each tool records
 * the calls it makes, in order; the answers the kernel gives and the ids
 * it mints come in as parameters. Previews are the kernel objects a tool
 * builds and redraws before committing them, held here as values.
 */
module ToolCommands {
  import opened Base
  import opened UiMath

  /** An undo event id: a fresh UUID, which is never the empty string. */
  type EventId = s: string | s != "" witness "e"

  /** The mesh under the mouse: its name (the object id) and the type in its metadata. */
  datatype Hovered = Hovered(name: string, typeName: string)

  /** A tool's preview object. */
  datatype Preview =
    | DoorPreview(first: Triple, second: Triple, width: real, height: real, length: real, dir: Triple, id: string)
    | DimensionPreview(first: Triple, second: Triple, offset: real, id: string)
    | SlabPreview(id: string)

  /**
   * A call into the operations layer. createWall, renderTempWall and
   * joinAtPoint are called by the wall tool but are not among the layer's
   * functions; they stay abstract commands.
   */
  datatype Cmd =
    | BeginUndoEvent(desc: string, event: string)
    | EndUndoEvent(event: string)
    | CancelEvent(event: string)
    | CreateWall(event: string, first: Option<Triple>, second: Option<Triple>, width: real, height: real, tempId: string)
    | JoinAtPoint(event: string, id1: string, id2: string, pt: Option<Triple>)
    | RenderTempWall(wallFirst: Triple, wallSecond: Triple, wallWidth: real, wallHeight: real, redraws: Option<string>)
    | RenderTempObject(obj: Preview)
    | DeleteTempObject(id: string)
    | CreateObj(event: string, created: Option<Preview>)
    | CanReferTo(target: string)
    | GetClosestPoint(target: string, near: Triple)
    | SnapToPoint(event: string, snapped: string, target: string, at: Triple)
  {
    /** The call names an undo event. */
    predicate UsesEvent() {
      BeginUndoEvent? || EndUndoEvent? || CancelEvent? || CreateWall? || JoinAtPoint? || CreateObj? || SnapToPoint?
    }
  }

  /** How a tool call ended: normally, or with a TypeError from reading a null preview or point. */
  datatype Outcome = Done | Thrown

  function Begins(cmds: seq<Cmd>): (n: nat)
    decreases |cmds|
  {
    if cmds == [] then 0 else Begins(cmds[..|cmds| - 1]) + (if cmds[|cmds| - 1].BeginUndoEvent? then 1 else 0)
  }

  lemma {:induction false} BeginsAppend(a: seq<Cmd>, b: seq<Cmd>)
    ensures Begins(a + b) == Begins(a) + Begins(b)
    decreases |b|
  {
    if b == [] {
      assert a + b == a;
    } else {
      assert (a + b)[..|a + b| - 1] == a + b[..|b| - 1];
      BeginsAppend(a, b[..|b| - 1]);
    }
  }

  /**
   * The undo discipline of a tool: before its event is opened it has made
   * no call that names an event; afterwards it has opened exactly one, and
   * every call naming an event names that one.
   */
  ghost predicate OneEvent(issued: seq<Cmd>, event: string) {
    && (event == "" ==> Begins(issued) == 0 && forall i | 0 <= i < |issued| :: !issued[i].UsesEvent())
    && (event != "" ==> Begins(issued) == 1 && forall i | 0 <= i < |issued| :: issued[i].UsesEvent() ==> issued[i].event == event)
  }

  /** Calls that name no event, or name the open one without opening another. */
  ghost predicate Within(more: seq<Cmd>, event: string) {
    Begins(more) == 0 && forall i | 0 <= i < |more| :: more[i].UsesEvent() ==> event != "" && more[i].event == event
  }

  /** Continuing inside the open event (or before any) keeps the discipline. */
  lemma KeepOneEvent(issued: seq<Cmd>, event: string, more: seq<Cmd>)
    requires OneEvent(issued, event) && Within(more, event)
    ensures OneEvent(issued + more, event)
  {
    BeginsAppend(issued, more);
    var all := issued + more;
    forall i | 0 <= i < |all|
      ensures all[i].UsesEvent() ==> event != "" && all[i].event == event
    {
      if i >= |issued| {
        assert all[i] == more[i - |issued|];
      } else {
        assert all[i] == issued[i];
      }
    }
  }

  /** Opening the event when none is open, then working inside it, keeps the discipline. */
  lemma OpenOneEvent(issued: seq<Cmd>, desc: string, event: EventId, more: seq<Cmd>)
    requires OneEvent(issued, "") && Within(more, event)
    ensures OneEvent(issued + [BeginUndoEvent(desc, event)] + more, event)
  {
    var withBegin := issued + [BeginUndoEvent(desc, event)];
    BeginsAppend(issued, [BeginUndoEvent(desc, event)]);
    assert Begins([BeginUndoEvent(desc, event)]) == 1 by {
      assert [BeginUndoEvent(desc, event)][..0] == [];
    }
    forall i | 0 <= i < |withBegin|
      ensures withBegin[i].UsesEvent() ==> withBegin[i].event == event
    {
      if i < |issued| {
        assert withBegin[i] == issued[i];
      }
    }
    KeepOneEvent(withBegin, event, more);
  }

  /** The lazy opening every tool does: open the event if none is open yet, and say which one is open afterwards. */
  function LazyEvent(current: string, minted: EventId): (e: EventId)
    ensures current != "" ==> e == current
    ensures current == "" ==> e == minted
  {
    if current != "" then current else minted
  }

  /** The calls the lazy opening makes. */
  function LazyBegin(current: string, desc: string, minted: EventId): (c: seq<Cmd>)
    ensures current != "" ==> c == []
    ensures current == "" ==> c == [BeginUndoEvent(desc, minted)]
  {
    if current != "" then [] else [BeginUndoEvent(desc, minted)]
  }

  /** However the event stood, opening it lazily and then working inside it keeps the discipline. */
  lemma LazyOneEvent(issued: seq<Cmd>, current: string, desc: string, minted: EventId, more: seq<Cmd>)
    requires OneEvent(issued, current) && Within(more, LazyEvent(current, minted))
    ensures OneEvent(issued + LazyBegin(current, desc, minted) + more, LazyEvent(current, minted))
  {
    if current == "" {
      OpenOneEvent(issued, desc, minted, more);
    } else {
      assert issued + LazyBegin(current, desc, minted) == issued;
      KeepOneEvent(issued, current, more);
    }
  }

  /** A single call inside the open event. */
  lemma WithinOne(c: Cmd, event: string)
    requires !c.BeginUndoEvent? && (c.UsesEvent() ==> event != "" && c.event == event)
    ensures Within([c], event)
  {
    assert [c][..0] == [];
  }

  /** Two stretches inside the open event make one. */
  lemma WithinJoin(a: seq<Cmd>, b: seq<Cmd>, event: string)
    requires Within(a, event) && Within(b, event)
    ensures Within(a + b, event)
  {
    BeginsAppend(a, b);
    forall i | 0 <= i < |a + b|
      ensures (a + b)[i].UsesEvent() ==> event != "" && (a + b)[i].event == event
    {
      if i >= |a| {
        assert (a + b)[i] == b[i - |a|];
      } else {
        assert (a + b)[i] == a[i];
      }
    }
  }

  lemma {:induction false} NoBegins(more: seq<Cmd>)
    requires forall i | 0 <= i < |more| :: !more[i].BeginUndoEvent?
    ensures Begins(more) == 0
    decreases |more|
  {
    if more != [] {
      NoBegins(more[..|more| - 1]);
    }
  }

  /** Calls none of which opens an event, and each of which names the open one if it names any, stay within it. */
  lemma WithinAll(more: seq<Cmd>, event: string)
    requires forall i | 0 <= i < |more| :: !more[i].BeginUndoEvent? && (more[i].UsesEvent() ==> event != "" && more[i].event == event)
    ensures Within(more, event)
  {
    NoBegins(more);
  }
}
