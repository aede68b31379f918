/**
 * The object overlay of the GUI: the label naming the selection, the
 * property panel that merges the selected objects' properties, and the
 * handler that writes an edited property back to every selected object
 * inside one undo event. The widgets themselves are not modelled; a
 * selected mesh is its name, the type in its metadata, and its properties.
 */
module Gui {
  import opened Base
  import opened ClientSession

  /** A selected mesh: its name (the object id), its metadata type, and the object's own properties. */
  datatype Selected = Selected(name: string, typeName: string, props: map<string, Json>)

  // ---------------------------------------------------------------------
  // The overlay label
  // ---------------------------------------------------------------------

  /** Every selected object has the first one's type. */
  predicate AllSame(sel: seq<Selected>) {
    forall i | 0 <= i < |sel| :: sel[i].typeName == sel[0].typeName
  }

  /**
   * The label: a selection of one type reads "<n> <type>s" (or just the
   * type when one object is selected), a mixed one "<n> Objects"; with
   * nothing selected the label has no text.
   */
  function LabelText(sel: seq<Selected>): (r: Option<string>)
    ensures r.None? <==> sel == []
    ensures |sel| == 1 ==> r == Some(sel[0].typeName)
    ensures |sel| > 1 && AllSame(sel) ==> r == Some(NatToDecimal(|sel|) + " " + sel[0].typeName + "s")
    ensures !AllSame(sel) ==> r == Some(NatToDecimal(|sel|) + " Objects")
  {
    if sel == [] then None
    else if !AllSame(sel) then Some(NatToDecimal(|sel|) + " Objects")
    else if |sel| > 1 then Some(NatToDecimal(|sel|) + " " + sel[0].typeName + "s")
    else Some(sel[0].typeName)
  }

  /**
   * setObjectOverlay: the label, from one pass over the selection remembering
   * the first type, the count, and whether a type differed; then the panel
   * populateObjectOverlay fills in for the same selection.
   */
  method SetObjectOverlay(data: seq<Selected>) returns (caption: Option<string>, ids: seq<string>, props: map<string, Json>, fields: map<string, Option<Json>>)
    ensures caption == LabelText(data)
    ensures |ids| == |data| && forall i | 0 <= i < |data| :: ids[i] == data[i].name
    ensures props == MergeAll(data)
    ensures fields == PanelFields(props)
  {
    var ty: Option<string> := None;
    var count: nat := 0;
    var allSame := true;
    for i := 0 to |data|
      invariant count == i
      invariant ty == if i == 0 then None else Some(data[0].typeName)
      invariant allSame <==> forall j | 0 <= j < i :: data[j].typeName == data[0].typeName
    {
      if ty.None? {
        ty := Some(data[i].typeName);
      } else if ty.value != data[i].typeName {
        allSame := false;
      }
      count := count + 1;
    }
    if allSame {
      if count > 1 {
        caption := Some(NatToDecimal(count) + " " + ty.value + "s");
      } else {
        caption := ty;
      }
    } else {
      caption := Some(NatToDecimal(count) + " Objects");
    }
    ids, props, fields := PopulateObjectOverlay(data);
  }

  lemma SameTypes(a: seq<Selected>, b: seq<Selected>)
    requires multiset(a) == multiset(b) && a != [] && AllSame(a)
    ensures b != [] && AllSame(b) && b[0].typeName == a[0].typeName
  {
    assert |b| == |multiset(b)| == |multiset(a)| == |a|;
    forall j | 0 <= j < |b|
      ensures b[j].typeName == a[0].typeName
    {
      assert b[j] in multiset(a);
      var i :| 0 <= i < |a| && a[i] == b[j];
    }
  }

  /** The label does not depend on the order in which the selection is visited. */
  lemma LabelOrderFree(a: seq<Selected>, b: seq<Selected>)
    requires multiset(a) == multiset(b)
    ensures LabelText(a) == LabelText(b)
  {
    assert |b| == |multiset(b)| == |multiset(a)| == |a|;
    if a != [] {
      if AllSame(a) {
        SameTypes(a, b);
      } else if AllSame(b) {
        SameTypes(b, a);
      }
    }
  }

  // ---------------------------------------------------------------------
  // The merged properties
  // ---------------------------------------------------------------------

  /**
   * JavaScript's === on property values parsed from different JSON
   * documents: primitives compare by value, while two arrays or objects
   * are never the same object.
   */
  function StrictEq(a: Json, b: Json): (r: bool)
    ensures r ==> a == b
    ensures !a.JArr? && !a.JObj? ==> (r <==> a == b)
  {
    a == b && !a.JArr? && !a.JObj?
  }

  /** One property's merged value after one more object: taken when new, kept while equal or already null, null on a difference. */
  function MergeValue(acc: map<string, Json>, obj: map<string, Json>, k: string): Json
    requires k in acc || k in obj
  {
    if k !in obj then acc[k]
    else if k !in acc then obj[k]
    else if acc[k] != JNull && !StrictEq(acc[k], obj[k]) then JNull
    else acc[k]
  }

  function MergeStep(acc: map<string, Json>, obj: map<string, Json>): (r: map<string, Json>)
    ensures r.Keys == acc.Keys + obj.Keys
  {
    map k | k in acc.Keys + obj.Keys :: MergeValue(acc, obj, k)
  }

  /** Every property any selected object has. */
  function AllKeys(sel: seq<Selected>): set<string>
    decreases |sel|
  {
    if sel == [] then {} else AllKeys(sel[..|sel| - 1]) + sel[|sel| - 1].props.Keys
  }

  /** The properties merged over the selection, in order. */
  function MergeAll(sel: seq<Selected>): (r: map<string, Json>)
    ensures r.Keys == AllKeys(sel)
    decreases |sel|
  {
    if sel == [] then map[] else MergeStep(MergeAll(sel[..|sel| - 1]), sel[|sel| - 1].props)
  }

  /** The value of k in the first selected object that has it. */
  function First(sel: seq<Selected>, k: string): (r: Option<Json>)
    ensures r.Some? <==> k in AllKeys(sel)
    ensures r.Some? ==> exists i | 0 <= i < |sel| :: k in sel[i].props && sel[i].props[k] == r.value
    decreases |sel|
  {
    if sel == [] then None
    else
      var f := First(sel[..|sel| - 1], k);
      if f.Some? then
        assert forall i | 0 <= i < |sel| - 1 :: sel[..|sel| - 1][i] == sel[i];
        f
      else if k in sel[|sel| - 1].props then Some(sel[|sel| - 1].props[k])
      else None
  }

  /** Every two selected objects having k hold the same primitive there. */
  ghost predicate Agreed(sel: seq<Selected>, k: string) {
    forall i, j | 0 <= i < j < |sel| && k in sel[i].props && k in sel[j].props :: StrictEq(sel[i].props[k], sel[j].props[k])
  }

  /** The merged key set is the union of every selected object's keys. */
  lemma {:induction false} AllKeysMember(sel: seq<Selected>, k: string)
    ensures k in AllKeys(sel) <==> exists i | 0 <= i < |sel| :: k in sel[i].props
    decreases |sel|
  {
    if sel != [] {
      var init := sel[..|sel| - 1];
      AllKeysMember(init, k);
      assert forall i | 0 <= i < |init| :: init[i] == sel[i];
    }
  }

  /**
   * A merged property holds the first object's value when all the objects
   * having it agree, and null otherwise; so it does not depend on the
   * order of the selection beyond which value comes first.
   */
  lemma {:induction false} MergeAllValue(sel: seq<Selected>, k: string)
    requires k in AllKeys(sel)
    ensures First(sel, k).Some?
    ensures MergeAll(sel)[k] == if Agreed(sel, k) then First(sel, k).value else JNull
    decreases |sel|
  {
    var init := sel[..|sel| - 1];
    var o := sel[|sel| - 1].props;
    if k !in o {
      MergeAllValue(init, k);
      AgreedSkip(init, sel, k);
    } else if k !in AllKeys(init) {
      AllKeysMember(init, k);
      assert forall i | 0 <= i < |init| :: init[i] == sel[i];
    } else {
      MergeAllValue(init, k);
      MergeLastValue(init, sel, k);
    }
  }

  /** The step of MergeAllValue where both the earlier objects and the last one have k. */
  lemma MergeLastValue(init: seq<Selected>, sel: seq<Selected>, k: string)
    requires sel != [] && init == sel[..|sel| - 1]
    requires k in AllKeys(init) && k in sel[|sel| - 1].props
    requires MergeAll(init)[k] == if Agreed(init, k) then First(init, k).value else JNull
    ensures MergeAll(sel)[k] == if Agreed(sel, k) then First(sel, k).value else JNull
  {
    var o := sel[|sel| - 1].props;
    assert MergeAll(sel)[k] == MergeValue(MergeAll(init), o, k);
    assert First(sel, k) == First(init, k);
    if !Agreed(init, k) {
      AgreedPrefix(init, sel, k);
    } else {
      var f := First(init, k).value;
      if f != JNull && !StrictEq(f, o[k]) {
        var i0 :| 0 <= i0 < |init| && k in init[i0].props && init[i0].props[k] == f;
        assert init[i0] == sel[i0];
        assert !Agreed(sel, k) by {
          assert k in sel[i0].props && k in sel[|sel| - 1].props && !StrictEq(sel[i0].props[k], sel[|sel| - 1].props[k]);
        }
      } else if f != JNull {
        AgreedExtend(init, sel, k, f);
      }
    }
  }

  /** An object without k changes nothing about agreement on k. */
  lemma AgreedSkip(init: seq<Selected>, sel: seq<Selected>, k: string)
    requires sel != [] && init == sel[..|sel| - 1] && k !in sel[|sel| - 1].props
    ensures Agreed(sel, k) == Agreed(init, k)
  {
    assert forall i | 0 <= i < |init| :: init[i] == sel[i];
  }

  /** Agreement over a selection holds over its prefix. */
  lemma AgreedPrefix(init: seq<Selected>, sel: seq<Selected>, k: string)
    requires sel != [] && init == sel[..|sel| - 1]
    ensures Agreed(sel, k) ==> Agreed(init, k)
  {
    assert forall i | 0 <= i < |init| :: init[i] == sel[i];
  }

  /** Agreement extends to one more object whose value equals the first one. */
  lemma AgreedExtend(init: seq<Selected>, sel: seq<Selected>, k: string, f: Json)
    requires sel != [] && init == sel[..|sel| - 1]
    requires Agreed(init, k) && First(init, k) == Some(f)
    requires k in sel[|sel| - 1].props && StrictEq(f, sel[|sel| - 1].props[k])
    ensures Agreed(sel, k)
  {
    var n := |sel|;
    var i0 :| 0 <= i0 < n - 1 && k in init[i0].props && init[i0].props[k] == f;
    assert forall i | 0 <= i < n - 1 :: init[i] == sel[i];
    forall i, j | 0 <= i < j < n && k in sel[i].props && k in sel[j].props
      ensures StrictEq(sel[i].props[k], sel[j].props[k])
    {
      if j == n - 1 && i != i0 {
        assert StrictEq(sel[i].props[k], f) || StrictEq(f, sel[i].props[k]) by {
          if i < i0 {
            assert k in init[i].props && k in init[i0].props;
          } else {
            assert k in init[i0].props && k in init[i].props;
          }
        }
      } else if j < n - 1 {
        assert k in init[i].props && k in init[j].props;
      }
    }
  }

  /**
   * populateObjectOverlay: the selection's ids in order, and its properties
   * merged object by object, key by key (the order of an object's keys does
   * not matter); the panel shows the corrected fields.
   */
  method PopulateObjectOverlay(data: seq<Selected>) returns (ids: seq<string>, props: map<string, Json>, fields: map<string, Option<Json>>)
    ensures |ids| == |data| && forall i | 0 <= i < |data| :: ids[i] == data[i].name
    ensures props == MergeAll(data)
    ensures fields == PanelFields(props)
  {
    ids := [];
    props := map[];
    for i := 0 to |data|
      invariant |ids| == i && forall j | 0 <= j < i :: ids[j] == data[j].name
      invariant props == MergeAll(data[..i])
    {
      ids := ids + [data[i].name];
      props := MergeInto(props, data[i].props);
      assert data[..i + 1][..i] == data[..i];
    }
    assert data[..|data|] == data;
    fields := PanelFields(props);
  }

  /** One object's properties merged in, key by key; the order of its keys does not matter. */
  method MergeInto(acc: map<string, Json>, obj: map<string, Json>) returns (props: map<string, Json>)
    ensures props == MergeStep(acc, obj)
  {
    props := acc;
    var todo := obj.Keys;
    while todo != {}
      invariant todo <= obj.Keys
      invariant props.Keys == acc.Keys + (obj.Keys - todo)
      invariant forall k | k in props :: props[k] == if k in obj.Keys - todo then MergeValue(acc, obj, k) else acc[k]
      decreases todo
    {
      var p :| p in todo;
      if p !in props {
        props := props[p := obj[p]];
      } else if props[p] != JNull && !StrictEq(props[p], obj[p]) {
        props := props[p := JNull];
      }
      todo := todo - {p};
    }
  }

  /**
   * As written, the panel turns every merged value into text with
   * toString, which throws on the null that marks a disagreement.
   */
  function PanelAsWritten(props: map<string, Json>): (r: Option<map<string, Json>>)
    ensures r.None? <==> exists k | k in props :: props[k] == JNull
    ensures r.Some? ==> r.value == props
  {
    if exists k | k in props :: props[k] == JNull then None else Some(props)
  }

  /** Selecting objects that disagree on a property makes the panel throw. */
  lemma DisagreementThrows(sel: seq<Selected>, k: string)
    requires k in AllKeys(sel) && !Agreed(sel, k)
    ensures PanelAsWritten(MergeAll(sel)).None?
  {
    MergeAllValue(sel, k);
  }

  /** Two walls of different widths, the smallest such selection. */
  lemma TwoWidthsThrow()
    ensures PanelAsWritten(MergeAll([Selected("a", "Wall", map["width" := JNum(1.0)]), Selected("b", "Wall", map["width" := JNum(2.0)])])).None?
  {
    var sel := [Selected("a", "Wall", map["width" := JNum(1.0)]), Selected("b", "Wall", map["width" := JNum(2.0)])];
    assert "width" in sel[0].props && "width" in sel[1].props;
    assert !StrictEq(sel[0].props["width"], sel[1].props["width"]);
    AllKeysMember(sel, "width");
    DisagreementThrows(sel, "width");
  }

  /** The corrected panel: a property the objects disagree on is shown as an empty field. */
  function PanelFields(props: map<string, Json>): (r: map<string, Option<Json>>)
    ensures r.Keys == props.Keys
    ensures forall k | k in r :: r[k].None? <==> props[k] == JNull
    ensures forall k | k in r && r[k].Some? :: r[k].value == props[k]
  {
    map k | k in props :: if props[k] == JNull then None else Some(props[k])
  }

  /**
   * The corrected panel has a field for every property of any selected
   * object; it shows a value exactly when the objects having the property
   * agree on a non-null one, and that value is every such object's.
   */
  lemma PanelShowsAgreed(sel: seq<Selected>, k: string)
    ensures k in PanelFields(MergeAll(sel)) <==> exists i | 0 <= i < |sel| :: k in sel[i].props
    ensures k in PanelFields(MergeAll(sel)) ==>
      (PanelFields(MergeAll(sel))[k].Some? <==> Agreed(sel, k) && First(sel, k).value != JNull)
    ensures k in PanelFields(MergeAll(sel)) && PanelFields(MergeAll(sel))[k].Some? ==>
      forall i | 0 <= i < |sel| && k in sel[i].props :: sel[i].props[k] == PanelFields(MergeAll(sel))[k].value
  {
    AllKeysMember(sel, k);
    if k in AllKeys(sel) {
      MergeAllValue(sel, k);
      if Agreed(sel, k) && First(sel, k).value != JNull {
        var f := First(sel, k).value;
        var i0 :| 0 <= i0 < |sel| && k in sel[i0].props && sel[i0].props[k] == f;
        forall i | 0 <= i < |sel| && k in sel[i].props
          ensures sel[i].props[k] == f
        {
          if i < i0 {
            assert StrictEq(sel[i].props[k], sel[i0].props[k]);
          } else if i > i0 {
            assert StrictEq(sel[i0].props[k], sel[i].props[k]);
          }
        }
      }
    }
  }

  // ---------------------------------------------------------------------
  // Writing an edited property back
  // ---------------------------------------------------------------------

  /** The data an edited field writes: its property set to the number typed. */
  function FieldData(prop: string, n: real): (d: Json)
    ensures d.JObj? && d.fields.Keys == {prop} && d.fields[prop] == JNum(n)
  {
    JObj(map[prop := JNum(n)])
  }

  /** The pairs handed to setObjectsDatas: every id with the same data, in order. */
  method DataArray(ids: seq<string>, data: Json) returns (arr: seq<(string, Json)>)
    ensures |arr| == |ids| && forall i | 0 <= i < |ids| :: arr[i] == (ids[i], data)
    ensures Firsts(arr) == ids
  {
    arr := [];
    for i := 0 to |ids|
      invariant |arr| == i && forall j | 0 <= j < i :: arr[j] == (ids[j], data)
    {
      arr := arr + [(ids[i], data)];
    }
  }

  /** The call that writes an edited field: set_object_data for a single id, set_objects_datas with the pairs otherwise. */
  function FieldWrite(connected: bool, file: string, event: string, ids: seq<string>, data: Json, pairs: seq<(string, Json)>): KernelCall
  {
    if |ids| == 1 then
      Route(connected, "set_object_data", [JStr(file), JStr(event), JStr(ids[0]), data],
            "set_object_data", [Val(JStr(file)), Val(JStr(event)), Val(JStr(ids[0])), Text(data)])
    else
      Route(connected, "set_object_datas", [JStr(file), JStr(event), Pairs(pairs)],
            "set_objects_datas", Vals([JStr(file), JStr(event), Pairs(pairs)]))
  }

  /** The write in the blur handler: one call, and a waiter on each id written. */
  method WriteField(session: Session, event: string, ids: seq<string>, data: Json) returns (pairs: seq<(string, Json)>)
    requires session.Valid()
    modifies session
    ensures session.Valid()
    ensures |ids| != 1 ==> |pairs| == |ids| && forall i | 0 <= i < |ids| :: pairs[i] == (ids[i], data)
    ensures session.log == old(session.log) + [FieldWrite(old(session.connected), old(session.filename), event, ids, data, pairs)]
    ensures session.pendingChanges == if |ids| == 1 then AddWaiter(old(session.pendingChanges), ids[0], old(session.nextToken))
                                      else AddWaiters(old(session.pendingChanges), ids, old(session.nextToken))
    ensures session.filename == old(session.filename) && session.connected == old(session.connected)
    ensures session.pendingReads == old(session.pendingReads) && session.scene == old(session.scene) && session.resolved == old(session.resolved)
  {
    if |ids| == 1 {
      pairs := [];
      var _ := session.SetObjectData(event, ids[0], data);
    } else {
      pairs := DataArray(ids, data);
      var _ := session.SetObjectsDatas(event, pairs);
    }
  }

  /**
   * The blur handler of a property field: one undo event opened, the write
   * (setObjectData for a single object, setObjectsDatas otherwise, even for
   * none), and the event ended.
   */
  method OnFieldBlur(session: Session, ids: seq<string>, prop: string, n: real, minted: string) returns (pairs: seq<(string, Json)>)
    requires session.Valid()
    modifies session
    ensures session.Valid()
    ensures |ids| != 1 ==> |pairs| == |ids| && forall i | 0 <= i < |ids| :: pairs[i] == (ids[i], FieldData(prop, n))
    ensures var f := old(session.filename);
      var c := old(session.connected);
      var begin := Route(c, "begin_undo_event", [JStr(f), JStr(minted), JStr("prop set")],
                         "begin_undo_event", Vals([JStr(f), JStr(session.user), JStr(minted), JStr("prop set")]));
      var end := Route(c, "end_undo_event", [JStr(f), JStr(minted)], "end_undo_event", Vals([JStr(f), JStr(minted)]));
      session.log == old(session.log) + [begin, FieldWrite(c, f, minted, ids, FieldData(prop, n), pairs), end]
    ensures session.pendingChanges == if |ids| == 1 then AddWaiter(old(session.pendingChanges), ids[0], old(session.nextToken))
                                      else AddWaiters(old(session.pendingChanges), ids, old(session.nextToken))
    ensures session.filename == old(session.filename) && session.connected == old(session.connected)
    ensures session.pendingReads == old(session.pendingReads) && session.scene == old(session.scene) && session.resolved == old(session.resolved)
  {
    var event := session.BeginUndoEvent("prop set", minted);
    assert session.Valid() by {
      assert session.Snapshot() == old(session.Snapshot()) && session.nextToken == old(session.nextToken);
    }
    pairs := WriteField(session, event, ids, FieldData(prop, n));
    session.EndUndoEvent(event);
  }
}
