/**
 * The wall entity (data-model/src/entities/wall.rs): two parametric end points,
 * a width and a height, and a list of parametric opening points read in
 * triples. A wall is a value; the kernel owns each boxed wall uniquely and
 * changes it only through the database, so each `&mut self` method is a
 * function from the old wall to the new one.
 */
module WallEntity {
  import opened Base
  import opened GeometryKernel
  import opened DataModel

  datatype Wall = Wall(
    firstPt: ParametricPoint,
    secondPt: ParametricPoint,
    width: real,
    height: real,
    openings: seq<ParametricPoint>,
    id: RefID)

  /** Wall::new; the minted id is a parameter. */
  function NewWall(first: Point3, second: Point3, width: real, height: real, id: RefID): (w: Wall)
    ensures w.firstPt == ParametricPoint(first, None) && w.secondPt == ParametricPoint(second, None)
    ensures w.width == width && w.height == height && w.openings == [] && w.id == id
  {
    Wall(NewParametricPoint(first), NewParametricPoint(second), width, height, [], id)
  }

  // ---- Data ----

  /** The property bag the wall reports in its mesh metadata. */
  function Properties(w: Wall): map<string, Json> {
    map["Width" := JNum(w.width), "Height" := JNum(w.height),
        "First" := PointJson(w.firstPt.pt), "Second" := PointJson(w.secondPt.pt)]
  }

  function GetData(w: Wall, prop: string): (r: Result<Json>)
    ensures r.Ok? <==> prop in {"Width", "Height", "First", "Second"}
    ensures r.Err? ==> r.error == PropertyNotFound
    ensures r.Ok? ==> r.value == Properties(w)[prop]
  {
    match prop
    case "Width" => Ok(JNum(w.width))
    case "Height" => Ok(JNum(w.height))
    case "First" => Ok(PointJson(w.firstPt.pt))
    case "Second" => Ok(PointJson(w.secondPt.pt))
    case _ => Err(PropertyNotFound)
  }

  /** set_data: a numeric Width and a numeric Height are taken; anything else is ignored. */
  function SetData(w: Wall, data: Json): (r: (Wall, Status))
    ensures r.1.Ok? <==> Index(data, "Width").JNum? || Index(data, "Height").JNum?
    ensures r.1.Err? ==> r.1.error == PropertyNotFound && r.0 == w
    ensures r.0.width == (if Index(data, "Width").JNum? then Index(data, "Width").n else w.width)
    ensures r.0.height == (if Index(data, "Height").JNum? then Index(data, "Height").n else w.height)
    ensures r.0 == w.(width := r.0.width, height := r.0.height)
  {
    var afterWidth := if Index(data, "Width").JNum? then w.(width := Index(data, "Width").n) else w;
    var afterHeight := if Index(data, "Height").JNum? then afterWidth.(height := Index(data, "Height").n) else afterWidth;
    var changed := Index(data, "Width").JNum? || Index(data, "Height").JNum?;
    if changed then (afterHeight, Success) else (w, Err(PropertyNotFound))
  }

  /** Writing back the value just read is a successful no-op. */
  lemma SetDataOfGetData(w: Wall, prop: string)
    requires prop == "Width" || prop == "Height"
    ensures SetData(w, JObj(map[prop := GetData(w, prop).value])) == (w, Success)
  {
    var d := JObj(map[prop := GetData(w, prop).value]);
    assert Index(d, prop) == GetData(w, prop).value;
  }

  /** A value written is the value read back. */
  lemma GetDataOfSetData(w: Wall, n: real)
    ensures GetData(SetData(w, JObj(map["Width" := JNum(n)])).0, "Width") == Ok(JNum(n))
    ensures GetData(SetData(w, JObj(map["Height" := JNum(n)])).0, "Height") == Ok(JNum(n))
  {
    assert Index(JObj(map["Width" := JNum(n)]), "Width") == JNum(n);
    assert Index(JObj(map["Height" := JNum(n)]), "Height") == JNum(n);
  }

  /**
   * update: openings that no longer follow anything are discarded, and the
   * mesh carries the wall's metadata, taken before the openings are
   * filtered; to_json is defined outside the modelled crates, so its
   * type/traits/obj shape is assumed. The extra text padding and the
   * triangulation of the wall with its openings are not modelled.
   */
  function Update(w: Wall): (r: (Wall, UpdateMsg))
    ensures r.0 == w.(openings := Referenced(w.openings))
    ensures r.1 == Mesh(MeshData(w.id, [], [], Some(Metadata("Wall", ["ReferTo", "Position", "UpdateFromRefs"], Properties(w)))))
  {
    var kept := Referenced(w.openings);
    var w1 := w.(openings := kept);
    (w1, Mesh(MeshData(w.id, [], [], Some(Metadata("Wall", ["ReferTo", "Position", "UpdateFromRefs"], Properties(w1))))))
  }

  /**
   * retain(|open| open.refer != None): every opening that follows something
   * is kept, as often as it occurs, and every other one is dropped; the
   * order is kept (ReferencedAppend).
   */
  function Referenced(ops: seq<ParametricPoint>): (r: seq<ParametricPoint>)
    ensures forall i :: 0 <= i < |r| ==> r[i].refer.Some?
    ensures forall p :: multiset(r)[p] == if p.refer.Some? then multiset(ops)[p] else 0
    ensures (forall i :: 0 <= i < |ops| ==> ops[i].refer.Some?) ==> r == ops
  {
    if ops == [] then []
    else
      assert ops == [ops[0]] + ops[1..];
      assert multiset(ops) == multiset([ops[0]]) + multiset(ops[1..]);
      if ops[0].refer.Some? then [ops[0]] + Referenced(ops[1..]) else Referenced(ops[1..])
  }

  /** Retaining distributes over concatenation, so the kept openings stay in their order. */
  lemma {:induction false} ReferencedAppend(a: seq<ParametricPoint>, b: seq<ParametricPoint>)
    ensures Referenced(a + b) == Referenced(a) + Referenced(b)
    decreases |a|
  {
    if a == [] {
      assert a + b == b;
    } else {
      assert (a + b)[1..] == a[1..] + b;
      ReferencedAppend(a[1..], b);
      if a[0].refer.Some? {
        calc {
          Referenced(a + b);
          [a[0]] + Referenced(a[1..] + b);
          [a[0]] + (Referenced(a[1..]) + Referenced(b));
          ([a[0]] + Referenced(a[1..])) + Referenced(b);
        }
      }
    }
  }

  /** A single opening is kept exactly when it follows something. */
  lemma ReferencedSingle(p: ParametricPoint)
    ensures Referenced([p]) == if p.refer.Some? then [p] else []
  {
    assert [p][1..] == [];
  }

  function TempRepr(w: Wall): (m: UpdateMsg)
    ensures m.Mesh? && m.mesh.id == w.id && m.mesh.metadata.None?
  {
    Mesh(MeshData(w.id, [], [], None))
  }

  // ---- ReferTo ----

  function GetPoint(w: Wall, index: nat): (r: Option<Point3>)
    ensures r.Some? <==> index < NumPoints(w)
  {
    if index == 0 then Some(w.firstPt.pt)
    else if index == 1 then Some(w.secondPt.pt)
    else if index - 2 < |w.openings| then Some(w.openings[index - 2].pt)
    else None
  }

  function NumPoints(w: Wall): nat {
    2 + |w.openings|
  }

  /** get_all_points as a value: both ends, then every opening point. */
  function AllPoints(w: Wall): seq<Point3> {
    [w.firstPt.pt, w.secondPt.pt] + seq(|w.openings|, i requires 0 <= i < |w.openings| => w.openings[i].pt)
  }

  /** The list of all points is the indexed access, point by point. */
  lemma AllPointsIndexed(w: Wall)
    ensures |AllPoints(w)| == NumPoints(w)
    ensures forall i :: 0 <= i < NumPoints(w) ==> GetPoint(w, i) == Some(AllPoints(w)[i])
  {
  }

  method GetAllPoints(w: Wall) returns (results: seq<Point3>)
    ensures results == AllPoints(w)
  {
    results := [w.firstPt.pt, w.secondPt.pt];
    var i := 0;
    while i < |w.openings|
      invariant 0 <= i <= |w.openings|
      invariant results == AllPoints(w)[..i + 2]
    {
      results := results + [w.openings[i].pt];
      i := i + 1;
    }
  }

  // ---- UpdateFromRefs ----

  function Cleared(w: Wall): Wall {
    w.(firstPt := w.firstPt.(refer := None), secondPt := w.secondPt.(refer := None),
       openings := seq(|w.openings|, i requires 0 <= i < |w.openings| => w.openings[i].(refer := None)))
  }

  method ClearRefs(w: Wall) returns (r: Wall)
    ensures r == Cleared(w)
  {
    r := w.(firstPt := w.firstPt.(refer := None), secondPt := w.secondPt.(refer := None));
    var i := 0;
    while i < |r.openings|
      invariant |r.openings| == |w.openings| && 0 <= i <= |r.openings|
      invariant r == Cleared(w).(openings := r.openings)
      invariant forall k :: 0 <= k < i ==> r.openings[k] == w.openings[k].(refer := None)
      invariant forall k :: i <= k < |r.openings| ==> r.openings[k] == w.openings[k]
    {
      r := r.(openings := r.openings[i := r.openings[i].(refer := None)]);
      i := i + 1;
    }
  }

  /** A cleared wall keeps its geometry and follows nothing. */
  lemma ClearedForgetsReferences(w: Wall)
    ensures AllPoints(Cleared(w)) == AllPoints(w)
    ensures Refs(Cleared(w)) == [None, None]
    ensures AvailableRefs(Cleared(w)) == [0, 1]
  {
    TriplesOfUnreferenced(Cleared(w).id, Cleared(w).openings, 0);
  }

  function EndRef(id: RefID, index: nat, p: ParametricPoint): (r: Option<GeomReference>)
    ensures p.refer.None? <==> r.None?
    ensures r.Some? ==> r.value == GeomReference(GeometryId(id, index), p.refer.value)
  {
    if p.refer.Some? then Some(GeomReference(GeometryId(id, index), p.refer.value)) else None
  }

  /** The nine references of a complete, fully referenced opening triple starting at i; none otherwise. */
  function TripleEntries(id: RefID, ops: seq<ParametricPoint>, i: nat): seq<Option<GeomReference>> {
    if i + 2 < |ops| && ops[i].refer.Some? && ops[i + 1].refer.Some? && ops[i + 2].refer.Some? then
      var r1 := GeometryId(id, i + 2);
      var r2 := GeometryId(id, i + 3);
      var r3 := GeometryId(id, i + 4);
      [Some(GeomReference(r1, ops[i].refer.value)), Some(GeomReference(r2, ops[i + 1].refer.value)),
       Some(GeomReference(r3, ops[i + 2].refer.value)),
       Some(GeomReference(r1, r2)), Some(GeomReference(r1, r3)), Some(GeomReference(r2, r1)),
       Some(GeomReference(r2, r3)), Some(GeomReference(r3, r1)), Some(GeomReference(r3, r2))]
    else []
  }

  /** The opening references from triple i onwards, stepping by three. */
  function Triples(id: RefID, ops: seq<ParametricPoint>, i: nat): seq<Option<GeomReference>>
    decreases |ops| - i
  {
    if i >= |ops| then [] else TripleEntries(id, ops, i) + Triples(id, ops, i + 3)
  }

  /** get_refs as a value: one entry per end point (None when it follows nothing), then the opening triples. */
  function Refs(w: Wall): seq<Option<GeomReference>> {
    [EndRef(w.id, 0, w.firstPt), EndRef(w.id, 1, w.secondPt)] + Triples(w.id, w.openings, 0)
  }

  /** The body of get_refs' loop over the openings: the references of the triple at i. */
  method TripleRefs(id: RefID, ops: seq<ParametricPoint>, i: nat) returns (chunk: seq<Option<GeomReference>>)
    ensures chunk == TripleEntries(id, ops, i)
  {
    chunk := [];
    if i + 2 < |ops| {
      var p1, p2, p3 := ops[i], ops[i + 1], ops[i + 2];
      if p1.refer.Some? && p2.refer.Some? && p3.refer.Some? {
        var r1 := GeometryId(id, i + 2);
        var r2 := GeometryId(id, i + 3);
        var r3 := GeometryId(id, i + 4);
        chunk := [Some(GeomReference(r1, p1.refer.value)), Some(GeomReference(r2, p2.refer.value)),
                  Some(GeomReference(r3, p3.refer.value)),
                  Some(GeomReference(r1, r2)), Some(GeomReference(r1, r3)),
                  Some(GeomReference(r2, r1)), Some(GeomReference(r2, r3)),
                  Some(GeomReference(r3, r1)), Some(GeomReference(r3, r2))];
      }
    }
  }

  method GetRefs(w: Wall) returns (results: seq<Option<GeomReference>>)
    ensures results == Refs(w)
  {
    var firstRef, secondRef := None, None;
    if w.firstPt.refer.Some? {
      firstRef := Some(GeomReference(GeometryId(w.id, 0), w.firstPt.refer.value));
    }
    if w.secondPt.refer.Some? {
      secondRef := Some(GeomReference(GeometryId(w.id, 1), w.secondPt.refer.value));
    }
    results := [firstRef, secondRef];
    var ops := w.openings;
    var i := 0;
    while i < |ops|
      invariant results + Triples(w.id, ops, i) == Refs(w)
      decreases |ops| - i
    {
      var chunk := TripleRefs(w.id, ops, i);
      ghost var rest := Triples(w.id, ops, i + 3);
      assert Triples(w.id, ops, i) == chunk + rest;
      assert (results + chunk) + rest == results + (chunk + rest);
      results := results + chunk;
      i := i + 3;
    }
  }

  lemma {:induction false} TriplesOfUnreferenced(id: RefID, ops: seq<ParametricPoint>, i: nat)
    requires forall k :: 0 <= k < |ops| ==> ops[k].refer.None?
    ensures Triples(id, ops, i) == []
    decreases |ops| - i
  {
    if i < |ops| {
      TriplesOfUnreferenced(id, ops, i + 3);
    }
  }

  /** Every reference of a triple is owned by one of the wall's own opening slots. */
  lemma {:induction false} TriplesOwned(id: RefID, ops: seq<ParametricPoint>, i: nat)
    ensures forall k :: 0 <= k < |Triples(id, ops, i)| && Triples(id, ops, i)[k].Some? ==>
      Triples(id, ops, i)[k].value.owner.obj == id && 2 <= Triples(id, ops, i)[k].value.owner.index < 2 + |ops|
    decreases |ops| - i
  {
    if i < |ops| {
      TriplesOwned(id, ops, i + 3);
    }
  }

  /** Every reference the wall reports is owned by the wall, at one of its reference slots. */
  lemma RefsOwned(w: Wall)
    ensures |Refs(w)| >= 2
    ensures forall k :: 0 <= k < |Refs(w)| && Refs(w)[k].Some? ==>
      Refs(w)[k].value.owner.obj == w.id && Refs(w)[k].value.owner.index < NumRefs(w)
  {
    TriplesOwned(w.id, w.openings, 0);
  }

  function AvailableRefs(w: Wall): (r: seq<nat>)
    ensures forall k :: k in r <==> (k == 0 && w.firstPt.refer.None?) || (k == 1 && w.secondPt.refer.None?)
  {
    (if w.firstPt.refer.None? then [0] else []) + (if w.secondPt.refer.None? then [1] else [])
  }

  function NumRefs(w: Wall): nat {
    2 + |w.openings|
  }

  /** The parametric point at an index: the two ends, then the openings. */
  function PointAt(w: Wall, index: nat): Option<ParametricPoint> {
    if index == 0 then Some(w.firstPt)
    else if index == 1 then Some(w.secondPt)
    else if index - 2 < |w.openings| then Some(w.openings[index - 2])
    else None
  }

  /** set_ref: the indexed point takes the result and follows other; an index past the openings changes nothing. */
  function SetRef(w: Wall, index: nat, result: Point3, other: GeometryId): (r: Wall)
    ensures index < NumPoints(w) ==> PointAt(r, index) == Some(ParametricPoint(result, Some(other)))
    ensures index < NumPoints(w) ==> GetPoint(r, index) == Some(result)
    ensures forall j :: j != index ==> PointAt(r, j) == PointAt(w, j)
    ensures index >= NumPoints(w) ==> r == w
    ensures r.width == w.width && r.height == w.height && r.id == w.id && |r.openings| == |w.openings|
  {
    if index == 0 then w.(firstPt := SetReference(w.firstPt, result, other))
    else if index == 1 then w.(secondPt := SetReference(w.secondPt, result, other))
    else if index - 2 < |w.openings| then
      w.(openings := w.openings[index - 2 := SetReference(w.openings[index - 2], result, other)])
    else w
  }

  /** An end given a reference is no longer offered, and get_refs reports it with the wall as owner. */
  lemma SetRefTakesEnd(w: Wall, index: nat, result: Point3, other: GeometryId)
    requires index < 2
    ensures index !in AvailableRefs(SetRef(w, index, result, other))
    ensures Refs(SetRef(w, index, result, other))[index] == Some(GeomReference(GeometryId(w.id, index), other))
  {
  }

  /** add_ref always succeeds: a new opening point at result, following other, after the others; nothing else changes. */
  function AddRef(w: Wall, result: Point3, other: GeometryId): (r: (Wall, bool))
    ensures r.1
    ensures r.0 == w.(openings := w.openings + [ParametricPoint(result, Some(other))])
    ensures NumPoints(r.0) == NumPoints(w) + 1 && GetPoint(r.0, NumPoints(w)) == Some(result)
  {
    var newOpen := NewParametricPoint(result);
    (w.(openings := w.openings + [SetReference(newOpen, newOpen.pt, other)]), true)
  }

  /** delete_ref: an end point stops following; an opening in range is removed; nothing else changes. */
  function DeleteRef(w: Wall, index: nat): (r: Wall)
    ensures index == 0 ==> r == w.(firstPt := w.firstPt.(refer := None))
    ensures index == 1 ==> r == w.(secondPt := w.secondPt.(refer := None))
    ensures index >= 2 && index - 2 < |w.openings| ==> r == w.(openings := w.openings[..index - 2] + w.openings[index - 1..])
    ensures index >= NumPoints(w) ==> r == w
  {
    if index == 0 then w.(firstPt := w.firstPt.(refer := None))
    else if index == 1 then w.(secondPt := w.secondPt.(refer := None))
    else if |w.openings| > index - 2 then w.(openings := w.openings[..index - 2] + w.openings[index - 1..])
    else w
  }

  /** Deleting the opening just added gives the wall back. */
  lemma {:induction false} DeleteRefUndoesAddRef(w: Wall, result: Point3, other: GeometryId)
    ensures DeleteRef(AddRef(w, result, other).0, NumPoints(w)) == w
  {
    var ops := AddRef(w, result, other).0.openings;
    assert ops[..|w.openings|] == w.openings;
    assert ops[|w.openings| + 1..] == [];
    assert ops[..|w.openings|] + ops[|w.openings| + 1..] == w.openings;
  }

  function AssociatedPoint(w: Wall, index: nat): (r: Option<Point3>)
    ensures r == GetPoint(w, index)
  {
    if index == 0 then Some(w.firstPt.pt)
    else if index == 1 then Some(w.secondPt.pt)
    else if index - 2 < |w.openings| then Some(w.openings[index - 2].pt)
    else None
  }

  /** set_associated_point: the indexed point is updated (moved by a present geometry, detached by an absent one); nothing else changes. */
  function SetAssociatedPoint(w: Wall, index: nat, geom: Option<Point3>): (r: Wall)
    ensures index < NumPoints(w) && geom.Some? ==> PointAt(r, index) == Some(PointAt(w, index).value.(pt := geom.value))
    ensures index < NumPoints(w) && geom.None? ==> PointAt(r, index) == Some(PointAt(w, index).value.(refer := None))
    ensures geom.Some? && index < NumPoints(w) ==> GetPoint(r, index) == geom
    ensures forall j :: j != index ==> PointAt(r, j) == PointAt(w, j)
    ensures index >= NumPoints(w) ==> r == w
    ensures r.width == w.width && r.height == w.height && r.id == w.id && |r.openings| == |w.openings|
  {
    if index == 0 then w.(firstPt := UpdatePoint(w.firstPt, geom))
    else if index == 1 then w.(secondPt := UpdatePoint(w.secondPt, geom))
    else if index - 2 < |w.openings| then
      w.(openings := w.openings[index - 2 := UpdatePoint(w.openings[index - 2], geom)])
    else w
  }

  // ---- Position ----

  /** move_obj translates both end points; the opening points stay where they are. */
  function MoveObj(w: Wall, delta: Vector3): (r: Wall)
    ensures r.firstPt.pt == Translate(w.firstPt.pt, delta) && r.secondPt.pt == Translate(w.secondPt.pt, delta)
    ensures r.firstPt.refer == w.firstPt.refer && r.secondPt.refer == w.secondPt.refer
    ensures r == w.(firstPt := r.firstPt, secondPt := r.secondPt)
  {
    w.(firstPt := w.firstPt.(pt := Translate(w.firstPt.pt, delta)),
       secondPt := w.secondPt.(pt := Translate(w.secondPt.pt, delta)))
  }

  lemma MoveBack(w: Wall, delta: Vector3)
    ensures MoveObj(MoveObj(w, delta), Negate(delta)) == w
  {
    TranslateBack(w.firstPt.pt, delta);
    TranslateBack(w.secondPt.pt, delta);
  }
}
