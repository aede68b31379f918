/**
 * The client's operations layer (one module of state in the source): the
 * open file's name, the registries of promises waiting for a change to an
 * object or for the answer to a query, the renderer's scene, and the calls
 * made on the kernel, either as a packet on the socket or as a direct call
 * into the native kernel.
 *
 * A promise is a token handed out in order; resolving one is recorded in
 * `resolved` with the value it is resolved with. Ids the kernel mints for
 * undo events and queries are parameters.
 */
module ClientSession {
  import opened Base
  import opened JsValues
  import opened Scene

  type Token = nat

  /** A promise settled: with the scene node of the changed object (or null), or with a query's answer. */
  datatype Resolution = Changed(token: Token, mesh: Option<Entry>) | ReadDone(token: Token, value: Json)

  /** The part of the session that incoming messages act on. */
  datatype View = View(changes: map<string, seq<Token>>, queries: map<string, Token>, scene: SceneMap, resolved: seq<Resolution>)

  /** An argument to a native kernel call: a value, or the JSON text of a value. */
  datatype Arg = Val(v: Json) | Text(v: Json)

  /** A kernel call: a packet sent on the socket, or a native call by name. */
  datatype KernelCall = Sent(packet: Json) | Native(name: string, args: seq<Arg>)

  /** What the client builds for one synchronous call it hands to the kernel, or for a preview. */
  datatype DataObject = DataObject(tempRepr: Json, obj: Json, id: string)

  /** The packet of a call on the socket: exactly the function name and the parameters. */
  function Packet(func: string, params: seq<Json>): (m: Json)
    ensures m.JObj? && m.fields.Keys == {"func_name", "params"}
    ensures Index(m, "func_name") == JStr(func) && Index(m, "params") == JArr(params)
  {
    JObj(map["func_name" := JStr(func), "params" := JArr(params)])
  }

  function Vals(js: seq<Json>): (r: seq<Arg>)
    ensures |r| == |js| && forall i :: 0 <= i < |js| ==> r[i] == Val(js[i])
  {
    seq(|js|, i requires 0 <= i < |js| => Val(js[i]))
  }

  /** The call a facade makes: a packet when a socket is open, otherwise the native call. */
  function Route(connected: bool, func: string, params: seq<Json>, native: string, args: seq<Arg>): (c: KernelCall)
    ensures c.Sent? <==> connected
    ensures c.Sent? ==> c.packet == Packet(func, params)
    ensures c.Native? ==> c.name == native && c.args == args
  {
    if connected then Sent(Packet(func, params)) else Native(native, args)
  }

  function Strs(ids: seq<string>): (r: seq<Json>)
    ensures |r| == |ids| && forall i :: 0 <= i < |ids| ==> r[i] == JStr(ids[i])
  {
    seq(|ids|, i requires 0 <= i < |ids| => JStr(ids[i]))
  }

  /** An array of [id, data] pairs, as setObjectsDatas sends it. */
  function Pairs(data: seq<(string, Json)>): (r: Json)
    ensures r.JArr? && |r.items| == |data|
    ensures forall i :: 0 <= i < |data| ==> r.items[i] == JArr([JStr(data[i].0), data[i].1])
  {
    JArr(seq(|data|, i requires 0 <= i < |data| => JArr([JStr(data[i].0), data[i].1])))
  }

  function Firsts(data: seq<(string, Json)>): (r: seq<string>)
    ensures |r| == |data| && forall i :: 0 <= i < |data| ==> r[i] == data[i].0
  {
    seq(|data|, i requires 0 <= i < |data| => data[i].0)
  }

  // ---------------------------------------------------------------------
  // Rendering a message the client builds itself

  /**
   * renderTempObject's rendering, with the temp flag a parameter: the Mesh
   * part under the mesh's own id, then the Other part under the object's
   * own id.
   */
  function RenderRepr(s: SceneMap, msg: Json, temp: bool): (r: SceneMap)
    ensures !Truthy(Index(msg, "Mesh")) && !Truthy(Index(msg, "Other")) ==> r == s
    ensures Truthy(Index(msg, "Other")) && TypeOf(Index(Index(msg, "Other"), "data")) == JStr("Dimension") ==>
      KeyText(Index(Index(Index(msg, "Other"), "data"), "id")) in r
    ensures Truthy(Index(msg, "Mesh")) ==> KeyText(Index(Index(Index(msg, "Mesh"), "data"), "id")) in r
    ensures s.Keys <= r.Keys
  {
    var mesh := Index(msg, "Mesh");
    var other := Index(msg, "Other");
    var s1 := if Truthy(mesh) then RenderMesh(s, Index(mesh, "data"), KeyText(Index(Index(mesh, "data"), "id")), temp) else s;
    if Truthy(other) then RenderObject(s1, Index(other, "data"), KeyText(Index(Index(other, "data"), "id")), temp) else s1
  }

  /**
   * renderFromMsg as written: the Other part is drawn under the Mesh part's
   * id. When there is no Mesh part, reading its id throws a TypeError,
   * written here as None.
   */
  function RenderFromMsgAsWritten(s: SceneMap, msg: Json): (r: Option<SceneMap>)
    ensures r.None? <==> Truthy(Index(msg, "Other")) && !Truthy(Index(msg, "Mesh"))
  {
    var mesh := Index(msg, "Mesh");
    var other := Index(msg, "Other");
    var s1 := if Truthy(mesh) then RenderMesh(s, Index(mesh, "data"), KeyText(Index(Index(mesh, "data"), "id")), false) else s;
    if Truthy(other) then
      if Truthy(mesh) then Some(RenderObject(s1, Index(other, "data"), KeyText(Index(Index(mesh, "data"), "id")), false))
      else None
    else Some(s1)
  }

  /** The wire form of an Other update, as the kernel's get_temp_repr gives it for a dimension. */
  function OtherMsg(data: Json): (m: Json)
    ensures Index(Index(m, "Other"), "data") == data && Index(m, "Mesh") == JNull
  {
    JObj(map["Other" := JObj(map["data" := data])])
  }

  /** As written, committing a dimension's preview throws before anything is sent. */
  lemma RenderFromMsgThrowsForDimension(s: SceneMap, data: Json)
    ensures RenderFromMsgAsWritten(s, OtherMsg(data)) == None
  {
  }

  /** The corrected rendering (the one renderTempObject does, not temporary) draws a dimension under its own id. */
  lemma RenderFromMsgCorrected(s: SceneMap, data: Json)
    requires TypeOf(data) == JStr("Dimension")
    ensures var r := RenderRepr(s, OtherMsg(data), false);
      KeyText(Index(data, "id")) in r && r[KeyText(Index(data, "id"))].payload == data
  {
  }

  /** Where the message has only a Mesh part, the as-written rendering agrees with the corrected one. */
  lemma RenderFromMsgAgreesOnMeshes(s: SceneMap, msg: Json)
    requires !Truthy(Index(msg, "Other"))
    ensures RenderFromMsgAsWritten(s, msg) == Some(RenderRepr(s, msg, false))
  {
  }

  // ---------------------------------------------------------------------
  // Incoming messages

  /** The change part of a message: the Mesh part, then the Other part, each rendered; the id is the last one read. */
  function RenderChange(s: SceneMap, msg: Json): (r: (SceneMap, Json))
    ensures Truthy(Index(msg, "Other")) ==> r.1 == Index(Index(Index(msg, "Other"), "data"), "id")
    ensures !Truthy(Index(msg, "Other")) && Truthy(Index(msg, "Mesh")) ==> r.1 == Index(Index(Index(msg, "Mesh"), "data"), "id")
    ensures !Truthy(Index(msg, "Other")) && !Truthy(Index(msg, "Mesh")) ==> r == (s, JNull)
    ensures r.0 == RenderRepr(s, msg, false)
  {
    var mesh := Index(msg, "Mesh");
    var other := Index(msg, "Other");
    var s1 := if Truthy(mesh) then RenderMesh(s, Index(mesh, "data"), KeyText(Index(Index(mesh, "data"), "id")), false) else s;
    var id1 := if Truthy(mesh) then Index(Index(mesh, "data"), "id") else JNull;
    if Truthy(other) then (RenderObject(s1, Index(other, "data"), KeyText(Index(Index(other, "data"), "id")), false), Index(Index(other, "data"), "id"))
    else (s1, id1)
  }

  function ResolveAll(ws: seq<Token>, mesh: Option<Entry>): (r: seq<Resolution>)
    ensures |r| == |ws| && forall i :: 0 <= i < |ws| ==> r[i] == Changed(ws[i], mesh)
  {
    seq(|ws|, i requires 0 <= i < |ws| => Changed(ws[i], mesh))
  }

  /** Dispatching a change message once the scene is rendered and the id known. */
  function Settle(v: View, s: SceneMap, id: Json): (r: View)
  {
    var k := KeyText(id);
    if Truthy(id) && k in v.changes then
      v.(scene := s, changes := v.changes - {k}, resolved := v.resolved + ResolveAll(v.changes[k], GetMesh(s, k)))
    else v.(scene := s)
  }

  /** Dispatching a Read part: its waiter, if any, is settled with the answer and removed. */
  function Answer(v: View, read: Json): (r: View)
  {
    var q := KeyText(Index(read, "query_id"));
    if q in v.queries then v.(queries := v.queries - {q}, resolved := v.resolved + [ReadDone(v.queries[q], Index(read, "data"))])
    else v
  }

  /** handleUpdate's priority: Error, then Delete, then Read, then the change parts. */
  function Dispatch(v: View, msg: Json): (r: View)
    ensures v.resolved <= r.resolved
  {
    if Truthy(Index(msg, "Error")) then v
    else if Truthy(Index(msg, "Delete")) then
      v.(scene := DeleteMesh(v.scene, KeyText(Index(Index(msg, "Delete"), "key"))))
    else if Truthy(Index(msg, "Read")) then Answer(v, Index(msg, "Read"))
    else
      var p := RenderChange(v.scene, msg);
      Settle(v, p.0, p.1)
  }

  /** An Error message changes nothing. */
  lemma DispatchError(v: View, msg: Json)
    requires Truthy(Index(msg, "Error"))
    ensures Dispatch(v, msg) == v
  {
  }

  /** A Delete message removes that scene node and nothing else; no waiter, pending or settled, is touched. */
  lemma DispatchDelete(v: View, msg: Json)
    requires !Truthy(Index(msg, "Error")) && Truthy(Index(msg, "Delete"))
    ensures var r := Dispatch(v, msg); var k := KeyText(Index(Index(msg, "Delete"), "key"));
      r.changes == v.changes && r.queries == v.queries && r.resolved == v.resolved &&
      r.scene.Keys == v.scene.Keys - {k} && forall n :: n in r.scene ==> r.scene[n] == v.scene[n]
  {
  }

  /** A Read message settles the one waiter on that query, if any, with the answer, and leaves the scene alone. */
  lemma DispatchRead(v: View, msg: Json)
    requires !Truthy(Index(msg, "Error")) && !Truthy(Index(msg, "Delete")) && Truthy(Index(msg, "Read"))
    ensures var r := Dispatch(v, msg); var q := KeyText(Index(Index(msg, "Read"), "query_id"));
      r.scene == v.scene && r.changes == v.changes &&
      (q !in v.queries ==> r == v) &&
      (q in v.queries ==>
         r.queries == v.queries - {q} &&
         r.resolved == v.resolved + [ReadDone(v.queries[q], Index(Index(msg, "Read"), "data"))])
  {
  }

  /**
   * A change message renders its parts, settles every waiter on its id in
   * the order they registered with the node now in the scene, and clears
   * that id only; query waiters are untouched.
   */
  lemma DispatchChange(v: View, msg: Json)
    requires !Truthy(Index(msg, "Error")) && !Truthy(Index(msg, "Delete")) && !Truthy(Index(msg, "Read"))
    ensures var r := Dispatch(v, msg); var id := RenderChange(v.scene, msg).1; var k := KeyText(id);
      r.scene == RenderRepr(v.scene, msg, false) && r.queries == v.queries &&
      (Truthy(id) && k in v.changes ==>
         r.changes == v.changes - {k} &&
         r.resolved == v.resolved + ResolveAll(v.changes[k], GetMesh(r.scene, k))) &&
      (!(Truthy(id) && k in v.changes) ==> r.changes == v.changes && r.resolved == v.resolved)
  {
  }

  /** When a message has both parts, the waiters on the Other part's id are the ones settled. */
  lemma DispatchOtherIdWins(v: View, msg: Json, w: Token)
    requires !Truthy(Index(msg, "Error")) && !Truthy(Index(msg, "Delete")) && !Truthy(Index(msg, "Read"))
    requires Truthy(Index(msg, "Mesh")) && Truthy(Index(msg, "Other"))
    requires var id := Index(Index(Index(msg, "Other"), "data"), "id"); Truthy(id) && KeyText(id) in v.changes
    ensures var k := KeyText(Index(Index(Index(msg, "Other"), "data"), "id"));
      k !in Dispatch(v, msg).changes &&
      Dispatch(v, msg).resolved == v.resolved + ResolveAll(v.changes[k], GetMesh(Dispatch(v, msg).scene, k))
  {
    DispatchChange(v, msg);
  }

  /** A promise waiting on an object settles when a change message for that object arrives. */
  lemma DispatchSettlesWaiter(v: View, msg: Json, id: string, w: Token)
    requires !Truthy(Index(msg, "Error")) && !Truthy(Index(msg, "Delete")) && !Truthy(Index(msg, "Read"))
    requires RenderChange(v.scene, msg).1 == JStr(id) && id != ""
    requires id in v.changes && w in v.changes[id]
    ensures Changed(w, GetMesh(Dispatch(v, msg).scene, id)) in Dispatch(v, msg).resolved
  {
    DispatchChange(v, msg);
    var i :| 0 <= i < |v.changes[id]| && v.changes[id][i] == w;
    var r := Dispatch(v, msg);
    assert r.resolved[|v.resolved| + i] == Changed(w, GetMesh(r.scene, id));
  }

  /** handleUpdates: the batch dispatched in order. */
  function DispatchAll(v: View, msgs: seq<Json>): (r: View)
    decreases |msgs|
  {
    if msgs == [] then v else Dispatch(DispatchAll(v, msgs[..|msgs| - 1]), msgs[|msgs| - 1])
  }

  /** Dispatching two batches one after the other is dispatching them joined. */
  lemma {:induction false} DispatchAllAppend(v: View, a: seq<Json>, b: seq<Json>)
    ensures DispatchAll(v, a + b) == DispatchAll(DispatchAll(v, a), b)
    decreases |b|
  {
    if b == [] {
      assert a + b == a;
    } else {
      assert (a + b)[..|a + b| - 1] == a + b[..|b| - 1];
      assert (a + b)[|a + b| - 1] == b[|b| - 1];
      DispatchAllAppend(v, a, b[..|b| - 1]);
    }
  }

  /** A settled promise stays settled: dispatching only adds to the record. */
  lemma {:induction false} DispatchAllKeepsSettled(v: View, msgs: seq<Json>)
    ensures v.resolved <= DispatchAll(v, msgs).resolved
    decreases |msgs|
  {
    if msgs != [] {
      DispatchAllKeepsSettled(v, msgs[..|msgs| - 1]);
    }
  }

  // ---------------------------------------------------------------------
  // The waiter registries

  function Waiters(m: map<string, seq<Token>>, id: string): seq<Token> {
    if id in m then m[id] else []
  }

  /** addPendingChange: one more waiter at the end of the id's list; other ids untouched. */
  function AddWaiter(m: map<string, seq<Token>>, id: string, w: Token): (r: map<string, seq<Token>>)
    ensures r.Keys == m.Keys + {id}
    ensures Waiters(r, id) == Waiters(m, id) + [w]
    ensures forall k :: k != id ==> Waiters(r, k) == Waiters(m, k)
  {
    m[id := Waiters(m, id) + [w]]
  }

  /** waitForAllChanges: one waiter per listed id, tokens handed out in list order from t0. */
  function AddWaiters(m: map<string, seq<Token>>, ids: seq<string>, t0: Token): (r: map<string, seq<Token>>)
    decreases |ids|
  {
    if ids == [] then m else AddWaiter(AddWaiters(m, ids[..|ids| - 1], t0), ids[|ids| - 1], t0 + |ids| - 1)
  }

  /** The tokens handed to the positions of ids that list k, in order. */
  function TokensFor(ids: seq<string>, k: string, t0: Token): (r: seq<Token>)
    decreases |ids|
  {
    if ids == [] then []
    else TokensFor(ids[..|ids| - 1], k, t0) + (if ids[|ids| - 1] == k then [t0 + |ids| - 1] else [])
  }

  function Occurrences(ids: seq<string>, k: string): nat
    decreases |ids|
  {
    if ids == [] then 0 else Occurrences(ids[..|ids| - 1], k) + (if ids[|ids| - 1] == k then 1 else 0)
  }

  /** The ids listed. */
  function IdSet(ids: seq<string>): (r: set<string>)
    ensures forall i :: 0 <= i < |ids| ==> ids[i] in r
    decreases |ids|
  {
    if ids == [] then {} else IdSet(ids[..|ids| - 1]) + {ids[|ids| - 1]}
  }

  /**
   * After registering a batch, each id's waiters are its old ones followed
   * by the batch's tokens for it, one per listing (duplicates allowed).
   */
  lemma {:induction false} AddWaitersPerId(m: map<string, seq<Token>>, ids: seq<string>, t0: Token, k: string)
    ensures Waiters(AddWaiters(m, ids, t0), k) == Waiters(m, k) + TokensFor(ids, k, t0)
    ensures |TokensFor(ids, k, t0)| == Occurrences(ids, k)
    decreases |ids|
  {
    if ids != [] {
      AddWaitersPerId(m, ids[..|ids| - 1], t0, k);
    }
  }

  /** Registering a batch adds exactly the listed ids as keys. */
  lemma {:induction false} AddWaitersKeys(m: map<string, seq<Token>>, ids: seq<string>, t0: Token)
    ensures AddWaiters(m, ids, t0).Keys == m.Keys + IdSet(ids)
    decreases |ids|
  {
    if ids != [] {
      AddWaitersKeys(m, ids[..|ids| - 1], t0);
    }
  }

  // ---------------------------------------------------------------------
  // The session object

  class Session {
    const user: string
    var connected: bool
    var filename: string
    var pendingChanges: map<string, seq<Token>>
    var pendingReads: map<string, Token>
    var scene: SceneMap
    var resolved: seq<Resolution>
    var log: seq<KernelCall>
    var nextToken: Token

    function Snapshot(): (v: View)
      reads this
      ensures v.changes == pendingChanges && v.queries == pendingReads && v.scene == scene && v.resolved == resolved
    {
      View(pendingChanges, pendingReads, scene, resolved)
    }

    /** Every promise pending or settled was handed out: its token is below the next one. */
    ghost predicate Valid()
      reads this
    {
      TokensBelow(Snapshot(), nextToken)
    }

    /** A session with no file open yet; whether a socket is open is given. */
    constructor (user: string, connected: bool)
      ensures Valid()
      ensures this.user == user && this.connected == connected && filename == ""
      ensures pendingChanges == map[] && pendingReads == map[] && scene == map[] && resolved == [] && log == []
    {
      this.user := user;
      this.connected := connected;
      filename := "";
      pendingChanges := map[];
      pendingReads := map[];
      scene := map[];
      resolved := [];
      log := [];
      nextToken := 0;
    }

    /** Appends one routed call to the log; nothing else changes. */
    method Invoke(func: string, params: seq<Json>, native: string, args: seq<Arg>)
      modifies this
      ensures log == old(log) + [Route(connected, func, params, native, args)]
      ensures Snapshot() == old(Snapshot()) && nextToken == old(nextToken) && filename == old(filename) && connected == old(connected)
    {
      if connected {
        log := log + [Sent(Packet(func, params))];
      } else {
        log := log + [Native(native, args)];
      }
    }

    /** renderNext: poll the native kernel for updates; with a socket open, updates arrive by themselves. */
    method RenderNext()
      modifies this
      ensures log == old(log) + (if connected then [] else [Native("get_updates", [Val(JStr(filename))])])
      ensures Snapshot() == old(Snapshot()) && nextToken == old(nextToken) && filename == old(filename) && connected == old(connected)
    {
      if !connected {
        log := log + [Native("get_updates", [Val(JStr(filename))])];
      }
    }

    /** handleUpdate: one incoming message, as Dispatch describes it. */
    method HandleUpdate(msg: Json)
      requires Valid()
      modifies this
      ensures Valid()
      ensures Snapshot() == Dispatch(old(Snapshot()), msg)
      ensures log == old(log) && nextToken == old(nextToken) && filename == old(filename) && connected == old(connected)
    {
      DispatchKeepsTokensBelow(Snapshot(), msg, nextToken);
      if Truthy(Index(msg, "Error")) {
        // only logged to the console
      } else if Truthy(Index(msg, "Delete")) {
        scene := DeleteMesh(scene, KeyText(Index(Index(msg, "Delete"), "key")));
      } else if Truthy(Index(msg, "Read")) {
        HandleRead(Index(msg, "Read"));
      } else {
        HandleChange(msg);
      }
    }

    /** The Read branch of handleUpdate. */
    method HandleRead(read: Json)
      modifies this
      ensures Snapshot() == Answer(old(Snapshot()), read)
      ensures log == old(log) && nextToken == old(nextToken) && filename == old(filename) && connected == old(connected)
    {
      var q := KeyText(Index(read, "query_id"));
      if q in pendingReads {
        resolved := resolved + [ReadDone(pendingReads[q], Index(read, "data"))];
        pendingReads := pendingReads - {q};
      }
    }

    /** The change branch of handleUpdate: render the Mesh part, then the Other part, then settle the waiters on the last id read. */
    method HandleChange(msg: Json)
      modifies this
      ensures Snapshot() == Settle(old(Snapshot()), RenderChange(old(scene), msg).0, RenderChange(old(scene), msg).1)
      ensures log == old(log) && nextToken == old(nextToken) && filename == old(filename) && connected == old(connected)
    {
      var id := JNull;
      var mesh := Index(msg, "Mesh");
      var other := Index(msg, "Other");
      if Truthy(mesh) {
        id := Index(Index(mesh, "data"), "id");
        scene := RenderMesh(scene, Index(mesh, "data"), KeyText(id), false);
      }
      if Truthy(other) {
        id := Index(Index(other, "data"), "id");
        scene := RenderObject(scene, Index(other, "data"), KeyText(id), false);
      }
      if Truthy(id) {
        var k := KeyText(id);
        if k in pendingChanges {
          resolved := resolved + ResolveAll(pendingChanges[k], GetMesh(scene, k));
        }
        pendingChanges := pendingChanges - {k};
      }
    }

    /** handleUpdates: the batch in order unless the poll failed, then poll again. */
    method HandleUpdates(err: bool, updates: seq<Json>)
      requires Valid()
      modifies this
      ensures Valid()
      ensures Snapshot() == (if err then old(Snapshot()) else DispatchAll(old(Snapshot()), updates))
      ensures log == old(log) + (if connected then [] else [Native("get_updates", [Val(JStr(filename))])])
      ensures nextToken == old(nextToken) && filename == old(filename) && connected == old(connected)
    {
      if !err {
        var i := 0;
        while i < |updates|
          invariant 0 <= i <= |updates|
          invariant Valid()
          invariant Snapshot() == DispatchAll(old(Snapshot()), updates[..i])
          invariant log == old(log) && nextToken == old(nextToken) && filename == old(filename) && connected == old(connected)
        {
          assert updates[..i + 1][..i] == updates[..i];
          HandleUpdate(updates[i]);
          i := i + 1;
        }
        assert updates[..|updates|] == updates;
      }
      RenderNext();
    }

    /** addPendingChange: the waiter goes at the end of the id's list. */
    method AddPendingChange(id: string, w: Token)
      modifies this
      ensures pendingChanges == AddWaiter(old(pendingChanges), id, w)
      ensures pendingReads == old(pendingReads) && scene == old(scene) && resolved == old(resolved)
      ensures log == old(log) && nextToken == old(nextToken) && filename == old(filename) && connected == old(connected)
    {
      var arr := if id in pendingChanges then pendingChanges[id] else [];
      arr := arr + [w];
      pendingChanges := pendingChanges[id := arr];
    }

    /** addPendingRead: the waiter replaces any earlier waiter on the same query. */
    method AddPendingRead(id: string, w: Token)
      modifies this
      ensures pendingReads == old(pendingReads)[id := w]
      ensures pendingChanges == old(pendingChanges) && scene == old(scene) && resolved == old(resolved)
      ensures log == old(log) && nextToken == old(nextToken) && filename == old(filename) && connected == old(connected)
    {
      pendingReads := pendingReads[id := w];
    }

    /** waitForChange: a new promise, settled by the next change message for id. */
    method WaitForChange(id: string) returns (w: Token)
      requires Valid()
      modifies this
      ensures Valid()
      ensures w == old(nextToken) && nextToken == old(nextToken) + 1
      ensures pendingChanges == AddWaiter(old(pendingChanges), id, w)
      ensures pendingReads == old(pendingReads) && scene == old(scene) && resolved == old(resolved)
      ensures log == old(log) && filename == old(filename) && connected == old(connected)
    {
      w := nextToken;
      nextToken := nextToken + 1;
      AddPendingChange(id, w);
      AddWaiterKeepsTokensBelow(old(Snapshot()), id, w, nextToken);
    }

    /** waitForRead: a new promise, settled by the answer to query id. */
    method WaitForRead(id: string) returns (w: Token)
      requires Valid()
      modifies this
      ensures Valid()
      ensures w == old(nextToken) && nextToken == old(nextToken) + 1
      ensures pendingReads == old(pendingReads)[id := w]
      ensures pendingChanges == old(pendingChanges) && scene == old(scene) && resolved == old(resolved)
      ensures log == old(log) && filename == old(filename) && connected == old(connected)
    {
      w := nextToken;
      nextToken := nextToken + 1;
      AddPendingRead(id, w);
      TokensBelowGrows(old(Snapshot()), old(nextToken), nextToken);
    }

    /** One step of waitForAllChanges: the promise for the i-th id, after those for the ids before it. */
    method WaitForNext(ids: seq<string>, i: nat, ghost m0: map<string, seq<Token>>, ghost t0: Token) returns (w: Token)
      requires Valid() && i < |ids|
      requires pendingChanges == AddWaiters(m0, ids[..i], t0) && nextToken == t0 + i
      modifies this
      ensures Valid()
      ensures w == t0 + i && nextToken == t0 + i + 1
      ensures pendingChanges == AddWaiters(m0, ids[..i + 1], t0)
      ensures pendingReads == old(pendingReads) && scene == old(scene) && resolved == old(resolved)
      ensures log == old(log) && filename == old(filename) && connected == old(connected)
    {
      ghost var prefix := ids[..i + 1];
      assert prefix[..|prefix| - 1] == ids[..i] && prefix[|prefix| - 1] == ids[i];
      assert AddWaiters(m0, prefix, t0) == AddWaiter(AddWaiters(m0, ids[..i], t0), ids[i], t0 + i);
      w := WaitForChange(ids[i]);
    }

    /** waitForAllChanges: one new promise per listed id, in list order. */
    method WaitForAllChanges(ids: seq<string>) returns (ws: seq<Token>)
      requires Valid()
      modifies this
      ensures Valid()
      ensures |ws| == |ids| && forall i :: 0 <= i < |ids| ==> ws[i] == old(nextToken) + i
      ensures nextToken == old(nextToken) + |ids|
      ensures pendingChanges == AddWaiters(old(pendingChanges), ids, old(nextToken))
      ensures pendingReads == old(pendingReads) && scene == old(scene) && resolved == old(resolved)
      ensures log == old(log) && filename == old(filename) && connected == old(connected)
    {
      ws := [];
      var i := 0;
      while i < |ids|
        invariant 0 <= i <= |ids|
        invariant Valid()
        invariant |ws| == i && forall j :: 0 <= j < i ==> ws[j] == old(nextToken) + j
        invariant nextToken == old(nextToken) + i
        invariant pendingChanges == AddWaiters(old(pendingChanges), ids[..i], old(nextToken))
        invariant pendingReads == old(pendingReads) && scene == old(scene) && resolved == old(resolved)
        invariant log == old(log) && filename == old(filename) && connected == old(connected)
      {
        var w := WaitForNext(ids, i, old(pendingChanges), old(nextToken));
        ws := ws + [w];
        i := i + 1;
      }
      assert ids[..|ids|] == ids;
    }

    // -------------------------------------------------------------------
    // Facades: each makes one call to the kernel and, where the source
    // waits, registers a promise.

    /** initFile: a new file under the default name, a fresh renderer, and polling started. */
    method InitFile()
      requires Valid()
      modifies this
      ensures Valid()
      ensures filename == "defaultNew.flx" && scene == map[]
      ensures log == old(log) + [Route(connected, "init_file", [JStr(filename)], "init_file", Vals([JStr(filename), JStr(user)]))]
                               + (if connected then [] else [Native("get_updates", [Val(JStr(filename))])])
      ensures pendingChanges == old(pendingChanges) && pendingReads == old(pendingReads) && resolved == old(resolved)
      ensures nextToken == old(nextToken) && connected == old(connected)
    {
      filename := "defaultNew.flx";
      Invoke("init_file", [JStr(filename)], "init_file", Vals([JStr(filename), JStr(user)]));
      scene := map[];
      RenderNext();
    }

    /** openFile: the named file, a fresh renderer, and polling started. */
    method OpenFile(inFile: string)
      requires Valid()
      modifies this
      ensures Valid()
      ensures filename == inFile && scene == map[]
      ensures log == old(log) + [Route(connected, "open_file", [JStr(inFile)], "open_file", Vals([JStr(inFile), JStr(user)]))]
                               + (if connected then [] else [Native("get_updates", [Val(JStr(inFile))])])
      ensures pendingChanges == old(pendingChanges) && pendingReads == old(pendingReads) && resolved == old(resolved)
      ensures nextToken == old(nextToken) && connected == old(connected)
    {
      filename := inFile;
      Invoke("open_file", [JStr(filename)], "open_file", Vals([JStr(filename), JStr(user)]));
      scene := map[];
      RenderNext();
    }

    method SaveFile()
      modifies this
      ensures log == old(log) + [Route(connected, "save_file", [JStr(filename)], "save_file", Vals([JStr(filename)]))]
      ensures Snapshot() == old(Snapshot()) && nextToken == old(nextToken) && filename == old(filename) && connected == old(connected)
    {
      Invoke("save_file", [JStr(filename)], "save_file", Vals([JStr(filename)]));
    }

    method SaveAsFile(inFile: string)
      modifies this
      ensures log == old(log) + [Route(connected, "save_as_file", [JStr(filename), JStr(inFile)], "save_as_file", Vals([JStr(filename), JStr(inFile)]))]
      ensures Snapshot() == old(Snapshot()) && nextToken == old(nextToken) && filename == old(filename) && connected == old(connected)
    {
      Invoke("save_as_file", [JStr(filename), JStr(inFile)], "save_as_file", Vals([JStr(filename), JStr(inFile)]));
    }

    /** beginUndoEvent: the client mints the event id (given here) and returns it; the native call adds the user. */
    method BeginUndoEvent(desc: string, minted: string) returns (event: string)
      modifies this
      ensures event == minted
      ensures log == old(log) + [Route(connected, "begin_undo_event", [JStr(filename), JStr(minted), JStr(desc)],
                                       "begin_undo_event", Vals([JStr(filename), JStr(user), JStr(minted), JStr(desc)]))]
      ensures Snapshot() == old(Snapshot()) && nextToken == old(nextToken) && filename == old(filename) && connected == old(connected)
    {
      event := minted;
      Invoke("begin_undo_event", [JStr(filename), JStr(event), JStr(desc)], "begin_undo_event", Vals([JStr(filename), JStr(user), JStr(event), JStr(desc)]));
    }

    method EndUndoEvent(event: string)
      modifies this
      ensures log == old(log) + [Route(connected, "end_undo_event", [JStr(filename), JStr(event)], "end_undo_event", Vals([JStr(filename), JStr(event)]))]
      ensures Snapshot() == old(Snapshot()) && nextToken == old(nextToken) && filename == old(filename) && connected == old(connected)
    {
      Invoke("end_undo_event", [JStr(filename), JStr(event)], "end_undo_event", Vals([JStr(filename), JStr(event)]));
    }

    /** undoLatest polls for the updates the undo produces. */
    method UndoLatest()
      modifies this
      ensures log == old(log) + [Route(connected, "undo_latest", [JStr(filename)], "undo_latest", Vals([JStr(filename), JStr(user)]))]
                               + (if connected then [] else [Native("get_updates", [Val(JStr(filename))])])
      ensures Snapshot() == old(Snapshot()) && nextToken == old(nextToken) && filename == old(filename) && connected == old(connected)
    {
      Invoke("undo_latest", [JStr(filename)], "undo_latest", Vals([JStr(filename), JStr(user)]));
      RenderNext();
    }

    method SuspendEvent(event: string)
      modifies this
      ensures log == old(log) + [Route(connected, "suspend_event", [JStr(filename), JStr(event)], "suspend_event", Vals([JStr(filename), JStr(event)]))]
      ensures Snapshot() == old(Snapshot()) && nextToken == old(nextToken) && filename == old(filename) && connected == old(connected)
    {
      Invoke("suspend_event", [JStr(filename), JStr(event)], "suspend_event", Vals([JStr(filename), JStr(event)]));
    }

    method ResumeEvent(event: string)
      modifies this
      ensures log == old(log) + [Route(connected, "resume_event", [JStr(filename), JStr(event)], "resume_event", Vals([JStr(filename), JStr(event)]))]
      ensures Snapshot() == old(Snapshot()) && nextToken == old(nextToken) && filename == old(filename) && connected == old(connected)
    {
      Invoke("resume_event", [JStr(filename), JStr(event)], "resume_event", Vals([JStr(filename), JStr(event)]));
    }

    method CancelEvent(event: string)
      modifies this
      ensures log == old(log) + [Route(connected, "cancel_event", [JStr(filename), JStr(event)], "cancel_event", Vals([JStr(filename), JStr(event)]))]
      ensures Snapshot() == old(Snapshot()) && nextToken == old(nextToken) && filename == old(filename) && connected == old(connected)
    {
      Invoke("cancel_event", [JStr(filename), JStr(event)], "cancel_event", Vals([JStr(filename), JStr(event)]));
    }

    /** redoLatest, unlike undoLatest, does not poll afterwards. */
    method RedoLatest()
      modifies this
      ensures log == old(log) + [Route(connected, "redo_latest", [JStr(filename)], "redo_latest", Vals([JStr(filename), JStr(user)]))]
      ensures Snapshot() == old(Snapshot()) && nextToken == old(nextToken) && filename == old(filename) && connected == old(connected)
    {
      Invoke("redo_latest", [JStr(filename)], "redo_latest", Vals([JStr(filename), JStr(user)]));
    }

    method TakeUndoSnapshot(event: string, id: string)
      modifies this
      ensures log == old(log) + [Route(connected, "take_undo_snapshot", [JStr(filename), JStr(event), JStr(id)], "take_undo_snapshot", Vals([JStr(filename), JStr(event), JStr(id)]))]
      ensures Snapshot() == old(Snapshot()) && nextToken == old(nextToken) && filename == old(filename) && connected == old(connected)
    {
      Invoke("take_undo_snapshot", [JStr(filename), JStr(event), JStr(id)], "take_undo_snapshot", Vals([JStr(filename), JStr(event), JStr(id)]));
    }

    /** renderTempObject: the preview drawn as temporary (never draggable when new); the kernel is not called. */
    method RenderTempObject(obj: DataObject)
      requires Valid()
      modifies this
      ensures Valid()
      ensures scene == RenderRepr(old(scene), obj.tempRepr, true)
      ensures pendingChanges == old(pendingChanges) && pendingReads == old(pendingReads) && resolved == old(resolved)
      ensures log == old(log) && nextToken == old(nextToken) && filename == old(filename) && connected == old(connected)
    {
      var msg := obj.tempRepr;
      if Truthy(Index(msg, "Mesh")) {
        scene := RenderMesh(scene, Index(Index(msg, "Mesh"), "data"), KeyText(Index(Index(Index(msg, "Mesh"), "data"), "id")), true);
      }
      if Truthy(Index(msg, "Other")) {
        scene := RenderObject(scene, Index(Index(msg, "Other"), "data"), KeyText(Index(Index(Index(msg, "Other"), "data"), "id")), true);
      }
    }

    /** deleteTempObject: the preview's node removed; the kernel is not called. */
    method DeleteTempObject(id: string)
      requires Valid()
      modifies this
      ensures Valid()
      ensures scene == DeleteMesh(old(scene), id)
      ensures pendingChanges == old(pendingChanges) && pendingReads == old(pendingReads) && resolved == old(resolved)
      ensures log == old(log) && nextToken == old(nextToken) && filename == old(filename) && connected == old(connected)
    {
      scene := DeleteMesh(scene, id);
    }

    method DeleteObject(event: string, id: string)
      modifies this
      ensures log == old(log) + [Route(connected, "delete_object", [JStr(filename), JStr(event), JStr(id)], "delete_object", Vals([JStr(filename), JStr(event), JStr(id)]))]
      ensures Snapshot() == old(Snapshot()) && nextToken == old(nextToken) && filename == old(filename) && connected == old(connected)
    {
      Invoke("delete_object", [JStr(filename), JStr(event), JStr(id)], "delete_object", Vals([JStr(filename), JStr(event), JStr(id)]));
    }

    /**
     * createObj: draw the object's preview as final (the corrected
     * renderFromMsg), send add_object with the object's type and body, and
     * wait for the kernel's change to the object's id.
     */
    method CreateObj(event: string, obj: DataObject) returns (w: Token)
      requires Valid()
      modifies this
      ensures Valid()
      ensures scene == RenderRepr(old(scene), obj.tempRepr, false)
      ensures log == old(log) + [Route(connected, "add_object", [JStr(filename), JStr(event), Index(obj.obj, "type"), Index(obj.obj, "obj")],
                                       "add_object", Vals([JStr(filename), JStr(event), Index(obj.obj, "type"), Index(obj.obj, "obj")]))]
      ensures w == old(nextToken) && nextToken == old(nextToken) + 1
      ensures pendingChanges == AddWaiter(old(pendingChanges), obj.id, w)
      ensures pendingReads == old(pendingReads) && resolved == old(resolved)
      ensures filename == old(filename) && connected == old(connected)
    {
      scene := RenderRepr(scene, obj.tempRepr, false);
      var params := [JStr(filename), JStr(event), Index(obj.obj, "type"), Index(obj.obj, "obj")];
      Invoke("add_object", params, "add_object", Vals(params));
      w := WaitForChange(obj.id);
    }

    /** joinAtPoints: one call, then a promise for each of the two ids. */
    method JoinAtPoints(event: string, id1: string, id2: string, pt: Json) returns (ws: seq<Token>)
      requires Valid()
      modifies this
      ensures Valid()
      ensures log == old(log) + [Route(connected, "join_at_points", [JStr(filename), JStr(event), JStr(id1), JStr(id2), pt],
                                       "join_at_points", Vals([JStr(filename), JStr(event), JStr(id1), JStr(id2), pt]))]
      ensures ws == [old(nextToken), old(nextToken) + 1] && nextToken == old(nextToken) + 2
      ensures pendingChanges == AddWaiters(old(pendingChanges), [id1, id2], old(nextToken))
      ensures pendingReads == old(pendingReads) && scene == old(scene) && resolved == old(resolved)
      ensures filename == old(filename) && connected == old(connected)
    {
      var params := [JStr(filename), JStr(event), JStr(id1), JStr(id2), pt];
      Invoke("join_at_points", params, "join_at_points", Vals(params));
      ws := WaitForAllChanges([id1, id2]);
    }

    /** canReferTo: a query (its id minted by the kernel, given here) and a promise for its answer. */
    method CanReferTo(id: string, query: string) returns (w: Token)
      requires Valid()
      modifies this
      ensures Valid()
      ensures log == old(log) + [Route(connected, "can_refer_to", [JStr(filename), JStr(id), JStr(query)],
                                       "can_refer_to", Vals([JStr(filename), JStr(id), JStr(user), JStr(query)]))]
      ensures w == old(nextToken) && nextToken == old(nextToken) + 1
      ensures pendingReads == old(pendingReads)[query := w]
      ensures pendingChanges == old(pendingChanges) && scene == old(scene) && resolved == old(resolved)
      ensures filename == old(filename) && connected == old(connected)
    {
      Invoke("can_refer_to", [JStr(filename), JStr(id), JStr(query)], "can_refer_to", Vals([JStr(filename), JStr(id), JStr(user), JStr(query)]));
      w := WaitForRead(query);
    }

    method GetClosestPoint(id: string, pt: Json, query: string) returns (w: Token)
      requires Valid()
      modifies this
      ensures Valid()
      ensures log == old(log) + [Route(connected, "get_closest_point", [JStr(filename), JStr(id), pt, JStr(query)],
                                       "get_closest_point", Vals([JStr(filename), JStr(id), pt, JStr(user), JStr(query)]))]
      ensures w == old(nextToken) && nextToken == old(nextToken) + 1
      ensures pendingReads == old(pendingReads)[query := w]
      ensures pendingChanges == old(pendingChanges) && scene == old(scene) && resolved == old(resolved)
      ensures filename == old(filename) && connected == old(connected)
    {
      Invoke("get_closest_point", [JStr(filename), JStr(id), pt, JStr(query)], "get_closest_point", Vals([JStr(filename), JStr(id), pt, JStr(user), JStr(query)]));
      w := WaitForRead(query);
    }

    /** snapToPoint and snapToLine: one call, then a promise on the snapped object. */
    method SnapTo(func: string, event: string, id: string, snapToId: string, pt: Json) returns (w: Token)
      requires Valid()
      requires func == "snap_to_point" || func == "snap_to_line"
      modifies this
      ensures Valid()
      ensures log == old(log) + [Route(connected, func, [JStr(filename), JStr(event), JStr(id), JStr(snapToId), pt],
                                       func, Vals([JStr(filename), JStr(event), JStr(id), JStr(snapToId), pt]))]
      ensures w == old(nextToken) && nextToken == old(nextToken) + 1
      ensures pendingChanges == AddWaiter(old(pendingChanges), id, w)
      ensures pendingReads == old(pendingReads) && scene == old(scene) && resolved == old(resolved)
      ensures filename == old(filename) && connected == old(connected)
    {
      var params := [JStr(filename), JStr(event), JStr(id), JStr(snapToId), pt];
      Invoke(func, params, func, Vals(params));
      w := WaitForChange(id);
    }

    method MoveObj(event: string, id: string, delta: Json) returns (w: Token)
      requires Valid()
      modifies this
      ensures Valid()
      ensures log == old(log) + [Route(connected, "move_object", [JStr(filename), JStr(event), JStr(id), delta],
                                       "move_object", Vals([JStr(filename), JStr(event), JStr(id), delta]))]
      ensures w == old(nextToken) && nextToken == old(nextToken) + 1
      ensures pendingChanges == AddWaiter(old(pendingChanges), id, w)
      ensures pendingReads == old(pendingReads) && scene == old(scene) && resolved == old(resolved)
      ensures filename == old(filename) && connected == old(connected)
    {
      var params := [JStr(filename), JStr(event), JStr(id), delta];
      Invoke("move_object", params, "move_object", Vals(params));
      w := WaitForChange(id);
    }

    /** moveObjs: one call for the batch, then a promise per listed id. */
    method MoveObjs(event: string, ids: seq<string>, delta: Json) returns (ws: seq<Token>)
      requires Valid()
      modifies this
      ensures Valid()
      ensures log == old(log) + [Route(connected, "move_objects", [JStr(filename), JStr(event), JArr(Strs(ids)), delta],
                                       "move_objects", Vals([JStr(filename), JStr(event), JArr(Strs(ids)), delta]))]
      ensures |ws| == |ids| && nextToken == old(nextToken) + |ids|
      ensures pendingChanges == AddWaiters(old(pendingChanges), ids, old(nextToken))
      ensures pendingReads == old(pendingReads) && scene == old(scene) && resolved == old(resolved)
      ensures filename == old(filename) && connected == old(connected)
    {
      var params := [JStr(filename), JStr(event), JArr(Strs(ids)), delta];
      Invoke("move_objects", params, "move_objects", Vals(params));
      ws := WaitForAllChanges(ids);
    }

    method GetObjectData(id: string, propName: string, query: string) returns (w: Token)
      requires Valid()
      modifies this
      ensures Valid()
      ensures log == old(log) + [Route(connected, "get_object_data", [JStr(filename), JStr(id), JStr(propName), JStr(query)],
                                       "get_object_data", Vals([JStr(filename), JStr(id), JStr(propName), JStr(user), JStr(query)]))]
      ensures w == old(nextToken) && nextToken == old(nextToken) + 1
      ensures pendingReads == old(pendingReads)[query := w]
      ensures pendingChanges == old(pendingChanges) && scene == old(scene) && resolved == old(resolved)
      ensures filename == old(filename) && connected == old(connected)
    {
      Invoke("get_object_data", [JStr(filename), JStr(id), JStr(propName), JStr(query)],
             "get_object_data", Vals([JStr(filename), JStr(id), JStr(propName), JStr(user), JStr(query)]));
      w := WaitForRead(query);
    }

    /** setObjectData: the native call takes the data as JSON text, the packet as a value. */
    method SetObjectData(event: string, id: string, data: Json) returns (w: Token)
      requires Valid()
      modifies this
      ensures Valid()
      ensures log == old(log) + [Route(connected, "set_object_data", [JStr(filename), JStr(event), JStr(id), data],
                                       "set_object_data", [Val(JStr(filename)), Val(JStr(event)), Val(JStr(id)), Text(data)])]
      ensures w == old(nextToken) && nextToken == old(nextToken) + 1
      ensures pendingChanges == AddWaiter(old(pendingChanges), id, w)
      ensures pendingReads == old(pendingReads) && scene == old(scene) && resolved == old(resolved)
      ensures filename == old(filename) && connected == old(connected)
    {
      Invoke("set_object_data", [JStr(filename), JStr(event), JStr(id), data],
             "set_object_data", [Val(JStr(filename)), Val(JStr(event)), Val(JStr(id)), Text(data)]);
      w := WaitForChange(id);
    }

    /** setObjectsDatas: the packet is named set_object_datas, the native call set_objects_datas; a promise per pair's id. */
    method SetObjectsDatas(event: string, data: seq<(string, Json)>) returns (ws: seq<Token>)
      requires Valid()
      modifies this
      ensures Valid()
      ensures log == old(log) + [Route(connected, "set_object_datas", [JStr(filename), JStr(event), Pairs(data)],
                                       "set_objects_datas", Vals([JStr(filename), JStr(event), Pairs(data)]))]
      ensures |ws| == |data| && nextToken == old(nextToken) + |data|
      ensures pendingChanges == AddWaiters(old(pendingChanges), Firsts(data), old(nextToken))
      ensures pendingReads == old(pendingReads) && scene == old(scene) && resolved == old(resolved)
      ensures filename == old(filename) && connected == old(connected)
    {
      Invoke("set_object_datas", [JStr(filename), JStr(event), Pairs(data)], "set_objects_datas", Vals([JStr(filename), JStr(event), Pairs(data)]));
      ws := WaitForAllChanges(Firsts(data));
    }

    /** getMeshByID: the scene node of that name, or null. */
    function GetMeshById(id: string): (r: Option<Entry>)
      reads this
      ensures r.Some? <==> id in scene
      ensures r.Some? ==> r.value == scene[id]
    {
      GetMesh(scene, id)
    }

    /** copyObjs: both routes carry the user and the query id; the answer comes as a Read. */
    method CopyObjs(event: string, ids: seq<string>, delta: Json, query: string) returns (w: Token)
      requires Valid()
      modifies this
      ensures Valid()
      ensures log == old(log) + [Route(connected, "copy_objects", [JStr(filename), JStr(event), JArr(Strs(ids)), delta, JStr(user), JStr(query)],
                                       "copy_objects", Vals([JStr(filename), JStr(event), JArr(Strs(ids)), delta, JStr(user), JStr(query)]))]
      ensures w == old(nextToken) && nextToken == old(nextToken) + 1
      ensures pendingReads == old(pendingReads)[query := w]
      ensures pendingChanges == old(pendingChanges) && scene == old(scene) && resolved == old(resolved)
      ensures filename == old(filename) && connected == old(connected)
    {
      var params := [JStr(filename), JStr(event), JArr(Strs(ids)), delta, JStr(user), JStr(query)];
      Invoke("copy_objects", params, "copy_objects", Vals(params));
      w := WaitForRead(query);
    }

    /** demo and demo_100: the native call adds the user. */
    method Demo(func: string, position: Json)
      requires func == "demo" || func == "demo_100"
      modifies this
      ensures log == old(log) + [Route(connected, func, [JStr(filename), position], func, Vals([JStr(filename), position, JStr(user)]))]
      ensures Snapshot() == old(Snapshot()) && nextToken == old(nextToken) && filename == old(filename) && connected == old(connected)
    {
      Invoke(func, [JStr(filename), position], func, Vals([JStr(filename), position, JStr(user)]));
    }
  }

  // ---------------------------------------------------------------------
  // Tokens stay below the next one to be handed out

  ghost predicate TokensBelow(v: View, n: nat) {
    (forall k | k in v.changes :: forall i | 0 <= i < |v.changes[k]| :: v.changes[k][i] < n) &&
    (forall q | q in v.queries :: v.queries[q] < n) &&
    (forall i | 0 <= i < |v.resolved| :: v.resolved[i].token < n)
  }

  lemma TokensBelowGrows(v: View, n: nat, m: nat)
    requires TokensBelow(v, n) && n <= m
    ensures TokensBelow(v, m)
  {
  }

  lemma AddWaiterKeepsTokensBelow(v: View, id: string, w: Token, n: nat)
    requires TokensBelow(v, n) && w < n
    ensures TokensBelow(v.(changes := AddWaiter(v.changes, id, w)), n)
  {
    var c := AddWaiter(v.changes, id, w);
    forall k | k in c
      ensures forall i | 0 <= i < |c[k]| :: c[k][i] < n
    {
      assert c[k] == Waiters(c, k);
      if k != id {
        assert c[k] == v.changes[k];
      }
    }
  }

  /** Dispatching settles only promises that were pending, so no token appears that was not handed out. */
  lemma DispatchKeepsTokensBelow(v: View, msg: Json, n: nat)
    requires TokensBelow(v, n)
    ensures TokensBelow(Dispatch(v, msg), n)
  {
  }
}
