/**
 * The dependency graph of one file (operations/src/operation_manager/dep_manager/mod.rs):
 * for each publisher, the set of objects that follow it and must be
 * refreshed when it changes.
 */
module Dependencies {
  import opened Base

  /** The subscribers of a publisher: its set, or none when it has no entry. */
  function Subs(g: map<RefID, set<RefID>>, publisher: RefID): set<RefID> {
    if publisher in g then g[publisher] else {}
  }

  /** The graph after register_sub: the subscriber joins the publisher's set, which is created when absent; nil is never registered. */
  function Registered(g: map<RefID, set<RefID>>, publisher: RefID, sub: RefID): (r: map<RefID, set<RefID>>)
    ensures sub == NIL ==> r == g
    ensures sub != NIL ==> Subs(r, publisher) == Subs(g, publisher) + {sub} && r.Keys == g.Keys + {publisher}
    ensures forall p :: p != publisher ==> Subs(r, p) == Subs(g, p)
  {
    if sub == NIL then g else g[publisher := Subs(g, publisher) + {sub}]
  }

  /** Registering twice is registering once. */
  lemma RegisterIdempotent(g: map<RefID, set<RefID>>, publisher: RefID, sub: RefID)
    ensures Registered(Registered(g, publisher, sub), publisher, sub) == Registered(g, publisher, sub)
  {
    if sub != NIL {
      var g1 := Registered(g, publisher, sub);
      assert Subs(g1, publisher) + {sub} == Subs(g1, publisher);
      assert g1[publisher := Subs(g1, publisher)] == g1;
    }
  }

  /** The graph after delete_sub: only that subscriber leaves only that publisher's set; an unknown publisher gets no entry. */
  function Unsubscribed(g: map<RefID, set<RefID>>, publisher: RefID, sub: RefID): (r: map<RefID, set<RefID>>)
    ensures r.Keys == g.Keys
    ensures Subs(r, publisher) == Subs(g, publisher) - {sub}
    ensures forall p :: p != publisher ==> Subs(r, p) == Subs(g, p)
  {
    if publisher in g then g[publisher := g[publisher] - {sub}] else g
  }

  /** Unsubscribing undoes a registration that added a new subscriber. */
  lemma UnsubscribeUndoesRegister(g: map<RefID, set<RefID>>, publisher: RefID, sub: RefID)
    requires publisher in g && sub != NIL && sub !in g[publisher]
    ensures Unsubscribed(Registered(g, publisher, sub), publisher, sub) == g
  {
    assert (g[publisher] + {sub}) - {sub} == g[publisher];
    assert g[publisher := g[publisher]] == g;
  }

  /** The graph after delete_obj: the publisher's entry is gone and it is nobody's subscriber any more. */
  function Pruned(g: map<RefID, set<RefID>>, publisher: RefID): (r: map<RefID, set<RefID>>)
    ensures r.Keys == g.Keys - {publisher}
    ensures forall p :: p in r ==> r[p] == g[p] - {publisher}
  {
    map p | p in g && p != publisher :: g[p] - {publisher}
  }

  class DependencyManager {
    var pubSubs: map<RefID, set<RefID>>

    constructor ()
      ensures pubSubs == map[]
    {
      pubSubs := map[];
    }

    /** get_deps: a copy of the publisher's subscribers, empty when it has none. */
    function GetDeps(obj: RefID): (r: set<RefID>)
      reads this
      ensures obj !in pubSubs ==> r == {}
      ensures obj in pubSubs ==> r == pubSubs[obj]
    {
      Subs(pubSubs, obj)
    }

    /** get_all_deps: the union of the subscribers of every listed id. */
    method GetAllDeps(ids: seq<RefID>) returns (results: set<RefID>)
      ensures forall k :: k in results <==> exists i :: 0 <= i < |ids| && k in Subs(pubSubs, ids[i])
    {
      results := {};
      var i := 0;
      while i < |ids|
        invariant 0 <= i <= |ids|
        invariant forall k :: k in results <==> exists j :: 0 <= j < i && k in Subs(pubSubs, ids[j])
      {
        if ids[i] in pubSubs {
          results := results + pubSubs[ids[i]];
        }
        i := i + 1;
      }
    }

    method RegisterSub(publisher: RefID, sub: RefID)
      modifies this
      ensures pubSubs == Registered(old(pubSubs), publisher, sub)
    {
      if sub != NIL {
        if publisher in pubSubs {
          pubSubs := pubSubs[publisher := pubSubs[publisher] + {sub}];
        } else {
          assert {} + {sub} == {sub};
          pubSubs := pubSubs[publisher := {sub}];
        }
      }
    }

    method DeleteSub(publisher: RefID, sub: RefID)
      modifies this
      ensures pubSubs == Unsubscribed(old(pubSubs), publisher, sub)
    {
      if publisher in pubSubs {
        pubSubs := pubSubs[publisher := pubSubs[publisher] - {sub}];
      }
    }

    /** delete_obj: drops the publisher's entry, then takes it out of every remaining set, one entry at a time. */
    method DeleteObj(publisher: RefID)
      modifies this
      ensures pubSubs == Pruned(old(pubSubs), publisher)
    {
      pubSubs := pubSubs - {publisher};
      var todo := pubSubs.Keys;
      ghost var start := pubSubs;
      while todo != {}
        invariant todo <= start.Keys && pubSubs.Keys == start.Keys
        invariant forall p :: p in pubSubs ==> pubSubs[p] == if p in todo then start[p] else start[p] - {publisher}
        decreases todo
      {
        var p :| p in todo;
        pubSubs := pubSubs[p := pubSubs[p] - {publisher}];
        todo := todo - {p};
      }
    }
  }
}
