/**
  The order of lookup, on the lists of a class themselves: which of prepended modules, the class, included
  modules and the superclass answers. The visited classes that all steps of a search share make no difference.
 */
module ClassOrder {
  import opened Options
  import opened Mir
  import opened Classes

  // ---------------------------------------------------------------- what was visited in vain

  /** Nothing in the set defines the key, and the set has no way out. */
  ghost predicate Spent(kind: Kind, g: Graph, v: set<ClassId>, key: Name) {
    && (forall c :: c in v && c in g ==> key !in Table(kind, g[c]))
    && (forall a, b :: a in v && Edge(kind, g, a, b) ==> b in v)
  }

  lemma {:induction false} StaysIn(kind: Kind, g: Graph, id: ClassId, u: set<ClassId>, v: set<ClassId>)
    requires id in v && forall a, b :: a in v && Edge(kind, g, a, b) ==> b in v
    ensures Linearize(kind, g, id, u).1 <= u + v
    decreases g.Keys - u, 0
  {
    hide Before, After;
    if id !in u && id in g {
      AllStayIn(kind, g, Before(kind, g[id]), u + {id}, v);
      var v1 := LinearizeAll(kind, g, Before(kind, g[id]), u + {id}).1;
      AllStayIn(kind, g, After(kind, g[id]), v1, v);
    }
  }

  lemma {:induction false} AllStayIn(kind: Kind, g: Graph, ids: seq<ClassId>, u: set<ClassId>, v: set<ClassId>)
    requires (forall c :: c in ids ==> c in v) && forall a, b :: a in v && Edge(kind, g, a, b) ==> b in v
    ensures LinearizeAll(kind, g, ids, u).1 <= u + v
    decreases g.Keys - u, 1, |ids|
  {
    if ids != [] {
      StaysIn(kind, g, ids[0], u, v);
      AllStayIn(kind, g, ids[1..], Linearize(kind, g, ids[0], u).1, v);
    }
  }

  // A search that leaves out what is spent finds what the search without that finds.
  lemma {:induction false} SpentIsSkipped(kind: Kind, g: Graph, id: ClassId, u: set<ClassId>, v: set<ClassId>,
                                          key: Name)
    requires Spent(kind, g, v, key)
    ensures FirstDefiner(kind, g, Linearize(kind, g, id, u + v).0, key)
            == FirstDefiner(kind, g, Linearize(kind, g, id, u).0, key)
    ensures Linearize(kind, g, id, u + v).1 == Linearize(kind, g, id, u).1 + v
    decreases g.Keys - u, 0
  {
    hide Before, After, Table;
    if id in u {
    } else if id in v {
      StaysIn(kind, g, id, u, v);
      LinearizeExplores(kind, g, id, u);
      FirstDefinerNone(kind, g, Linearize(kind, g, id, u).0, key);
    } else if id in g {
      var before, after := Before(kind, g[id]), After(kind, g[id]);
      var (first, v1) := LinearizeAll(kind, g, before, u + {id});
      var (first', v1') := LinearizeAll(kind, g, before, u + v + {id});
      assert u + v + {id} == u + {id} + v;
      SpentAreSkipped(kind, g, before, u + {id}, v, key);
      SpentAreSkipped(kind, g, after, v1, v, key);
      ThreeParts(kind, g, first, id, LinearizeAll(kind, g, after, v1).0, key);
      ThreeParts(kind, g, first', id, LinearizeAll(kind, g, after, v1').0, key);
    } else {
      assert u + v + {id} == u + {id} + v;
    }
  }

  lemma {:induction false} SpentAreSkipped(kind: Kind, g: Graph, ids: seq<ClassId>, u: set<ClassId>, v: set<ClassId>,
                                           key: Name)
    requires Spent(kind, g, v, key)
    ensures FirstDefiner(kind, g, LinearizeAll(kind, g, ids, u + v).0, key)
            == FirstDefiner(kind, g, LinearizeAll(kind, g, ids, u).0, key)
    ensures LinearizeAll(kind, g, ids, u + v).1 == LinearizeAll(kind, g, ids, u).1 + v
    decreases g.Keys - u, 1, |ids|
  {
    hide Table, FirstDefiner;
    if ids != [] {
      var (first, v1) := Linearize(kind, g, ids[0], u);
      var (first', v1') := Linearize(kind, g, ids[0], u + v);
      SpentIsSkipped(kind, g, ids[0], u, v, key);
      SpentAreSkipped(kind, g, ids[1..], v1, v, key);
      FirstDefinerConcat(kind, g, first, LinearizeAll(kind, g, ids[1..], v1).0, key);
      FirstDefinerConcat(kind, g, first', LinearizeAll(kind, g, ids[1..], v1').0, key);
    }
  }

  lemma ThreeParts(kind: Kind, g: Graph, a: seq<ClassId>, id: ClassId, b: seq<ClassId>, key: Name)
    requires id in g
    ensures FirstDefiner(kind, g, a + [id] + b, key)
            == if FirstDefiner(kind, g, a, key).Some? then FirstDefiner(kind, g, a, key)
               else if key in Table(kind, g[id]) then Some((Table(kind, g[id])[key], id))
               else FirstDefiner(kind, g, b, key)
  {
    FirstDefinerConcat(kind, g, a + [id], b, key);
    FirstDefinerConcat(kind, g, a, [id], key);
  }

  // ---------------------------------------------------------------- one question after the other

  /** What the first of some classes that finds anything finds, each asked on its own. */
  function Asked(kind: Kind, g: Graph, ids: seq<ClassId>, key: Name): Option<(Value, ClassId)> {
    if ids == [] then None
    else if Resolve(kind, g, ids[0], key).Some? then Resolve(kind, g, ids[0], key)
    else Asked(kind, g, ids[1..], key)
  }

  lemma {:induction false} AskedFirst(kind: Kind, g: Graph, ids: seq<ClassId>, key: Name, j: nat)
    requires j < |ids| && Resolve(kind, g, ids[j], key).Some?
    requires forall k :: 0 <= k < j ==> Resolve(kind, g, ids[k], key).None?
    ensures Asked(kind, g, ids, key) == Resolve(kind, g, ids[j], key)
  {
    hide Resolve;
    if j > 0 {
      assert ids[1..][j - 1] == ids[j];
      AskedFirst(kind, g, ids[1..], key, j - 1);
    }
  }

  lemma {:induction false} AskedNone(kind: Kind, g: Graph, ids: seq<ClassId>, key: Name)
    ensures Asked(kind, g, ids, key).None? <==> forall k :: 0 <= k < |ids| ==> Resolve(kind, g, ids[k], key).None?
  {
    hide Resolve;
    if ids != [] {
      AskedNone(kind, g, ids[1..], key);
      assert forall k :: 0 < k < |ids| ==> ids[k] == ids[1..][k - 1];
    }
  }

  lemma {:induction false} AskedConcat(kind: Kind, g: Graph, a: seq<ClassId>, b: seq<ClassId>, key: Name)
    ensures Asked(kind, g, a + b, key)
            == if Asked(kind, g, a, key).Some? then Asked(kind, g, a, key) else Asked(kind, g, b, key)
  {
    hide Resolve;
    if a == [] {
      assert a + b == b;
    } else {
      assert (a + b)[1..] == a[1..] + b;
      AskedConcat(kind, g, a[1..], b, key);
    }
  }

  // After a vain search, what was visited is spent.
  lemma {:induction false} SearchEach(kind: Kind, g: Graph, ids: seq<ClassId>, u: set<ClassId>, key: Name)
    requires Spent(kind, g, u, key)
    ensures FirstDefiner(kind, g, LinearizeAll(kind, g, ids, u).0, key) == Asked(kind, g, ids, key)
    ensures Asked(kind, g, ids, key).None? ==> Spent(kind, g, LinearizeAll(kind, g, ids, u).1, key)
    decreases |ids|
  {
    hide FirstDefiner, Linearize;
    if ids == [] {
      FirstDefinerNone(kind, g, [], key);
    } else {
      var (first, v1) := Linearize(kind, g, ids[0], u);
      FirstDefinerConcat(kind, g, first, LinearizeAll(kind, g, ids[1..], v1).0, key);
      assert {} + u == u;
      SpentIsSkipped(kind, g, ids[0], {}, u, key);
      if FirstDefiner(kind, g, first, key).None? {
        StillSpent(kind, g, ids[0], u, key);
        SearchEach(kind, g, ids[1..], v1, key);
      }
    }
  }

  lemma StillSpent(kind: Kind, g: Graph, id: ClassId, u: set<ClassId>, key: Name)
    requires Spent(kind, g, u, key) && FirstDefiner(kind, g, Linearize(kind, g, id, u).0, key).None?
    ensures Spent(kind, g, Linearize(kind, g, id, u).1, key)
  {
    hide Linearize, FirstDefiner, Edge;
    LinearizeExplores(kind, g, id, u);
    FirstDefinerNone(kind, g, Linearize(kind, g, id, u).0, key);
  }

  // ---------------------------------------------------------------- without the class itself

  // A search that has visited a class goes on as if that class were not there.
  lemma {:induction false} WithoutVisited(kind: Kind, g: Graph, x: ClassId, id: ClassId, u: set<ClassId>)
    requires x in u
    ensures Linearize(kind, g, id, u) == Linearize(kind, g - {x}, id, u)
    decreases g.Keys - u, 0
  {
    hide Before, After;
    if id !in u && id in g {
      AllWithoutVisited(kind, g, x, Before(kind, g[id]), u + {id});
      AllWithoutVisited(kind, g, x, After(kind, g[id]), LinearizeAll(kind, g, Before(kind, g[id]), u + {id}).1);
    }
  }

  lemma {:induction false} AllWithoutVisited(kind: Kind, g: Graph, x: ClassId, ids: seq<ClassId>, u: set<ClassId>)
    requires x in u
    ensures LinearizeAll(kind, g, ids, u) == LinearizeAll(kind, g - {x}, ids, u)
    decreases g.Keys - u, 1, |ids|
  {
    if ids != [] {
      WithoutVisited(kind, g, x, ids[0], u);
      AllWithoutVisited(kind, g, x, ids[1..], Linearize(kind, g, ids[0], u).1);
    }
  }

  lemma {:induction false} DefinerWithout(kind: Kind, g: Graph, x: ClassId, order: seq<ClassId>, key: Name)
    requires x !in order
    ensures FirstDefiner(kind, g, order, key) == FirstDefiner(kind, g - {x}, order, key)
  {
    if order != [] {
      DefinerWithout(kind, g, x, order[1..], key);
    }
  }

  lemma SearchFromHere(kind: Kind, g: Graph, id: ClassId, ids: seq<ClassId>, u: set<ClassId>, key: Name)
    requires id in u && Spent(kind, g - {id}, u, key)
    ensures FirstDefiner(kind, g, LinearizeAll(kind, g, ids, u).0, key) == Asked(kind, g - {id}, ids, key)
    ensures Asked(kind, g - {id}, ids, key).None? ==> Spent(kind, g - {id}, LinearizeAll(kind, g, ids, u).1, key)
  {
    hide Spent, Linearize, LinearizeAll, FirstDefiner;
    AllWithoutVisited(kind, g, id, ids, u);
    LinearizeAllExplores(kind, g, ids, u);
    DefinerWithout(kind, g, id, LinearizeAll(kind, g, ids, u).0, key);
    SearchEach(kind, g - {id}, ids, u, key);
  }

  // A lookup asks each ancestor on its own, in a graph without the class itself.
  lemma LookupAsks(kind: Kind, g: Graph, id: ClassId, key: Name)
    requires id in g
    ensures var before := Asked(kind, g - {id}, Before(kind, g[id]), key);
            Resolve(kind, g, id, key)
            == if before.Some? then before
               else if key in Table(kind, g[id]) then Some((Table(kind, g[id])[key], id))
               else Asked(kind, g - {id}, After(kind, g[id]), key)
  {
    hide FirstDefiner, Before, After, LinearizeAll, Table;
    assert {} + {id} == {id};
    assert Spent(kind, g - {id}, {id}, key);
    var (first, v1) := LinearizeAll(kind, g, Before(kind, g[id]), {id});
    SearchFromHere(kind, g, id, Before(kind, g[id]), {id}, key);
    ThreeParts(kind, g, first, id, LinearizeAll(kind, g, After(kind, g[id]), v1).0, key);
    if Asked(kind, g - {id}, Before(kind, g[id]), key).None? {
      SearchFromHere(kind, g, id, After(kind, g[id]), v1, key);
    }
  }

  // ---------------------------------------------------------------- the order

  // Methods: the last prepended module that finds the key, else the class, else the first included module
  // that finds it, else the superclass.
  lemma MethodOrder(g: Graph, id: ClassId, key: Name)
    requires id in g
    ensures var others, c, found := g - {id}, g[id], Resolve(Methods, g, id, key);
            var inVain := forall k :: 0 <= k < |c.prepended| ==> Resolve(Methods, others, c.prepended[k], key).None?;
            && (forall j :: 0 <= j < |c.prepended| && Resolve(Methods, others, c.prepended[j], key).Some?
                  && (forall k :: j < k < |c.prepended| ==> Resolve(Methods, others, c.prepended[k], key).None?)
                  ==> found == Resolve(Methods, others, c.prepended[j], key))
            && (inVain && key in c.methods ==> found == Some((c.methods[key], id)))
            && (inVain && key !in c.methods ==>
                  (forall j :: 0 <= j < |c.included| && Resolve(Methods, others, c.included[j], key).Some?
                     && (forall k :: 0 <= k < j ==> Resolve(Methods, others, c.included[k], key).None?)
                     ==> found == Resolve(Methods, others, c.included[j], key)))
            && (inVain && key !in c.methods
                && (forall k :: 0 <= k < |c.included| ==> Resolve(Methods, others, c.included[k], key).None?)
                ==> found == if c.superclass.Some? then Resolve(Methods, others, c.superclass.value, key) else None)
  {
    hide Resolve;
    var others, c := g - {id}, g[id];
    var last := Reversed(c.prepended);
    LookupAsks(Methods, g, id, key);
    AskedConcat(Methods, others, c.included, SuperList(c), key);
    AskedNone(Methods, others, last, key);
    AskedNone(Methods, others, c.included, key);
    forall j | 0 <= j < |c.prepended| && Resolve(Methods, others, c.prepended[j], key).Some?
               && (forall k :: j < k < |c.prepended| ==> Resolve(Methods, others, c.prepended[k], key).None?)
      ensures Asked(Methods, others, last, key) == Resolve(Methods, others, c.prepended[j], key)
    {
      assert last[|last| - 1 - j] == c.prepended[j];
      AskedFirst(Methods, others, last, key, |last| - 1 - j);
    }
    forall j | 0 <= j < |c.included| && Resolve(Methods, others, c.included[j], key).Some?
               && (forall k :: 0 <= k < j ==> Resolve(Methods, others, c.included[k], key).None?)
      ensures Asked(Methods, others, c.included, key) == Resolve(Methods, others, c.included[j], key)
    {
      AskedFirst(Methods, others, c.included, key, j);
    }
    if forall k :: 0 <= k < |c.prepended| ==> Resolve(Methods, others, c.prepended[k], key).None? {
      assert forall k :: 0 <= k < |last| ==> last[k] == c.prepended[|last| - 1 - k];
    }
  }

  // Constants: the class, else the last included module that finds the key, else the superclass.
  lemma ConstantOrder(g: Graph, id: ClassId, key: Name)
    requires id in g
    ensures var others, c, found := g - {id}, g[id], Resolve(Consts, g, id, key);
            && (key in c.consts ==> found == Some((c.consts[key], id)))
            && (key !in c.consts ==>
                  (forall j :: 0 <= j < |c.included| && Resolve(Consts, others, c.included[j], key).Some?
                     && (forall k :: j < k < |c.included| ==> Resolve(Consts, others, c.included[k], key).None?)
                     ==> found == Resolve(Consts, others, c.included[j], key)))
            && (key !in c.consts
                && (forall k :: 0 <= k < |c.included| ==> Resolve(Consts, others, c.included[k], key).None?)
                ==> found == if c.superclass.Some? then Resolve(Consts, others, c.superclass.value, key) else None)
  {
    hide Resolve;
    var others, c := g - {id}, g[id];
    var last := Reversed(c.included);
    LookupAsks(Consts, g, id, key);
    AskedConcat(Consts, others, last, SuperList(c), key);
    AskedNone(Consts, others, last, key);
    forall j | 0 <= j < |c.included| && Resolve(Consts, others, c.included[j], key).Some?
               && (forall k :: j < k < |c.included| ==> Resolve(Consts, others, c.included[k], key).None?)
      ensures Asked(Consts, others, last, key) == Resolve(Consts, others, c.included[j], key)
    {
      assert last[|last| - 1 - j] == c.included[j];
      AskedFirst(Consts, others, last, key, |last| - 1 - j);
    }
    if forall k :: 0 <= k < |c.included| ==> Resolve(Consts, others, c.included[k], key).None? {
      assert forall k :: 0 <= k < |last| ==> last[k] == c.included[|last| - 1 - k];
    }
  }

  // What is no class finds nothing.
  lemma NoClassFindsNothing(kind: Kind, g: Graph, id: ClassId, key: Name)
    requires id !in g
    ensures Resolve(kind, g, id, key).None?
  {
  }

  // ---------------------------------------------------------------- what can be reached

  /** One class leads a search on to another. */
  predicate Refers(kind: Kind, c: Class, b: ClassId) {
    (kind == Methods && b in c.prepended) || b in c.included || c.superclass == Some(b)
  }

  lemma EdgesAreReferences(kind: Kind, g: Graph, a: ClassId, b: ClassId)
    ensures Edge(kind, g, a, b) <==> a in g && Refers(kind, g[a], b)
  {
    if a in g {
      var c := g[a];
      InReversed(c.prepended, b);
      InReversed(c.included, b);
      assert b in SuperList(c) <==> c.superclass == Some(b);
    }
  }

  lemma InReversed(ids: seq<ClassId>, b: ClassId)
    ensures b in Reversed(ids) <==> b in ids
  {
    if b in ids {
      var k :| 0 <= k < |ids| && ids[k] == b;
      assert Reversed(ids)[|ids| - 1 - k] == b;
    }
  }

  // A method of the class itself is found if no prepended module leads to another definer.
  lemma OwnMethodWins(g: Graph, id: ClassId, key: Name)
    requires id in g && key in g[id].methods
    requires forall m, c :: m in g[id].prepended && c in g && c != id && Reaches(Methods, g - {id}, m, c)
               ==> key !in g[c].methods
    ensures Resolve(Methods, g, id, key) == Some((g[id].methods[key], id))
  {
    hide Resolve;
    forall m | m in g[id].prepended
      ensures Resolve(Methods, g - {id}, m, key).None?
    {
      NothingFoundExactly(Methods, g - {id}, m, key);
    }
    MethodOrder(g, id, key);
  }

  // A search that cannot come back to a class finds the same without that class.
  lemma UnreachedIsNotMissed(kind: Kind, g: Graph, id: ClassId, x: ClassId, key: Name)
    requires !Reaches(kind, g, id, x)
    ensures Resolve(kind, g - {x}, id, key) == Resolve(kind, g, id, key)
  {
    UnreachedSame(kind, g, id, x, {});
    LinearizationIsReachable(kind, g, id);
    DefinerWithout(kind, g, x, Linearize(kind, g, id, {}).0, key);
  }

  lemma {:induction false} UnreachedSame(kind: Kind, g: Graph, id: ClassId, x: ClassId, u: set<ClassId>)
    requires !Reaches(kind, g, id, x)
    ensures Linearize(kind, g - {x}, id, u) == Linearize(kind, g, id, u)
    decreases g.Keys - u, 0
  {
    hide Before, After, Reaches;
    NotItself(kind, g, id, x);
    if id !in u && id in g {
      assert forall b :: b in Before(kind, g[id]) || b in After(kind, g[id]) ==> Edge(kind, g, id, b);
      forall b | b in Before(kind, g[id]) || b in After(kind, g[id])
        ensures !Reaches(kind, g, b, x)
      {
        if Reaches(kind, g, b, x) {
          ReachesFurther(kind, g, id, b, x);
        }
      }
      AllUnreachedSame(kind, g, Before(kind, g[id]), x, u + {id});
      var v1 := LinearizeAll(kind, g, Before(kind, g[id]), u + {id}).1;
      AllUnreachedSame(kind, g, After(kind, g[id]), x, v1);
    }
  }

  lemma NotItself(kind: Kind, g: Graph, id: ClassId, x: ClassId)
    requires !Reaches(kind, g, id, x)
    ensures id != x
  {
    assert Chain(kind, g, [id]);
  }

  lemma {:induction false} AllUnreachedSame(kind: Kind, g: Graph, ids: seq<ClassId>, x: ClassId, u: set<ClassId>)
    requires forall b | b in ids :: !Reaches(kind, g, b, x)
    ensures LinearizeAll(kind, g - {x}, ids, u) == LinearizeAll(kind, g, ids, u)
    decreases g.Keys - u, 1, |ids|
  {
    hide Reaches;
    if ids != [] {
      UnreachedSame(kind, g, ids[0], x, u);
      AllUnreachedSame(kind, g, ids[1..], x, Linearize(kind, g, ids[0], u).1);
    }
  }

  // A class without modules and without a method of its own answers as its superclass does.
  lemma MethodsAreInherited(g: Graph, id: ClassId, key: Name)
    requires id in g && g[id].superclass.Some? && g[id].prepended == g[id].included == []
    requires !Reaches(Methods, g, g[id].superclass.value, id)
    ensures Resolve(Methods, g, id, key)
            == if key in g[id].methods then Some((g[id].methods[key], id))
               else Resolve(Methods, g, g[id].superclass.value, key)
  {
    hide Resolve;
    MethodOrder(g, id, key);
    UnreachedIsNotMissed(Methods, g, g[id].superclass.value, id, key);
  }
}
