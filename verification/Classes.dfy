/**
  Classes and modules, and the lookup of methods and constants: a depth-first search with one set of
  visited classes, over a graph that may have cycles.
 */
module Classes {
  import opened Options
  import opened Mir

  type ClassId = nat
  type Name = nat

  datatype Class = Class(
    name: string,
    superclass: Option<ClassId>,
    included: seq<ClassId>,
    prepended: seq<ClassId>,
    methods: map<Name, Value>,
    consts: map<Name, Value>,
    isModule: bool
  )

  type Graph = map<ClassId, Class>

  /** The two lookups: they consult different tables, and the ancestors in different order. */
  datatype Kind = Methods | Consts

  function Reversed(ids: seq<ClassId>): (out: seq<ClassId>)
    ensures |out| == |ids| && forall k :: 0 <= k < |ids| ==> out[k] == ids[|ids| - 1 - k]
  {
    seq(|ids|, k requires 0 <= k < |ids| => ids[|ids| - 1 - k])
  }

  function SuperList(c: Class): seq<ClassId> {
    if c.superclass.Some? then [c.superclass.value] else []
  }

  /** Ancestors that come before the class itself. */
  function Before(kind: Kind, c: Class): seq<ClassId> {
    match kind
    case Methods => Reversed(c.prepended)
    case Consts => []
  }

  /** Ancestors that come after it. */
  function After(kind: Kind, c: Class): seq<ClassId> {
    match kind
    case Methods => c.included + SuperList(c)
    case Consts => Reversed(c.included) + SuperList(c)
  }

  function Table(kind: Kind, c: Class): map<Name, Value> {
    match kind
    case Methods => c.methods
    case Consts => c.consts
  }

  // ---------------------------------------------------------------- the linearization

  /** The classes a search from id goes through, in order, and the set visited afterwards. */
  function Linearize(kind: Kind, g: Graph, id: ClassId, visited: set<ClassId>): (r: (seq<ClassId>, set<ClassId>))
    ensures visited <= r.1
    decreases g.Keys - visited, 0
  {
    if id in visited then ([], visited)
    else if id !in g then ([], visited + {id})
    else
      var (first, v1) := LinearizeAll(kind, g, Before(kind, g[id]), visited + {id});
      var (rest, v2) := LinearizeAll(kind, g, After(kind, g[id]), v1);
      (first + [id] + rest, v2)
  }

  function LinearizeAll(kind: Kind, g: Graph, ids: seq<ClassId>,
                        visited: set<ClassId>): (r: (seq<ClassId>, set<ClassId>))
    ensures visited <= r.1
    decreases g.Keys - visited, 1, |ids|
  {
    if ids == [] then ([], visited)
    else
      var (first, v1) := Linearize(kind, g, ids[0], visited);
      var (rest, v2) := LinearizeAll(kind, g, ids[1..], v1);
      (first + rest, v2)
  }

  /** The first class of the order that defines the key. */
  function FirstDefiner(kind: Kind, g: Graph, order: seq<ClassId>, key: Name): Option<(Value, ClassId)> {
    if order == [] then None
    else if order[0] in g && key in Table(kind, g[order[0]]) then Some((Table(kind, g[order[0]])[key], order[0]))
    else FirstDefiner(kind, g, order[1..], key)
  }

  lemma {:induction false} FirstDefinerConcat(kind: Kind, g: Graph, a: seq<ClassId>, b: seq<ClassId>, key: Name)
    ensures FirstDefiner(kind, g, a + b, key)
            == if FirstDefiner(kind, g, a, key).Some? then FirstDefiner(kind, g, a, key)
               else FirstDefiner(kind, g, b, key)
  {
    if a == [] {
      assert a + b == b;
    } else {
      assert (a + b)[1..] == a[1..] + b;
      FirstDefinerConcat(kind, g, a[1..], b, key);
    }
  }

  lemma {:induction false} FirstDefinerNone(kind: Kind, g: Graph, order: seq<ClassId>, key: Name)
    ensures FirstDefiner(kind, g, order, key).None?
            <==> forall c :: c in order && c in g ==> key !in Table(kind, g[c])
  {
    if order != [] {
      FirstDefinerNone(kind, g, order[1..], key);
      assert forall c :: c in order <==> c == order[0] || c in order[1..];
    }
  }

  // ---------------------------------------------------------------- what the linearization is

  predicate Edge(kind: Kind, g: Graph, a: ClassId, b: ClassId) {
    a in g && (b in Before(kind, g[a]) || b in After(kind, g[a]))
  }

  predicate Chain(kind: Kind, g: Graph, p: seq<ClassId>) {
    p != [] && forall k :: 0 < k < |p| ==> Edge(kind, g, p[k - 1], p[k])
  }

  ghost predicate Reaches(kind: Kind, g: Graph, a: ClassId, b: ClassId) {
    exists p :: Chain(kind, g, p) && p[0] == a && p[|p| - 1] == b
  }

  /** The order lists what was newly visited, once each; and whatever was newly visited is closed. */
  ghost predicate Explores(kind: Kind, g: Graph, visited: set<ClassId>, order: seq<ClassId>, visited': set<ClassId>) {
    && visited <= visited'
    && (forall c :: c in order <==> c in visited' && c !in visited && c in g)
    && (forall j, k :: 0 <= j < k < |order| ==> order[j] != order[k])
    && (forall a, b :: a in visited' && a !in visited && Edge(kind, g, a, b) ==> b in visited')
  }

  lemma ExploresThen(kind: Kind, g: Graph, v: set<ClassId>, a: seq<ClassId>, v1: set<ClassId>, b: seq<ClassId>,
                     v2: set<ClassId>)
    requires Explores(kind, g, v, a, v1) && Explores(kind, g, v1, b, v2)
    ensures Explores(kind, g, v, a + b, v2)
  {
    forall c
      ensures c in a + b <==> c in v2 && c !in v && c in g
    {
      assert c in a + b <==> c in a || c in b;
    }
    forall j, k | 0 <= j < k < |a + b|
      ensures (a + b)[j] != (a + b)[k]
    {
      if j < |a| <= k {
        assert (a + b)[j] in a && (a + b)[k] in b;
      }
    }
  }

  lemma {:induction false} LinearizeExplores(kind: Kind, g: Graph, id: ClassId, visited: set<ClassId>)
    ensures var (order, visited') := Linearize(kind, g, id, visited);
            Explores(kind, g, visited, order, visited') && id in visited'
    decreases g.Keys - visited, 0
  {
    if id !in visited && id in g {
      var (first, v1) := LinearizeAll(kind, g, Before(kind, g[id]), visited + {id});
      var (rest, v2) := LinearizeAll(kind, g, After(kind, g[id]), v1);
      LinearizeAllExplores(kind, g, Before(kind, g[id]), visited + {id});
      LinearizeAllExplores(kind, g, After(kind, g[id]), v1);
      ExploresThen(kind, g, visited + {id}, first, v1, rest, v2);
      AddSelf(kind, g, id, visited, first, rest, v2);
    }
  }

  lemma AddSelf(kind: Kind, g: Graph, id: ClassId, visited: set<ClassId>, first: seq<ClassId>, rest: seq<ClassId>,
                v2: set<ClassId>)
    requires id !in visited && id in g && Explores(kind, g, visited + {id}, first + rest, v2)
    requires forall b :: Edge(kind, g, id, b) ==> b in v2
    ensures Explores(kind, g, visited, first + [id] + rest, v2)
  {
    var order, all := first + rest, first + [id] + rest;
    forall c
      ensures c in all <==> c in v2 && c !in visited && c in g
    {
      assert c in all <==> c in order || c == id;
    }
    forall j, k | 0 <= j < k < |all|
      ensures all[j] != all[k]
    {
      var j', k' := if j < |first| then j else j - 1, if k < |first| then k else k - 1;
      assert j != |first| ==> all[j] == order[j'] && order[j'] in order;
      assert k != |first| ==> all[k] == order[k'] && order[k'] in order;
    }
  }

  lemma {:induction false} LinearizeAllExplores(kind: Kind, g: Graph, ids: seq<ClassId>, visited: set<ClassId>)
    ensures var (order, visited') := LinearizeAll(kind, g, ids, visited);
            Explores(kind, g, visited, order, visited') && forall c :: c in ids ==> c in visited'
    decreases g.Keys - visited, 1, |ids|
  {
    if ids != [] {
      var (first, v1) := Linearize(kind, g, ids[0], visited);
      var (rest, v2) := LinearizeAll(kind, g, ids[1..], v1);
      LinearizeExplores(kind, g, ids[0], visited);
      LinearizeAllExplores(kind, g, ids[1..], v1);
      ExploresThen(kind, g, visited, first, v1, rest, v2);
    }
  }

  lemma {:induction false} VisitedIsReachable(kind: Kind, g: Graph, id: ClassId, visited: set<ClassId>, c: ClassId)
    requires c in Linearize(kind, g, id, visited).1 && c !in visited
    ensures Reaches(kind, g, id, c)
    decreases g.Keys - visited, 0
  {
    hide Before, After;
    if c == id {
      assert Chain(kind, g, [id]);
    } else {
      var v1 := LinearizeAll(kind, g, Before(kind, g[id]), visited + {id}).1;
      var next: ClassId;
      if c in v1 {
        next := VisitedFromAll(kind, g, Before(kind, g[id]), visited + {id}, c);
      } else {
        next := VisitedFromAll(kind, g, After(kind, g[id]), v1, c);
      }
      ReachesFurther(kind, g, id, next, c);
    }
  }

  lemma ReachesFurther(kind: Kind, g: Graph, a: ClassId, b: ClassId, c: ClassId)
    requires Edge(kind, g, a, b) && Reaches(kind, g, b, c)
    ensures Reaches(kind, g, a, c)
  {
    hide Edge;
    var p :| Chain(kind, g, p) && p[0] == b && p[|p| - 1] == c;
    var q := [a] + p;
    assert forall k :: 0 < k < |q| ==> q[k] == p[k - 1];
    assert Chain(kind, g, q);
  }

  lemma {:induction false} VisitedFromAll(kind: Kind, g: Graph, ids: seq<ClassId>, visited: set<ClassId>, c: ClassId)
    returns (next: ClassId)
    requires c in LinearizeAll(kind, g, ids, visited).1 && c !in visited
    ensures next in ids && Reaches(kind, g, next, c)
    decreases g.Keys - visited, 1, |ids|
  {
    var v1 := Linearize(kind, g, ids[0], visited).1;
    if c in v1 {
      VisitedIsReachable(kind, g, ids[0], visited, c);
      next := ids[0];
    } else {
      next := VisitedFromAll(kind, g, ids[1..], v1, c);
    }
  }

  lemma {:induction false} ClosedHoldsChain(kind: Kind, g: Graph, closed: set<ClassId>, p: seq<ClassId>, k: nat)
    requires Chain(kind, g, p) && p[0] in closed && k < |p|
    requires forall a, b :: a in closed && Edge(kind, g, a, b) ==> b in closed
    ensures p[k] in closed
  {
    if k > 0 {
      ClosedHoldsChain(kind, g, closed, p, k - 1);
    }
  }

  // Every class the search can reach occurs in the order, exactly once, and nothing else does.
  lemma LinearizationIsReachable(kind: Kind, g: Graph, id: ClassId)
    ensures var order := Linearize(kind, g, id, {}).0;
            && (forall c :: c in order <==> c in g && Reaches(kind, g, id, c))
            && forall j, k :: 0 <= j < k < |order| ==> order[j] != order[k]
  {
    var (order, visited) := Linearize(kind, g, id, {});
    LinearizeExplores(kind, g, id, {});
    forall c
      ensures c in order <==> c in g && Reaches(kind, g, id, c)
    {
      if c in order {
        VisitedIsReachable(kind, g, id, {}, c);
      }
      if p :| c in g && Chain(kind, g, p) && p[0] == id && p[|p| - 1] == c {
        ClosedHoldsChain(kind, g, visited, p, |p| - 1);
      }
    }
  }

  /** What the lookup of a key from a class finds: the value and the class that defines it. */
  function Resolve(kind: Kind, g: Graph, id: ClassId, key: Name): Option<(Value, ClassId)> {
    FirstDefiner(kind, g, Linearize(kind, g, id, {}).0, key)
  }

  // Nothing is found exactly when nothing that can be reached defines the key.
  lemma NothingFoundExactly(kind: Kind, g: Graph, id: ClassId, key: Name)
    ensures Resolve(kind, g, id, key).None?
            <==> forall c :: c in g && Reaches(kind, g, id, c) ==> key !in Table(kind, g[c])
  {
    LinearizationIsReachable(kind, g, id);
    FirstDefinerNone(kind, g, Linearize(kind, g, id, {}).0, key);
  }

  // ---------------------------------------------------------------- superclasses

  function SuperclassOf(g: Graph, id: ClassId): Option<ClassId> {
    if id in g then g[id].superclass else None
  }

  /** The n-th superclass of id, if there is one. */
  function Ancestor(g: Graph, id: ClassId, n: nat): Option<ClassId>
    decreases n
  {
    if n == 0 then Some(id)
    else match SuperclassOf(g, id)
      case None => None
      case Some(s) => Ancestor(g, s, n - 1)
  }

  ghost predicate IsAncestor(g: Graph, id: ClassId, ancestor: ClassId) {
    exists n: nat :: Ancestor(g, id, n) == Some(ancestor)
  }

  /** The walk up from id meets the ancestor, or comes to an end, within n steps. */
  predicate WalkEnds(g: Graph, id: ClassId, ancestor: ClassId, n: nat)
    decreases n
  {
    id == ancestor
    || SuperclassOf(g, id).None?
    || (n > 0 && WalkEnds(g, SuperclassOf(g, id).value, ancestor, n - 1))
  }

  /** The superclasses of id come to an end within n steps. */
  predicate ChainEnds(g: Graph, id: ClassId, n: nat)
    decreases n
  {
    SuperclassOf(g, id).None? || (n > 0 && ChainEnds(g, SuperclassOf(g, id).value, n - 1))
  }

  /** The superclasses of id lead to a cycle. */
  ghost predicate LeadsToCycle(g: Graph, id: ClassId) {
    exists j: nat, k: nat :: OnCycle(g, id, j, k)
  }

  predicate OnCycle(g: Graph, id: ClassId, j: nat, k: nat) {
    k > 0 && Ancestor(g, id, j).Some? && Ancestor(g, Ancestor(g, id, j).value, k) == Ancestor(g, id, j)
  }

  lemma {:induction false} LongerChain(g: Graph, id: ClassId, k: nat, n: nat)
    requires ChainEnds(g, id, k) && k <= n
    ensures ChainEnds(g, id, n)
    decreases k
  {
    if SuperclassOf(g, id).Some? {
      LongerChain(g, SuperclassOf(g, id).value, k - 1, n - 1);
    }
  }

  lemma {:induction false} AncestorOfAncestor(g: Graph, id: ClassId, j: nat, k: nat)
    requires Ancestor(g, id, j).Some?
    ensures Ancestor(g, id, j + k) == Ancestor(g, Ancestor(g, id, j).value, k)
    decreases j
  {
    if j > 0 {
      AncestorOfAncestor(g, SuperclassOf(g, id).value, j - 1, k);
    }
  }

  // A cycle has no end.
  lemma {:induction false} CycleNeverEnds(g: Graph, id: ClassId, k: nat, n: nat)
    requires k > 0 && Ancestor(g, id, k) == Some(id)
    ensures !ChainEnds(g, id, n)
    decreases n
  {
    var s := SuperclassOf(g, id).value;
    assert Ancestor(g, s, 0) == Some(s) && Ancestor(g, id, 1) == Some(s);
    AncestorOfAncestor(g, id, 1, k);
    AncestorOfAncestor(g, id, k, 1);
    if n > 0 {
      CycleNeverEnds(g, s, k, n - 1);
    }
  }

  lemma {:induction false} CycleAheadNeverEnds(g: Graph, id: ClassId, j: nat, k: nat, n: nat)
    requires OnCycle(g, id, j, k)
    ensures !ChainEnds(g, id, n)
    decreases j
  {
    if j == 0 {
      CycleNeverEnds(g, id, k, n);
    } else {
      assert OnCycle(g, SuperclassOf(g, id).value, j - 1, k);
      if n > 0 {
        CycleAheadNeverEnds(g, SuperclassOf(g, id).value, j - 1, k, n - 1);
      }
    }
  }

  // A chain that does not meet a class does not depend on it.
  lemma {:induction false} AvoidingSame(g: Graph, c: ClassId, id: ClassId, n: nat)
    requires forall j: nat :: Ancestor(g, id, j) != Some(c)
    ensures ChainEnds(g - {c}, id, n) == ChainEnds(g, id, n) && Ancestor(g - {c}, id, n) == Ancestor(g, id, n)
    decreases n
  {
    assert Ancestor(g, id, 0) == Some(id);
    if n > 0 && SuperclassOf(g, id).Some? {
      var s := SuperclassOf(g, id).value;
      assert forall j: nat :: Ancestor(g, s, j) == Ancestor(g, id, j + 1);
      AvoidingSame(g, c, s, n - 1);
    }
  }

  // A chain of superclasses ends within as many steps as there are classes, or leads to a cycle.
  lemma {:induction false} EndsOrCycle(g: Graph, id: ClassId)
    ensures ChainEnds(g, id, |g|) || LeadsToCycle(g, id)
    decreases |g|
  {
    if SuperclassOf(g, id).Some? {
      var s := SuperclassOf(g, id).value;
      if j: nat :| Ancestor(g, s, j) == Some(id) {
        assert Ancestor(g, id, 0) == Some(id) && Ancestor(g, id, j + 1) == Some(id);
        assert OnCycle(g, id, 0, j + 1);
      } else {
        var rest := g - {id};
        assert |rest| == |g| - 1 by {
          assert rest.Keys == g.Keys - {id};
        }
        EndsOrCycle(rest, s);
        AvoidingSame(g, id, s, |rest|);
        if j: nat, k: nat :| OnCycle(rest, s, j, k) {
          CycleKept(g, id, s, j, k);
        }
      }
    }
  }

  lemma CycleKept(g: Graph, id: ClassId, s: ClassId, j: nat, k: nat)
    requires SuperclassOf(g, id) == Some(s) && OnCycle(g - {id}, s, j, k)
    requires forall i: nat :: Ancestor(g, s, i) != Some(id)
    ensures LeadsToCycle(g, id)
  {
    AvoidingSame(g, id, s, j);
    AvoidingSame(g, id, s, j + k);
    AncestorOfAncestor(g - {id}, s, j, k);
    AncestorOfAncestor(g, s, j, k);
    assert Ancestor(g, id, j + 1) == Ancestor(g, s, j);
    assert OnCycle(g, id, j + 1, k);
  }

  // Met or not, the walk up from id is the chain of superclasses that is cut off at the ancestor.
  lemma {:induction false} WalkIsChain(g: Graph, id: ClassId, ancestor: ClassId, n: nat)
    ensures WalkEnds(g, id, ancestor, n) <==> ChainEnds(g - {ancestor}, id, n)
    decreases n
  {
    if id != ancestor && SuperclassOf(g, id).Some? && n > 0 {
      WalkIsChain(g, SuperclassOf(g, id).value, ancestor, n - 1);
    }
  }

  // The walk ends at all exactly if it ends within as many steps as there are classes, and it does not exactly if
  // it leads to a cycle without meeting the ancestor before.
  lemma WalkEndsExactly(g: Graph, id: ClassId, ancestor: ClassId)
    ensures (exists n: nat :: WalkEnds(g, id, ancestor, n)) <==> WalkEnds(g, id, ancestor, |g|)
    ensures WalkEnds(g, id, ancestor, |g|) <==> !LeadsToCycle(g - {ancestor}, id)
  {
    var rest := g - {ancestor};
    assert |rest| <= |g| by {
      assert rest.Keys == g.Keys - {ancestor};
    }
    EndsOrCycle(rest, id);
    WalkIsChain(g, id, ancestor, |g|);
    if ChainEnds(rest, id, |rest|) {
      LongerChain(rest, id, |rest|, |g|);
    }
    if j: nat, k: nat :| OnCycle(rest, id, j, k) {
      forall n: nat
        ensures !WalkEnds(g, id, ancestor, n)
      {
        CycleAheadNeverEnds(rest, id, j, k, n);
        WalkIsChain(g, id, ancestor, n);
      }
    }
  }

  /** Superclasses are older than their subclasses, as they are if they exist before. */
  ghost predicate Ordered(g: Graph) {
    forall id :: id in g && g[id].superclass.Some? ==> g[id].superclass.value < id
  }

  lemma {:induction false} OrderedWalkEnds(g: Graph, id: ClassId, ancestor: ClassId)
    requires Ordered(g)
    ensures WalkEnds(g, id, ancestor, id)
  {
    if id != ancestor && SuperclassOf(g, id).Some? {
      var s := SuperclassOf(g, id).value;
      OrderedWalkEnds(g, s, ancestor);
      LongerWalk(g, s, ancestor, s, id - 1);
    }
  }

  lemma {:induction false} LongerWalk(g: Graph, id: ClassId, ancestor: ClassId, k: nat, n: nat)
    requires WalkEnds(g, id, ancestor, k) && k <= n
    ensures WalkEnds(g, id, ancestor, n)
    decreases k
  {
    if id != ancestor && SuperclassOf(g, id).Some? {
      LongerWalk(g, SuperclassOf(g, id).value, ancestor, k - 1, n - 1);
    }
  }

  // ---------------------------------------------------------------- the hierarchy

  /** One more at the end if it is not there yet, and no duplicates. */
  ghost predicate AddedOnce(was: seq<ClassId>, id: ClassId, now: seq<ClassId>) {
    && was <= now && |now| <= |was| + 1 && NoDuplicates(now)
    && forall other :: other in now <==> other in was || other == id
  }

  predicate NoDuplicates(ids: seq<ClassId>) {
    forall j, k :: 0 <= j < k < |ids| ==> ids[j] != ids[k]
  }

  class ClassHierarchy {
    var classes: Graph
    var nextId: ClassId

    ghost predicate Valid()
      reads this
    {
      && nextId > 0
      && forall id :: id in classes ==>
           id < nextId && NoDuplicates(classes[id].included) && NoDuplicates(classes[id].prepended)
    }

    constructor ()
      ensures Valid() && classes == map[] && nextId == 1
    {
      classes, nextId := map[], 1;
    }

    method DefineClass(name: string, superclass: Option<ClassId>, isModule: bool) returns (id: ClassId)
      requires Valid()
      modifies this
      ensures Valid() && id == old(nextId) && id !in old(classes) && nextId == id + 1
      ensures classes == old(classes)[id := Class(name, superclass, [], [], map[], map[], isModule)]
      ensures Ordered(old(classes)) && (superclass.Some? ==> superclass.value in old(classes)) ==> Ordered(classes)
    {
      id := nextId;
      nextId := nextId + 1;
      classes := classes[id := Class(name, superclass, [], [], map[], map[], isModule)];
    }

    method IncludeModule(id: ClassId, moduleId: ClassId)
      requires Valid() && id in classes
      modifies this`classes
      ensures Valid()
      ensures id in classes && AddedOnce(old(classes)[id].included, moduleId, classes[id].included)
      ensures classes == old(classes)[id := old(classes)[id].(included := classes[id].included)]
    {
      if moduleId !in classes[id].included {
        classes := classes[id := classes[id].(included := classes[id].included + [moduleId])];
      }
    }

    method PrependModule(id: ClassId, moduleId: ClassId)
      requires Valid() && id in classes
      modifies this`classes
      ensures Valid()
      ensures id in classes && AddedOnce(old(classes)[id].prepended, moduleId, classes[id].prepended)
      ensures classes == old(classes)[id := old(classes)[id].(prepended := classes[id].prepended)]
    {
      if moduleId !in classes[id].prepended {
        classes := classes[id := classes[id].(prepended := classes[id].prepended + [moduleId])];
      }
    }

    method DefineMethod(id: ClassId, key: Name, entry: Value)
      requires Valid() && id in classes
      modifies this`classes
      ensures Valid()
      ensures classes == old(classes)[id := old(classes)[id].(methods := old(classes)[id].methods[key := entry])]
    {
      classes := classes[id := classes[id].(methods := classes[id].methods[key := entry])];
    }

    // The search visits the linearization up to the first definer. It terminates on every graph.
    method LookupRecursive(kind: Kind, id: ClassId, key: Name, visited: set<ClassId>)
      returns (found: Option<(Value, ClassId)>, visited': set<ClassId>)
      ensures found == FirstDefiner(kind, classes, Linearize(kind, classes, id, visited).0, key)
      ensures found.None? ==> visited' == Linearize(kind, classes, id, visited).1
      decreases classes.Keys - visited, 0
    {
      if id in visited {
        return None, visited;
      }
      visited' := visited + {id};
      if id !in classes {
        return None, visited';
      }
      var c := classes[id];
      ghost var (before, v1) := LinearizeAll(kind, classes, Before(kind, c), visited');
      ghost var (after, v2) := LinearizeAll(kind, classes, After(kind, c), v1);
      FirstDefinerConcat(kind, classes, before + [id], after, key);
      FirstDefinerConcat(kind, classes, before, [id], key);
      found, visited' := LookupEach(kind, Before(kind, c), key, visited');
      if found.Some? {
        return;
      }
      if key in Table(kind, c) {
        return Some((Table(kind, c)[key], id)), visited';
      }
      found, visited' := LookupEach(kind, After(kind, c), key, visited');
    }

    method LookupEach(kind: Kind, ids: seq<ClassId>, key: Name, visited: set<ClassId>)
      returns (found: Option<(Value, ClassId)>, visited': set<ClassId>)
      ensures found == FirstDefiner(kind, classes, LinearizeAll(kind, classes, ids, visited).0, key)
      ensures found.None? ==> visited' == LinearizeAll(kind, classes, ids, visited).1
      decreases classes.Keys - visited, 1
    {
      found, visited' := None, visited;
      for i := 0 to |ids|
        invariant visited <= visited' && found.None?
        invariant FirstDefiner(kind, classes, LinearizeAll(kind, classes, ids, visited).0, key)
                  == FirstDefiner(kind, classes, LinearizeAll(kind, classes, ids[i..], visited').0, key)
        invariant LinearizeAll(kind, classes, ids, visited).1 == LinearizeAll(kind, classes, ids[i..], visited').1
      {
        assert ids[i..][1..] == ids[i + 1..];
        ghost var (first, v1) := Linearize(kind, classes, ids[i], visited');
        FirstDefinerConcat(kind, classes, first, LinearizeAll(kind, classes, ids[i + 1..], v1).0, key);
        found, visited' := LookupRecursive(kind, ids[i], key, visited');
        if found.Some? {
          return;
        }
      }
    }

    method LookupMethod(id: ClassId, key: Name) returns (found: Option<(Value, ClassId)>)
      ensures found == Resolve(Methods, classes, id, key)
    {
      var visited;
      found, visited := LookupRecursive(Methods, id, key, {});
    }

    method LookupConst(id: ClassId, key: Name) returns (found: Option<Value>)
      ensures found == match Resolve(Consts, classes, id, key)
                       case Some(r) => Some(r.0)
                       case None => None
    {
      var r, visited := LookupRecursive(Consts, id, key, {});
      found := match r
        case Some(x) => Some(x.0)
        case None => None;
    }

    // The walk of the source goes on for ever on a cycle. Here it gives up after as many steps as there are
    // classes; by then it would never have ended.
    method IsSubclass(id: ClassId, ancestor: ClassId) returns (yes: Option<bool>)
      ensures yes.None? <==> forall n: nat :: !WalkEnds(classes, id, ancestor, n)
      ensures yes.Some? ==> (yes.value <==> IsAncestor(classes, id, ancestor))
    {
      WalkEndsExactly(classes, id, ancestor);
      var current := Some(id);
      ghost var steps := 0;
      var left: nat := |classes|;
      assert Ancestor(classes, id, 0) == Some(id);
      while current.Some?
        invariant current == Ancestor(classes, id, steps)
        invariant current.Some? ==>
                    (WalkEnds(classes, current.value, ancestor, left) <==> WalkEnds(classes, id, ancestor, |classes|))
        invariant current.None? ==> WalkEnds(classes, id, ancestor, |classes|)
        invariant forall k: nat :: k < steps ==> Ancestor(classes, id, k) != Some(ancestor)
        decreases current.Some?, left
      {
        if current.value == ancestor {
          return Some(true);
        }
        AncestorStep(classes, id, steps);
        current := SuperclassOf(classes, current.value);
        if current.Some? {
          if left == 0 {
            return None;
          }
          left := left - 1;
        }
        steps := steps + 1;
      }
      NoneStaysNone(classes, id, steps);
      return Some(false);
    }
  }

  // A superclass is not checked when a class is defined, so that two classes can become each other's superclass.
  method DefineCycle() returns (hierarchy: ClassHierarchy, first: ClassId, second: ClassId)
    ensures hierarchy.Valid() && first != second
    ensures SuperclassOf(hierarchy.classes, first) == Some(second)
    ensures SuperclassOf(hierarchy.classes, second) == Some(first)
    ensures forall ancestor: ClassId, n: nat :: ancestor != first && ancestor != second
              ==> !WalkEnds(hierarchy.classes, first, ancestor, n)
  {
    hierarchy := new ClassHierarchy();
    first := hierarchy.DefineClass("A", Some(2), false);
    second := hierarchy.DefineClass("B", Some(first), false);
    ghost var g := hierarchy.classes;
    forall ancestor: ClassId, n: nat | ancestor != first && ancestor != second
      ensures !WalkEnds(g, first, ancestor, n)
    {
      var rest := g - {ancestor};
      assert Ancestor(rest, first, 0) == Some(first) && Ancestor(rest, second, 1) == Some(first);
      assert Ancestor(rest, first, 2) == Some(first);
      CycleNeverEnds(rest, first, 2, n);
      WalkIsChain(g, first, ancestor, n);
    }
  }

  lemma {:induction false} AncestorStep(g: Graph, id: ClassId, n: nat)
    requires Ancestor(g, id, n).Some?
    ensures Ancestor(g, id, n + 1) == SuperclassOf(g, Ancestor(g, id, n).value)
    decreases n
  {
    if n > 0 {
      AncestorStep(g, SuperclassOf(g, id).value, n - 1);
    } else if SuperclassOf(g, id).Some? {
      assert Ancestor(g, SuperclassOf(g, id).value, 0) == SuperclassOf(g, id);
    }
  }

  lemma {:induction false} NoneStaysNone(g: Graph, id: ClassId, n: nat)
    requires Ancestor(g, id, n).None?
    ensures forall k: nat :: k >= n ==> Ancestor(g, id, k).None?
    decreases n
  {
    forall k: nat | k >= n
      ensures Ancestor(g, id, k).None?
    {
      if SuperclassOf(g, id).Some? {
        NoneStaysNone(g, SuperclassOf(g, id).value, n - 1);
      }
    }
  }
}
