/** The dependency graph of the todo list and the search that keeps it free of cycles. */
module TodoGraph {

  /** A task's id mapped to the ids it is blocked by. */
  type Graph = map<int, seq<int>>

  function Out(g: Graph, n: int): seq<int> {
    if n in g then g[n] else []
  }

  ghost predicate IsPath(g: Graph, p: seq<int>) {
    |p| > 0 && forall i :: 0 <= i < |p| - 1 ==> p[i + 1] in Out(g, p[i])
  }

  ghost predicate PathFrom(g: Graph, p: seq<int>, x: int, y: int) {
    IsPath(g, p) && p[0] == x && p[|p| - 1] == y
  }

  /** Zero or more dependency steps lead from x to y. */
  ghost predicate Reaches(g: Graph, x: int, y: int) {
    exists p :: PathFrom(g, p, x, y)
  }

  ghost predicate SomeReaches(g: Graph, xs: seq<int>, y: int) {
    exists x :: x in xs && Reaches(g, x, y)
  }

  ghost predicate Acyclic(g: Graph) {
    forall x, d :: d in Out(g, x) ==> !Reaches(g, d, x)
  }

  lemma ReachesSelf(g: Graph, x: int)
    ensures Reaches(g, x, x)
  {
    assert PathFrom(g, [x], x, x);
  }

  lemma ReachesTransitive(g: Graph, x: int, y: int, z: int)
    requires Reaches(g, x, y) && Reaches(g, y, z)
    ensures Reaches(g, x, z)
  {
    var p :| PathFrom(g, p, x, y);
    var q :| PathFrom(g, q, y, z);
    var r := p + q[1..];
    forall i | 0 <= i < |r| - 1 ensures r[i + 1] in Out(g, r[i]) {
      if i >= |p| - 1 {
        assert r[i] == q[i - (|p| - 1)] && r[i + 1] == q[i + 1 - (|p| - 1)];
      }
    }
    assert PathFrom(g, r, x, z);
  }

  lemma ReachesStep(g: Graph, x: int, y: int, d: int)
    requires Reaches(g, x, y) && d in Out(g, y)
    ensures Reaches(g, x, d)
  {
    assert PathFrom(g, [y, d], y, d);
    ReachesTransitive(g, x, y, d);
  }

  /** A set that is closed under dependencies and avoids y cannot be left to reach y. */
  lemma {:induction false} ClosedAvoids(g: Graph, closed: set<int>, p: seq<int>)
    requires forall n, d :: n in closed && d in Out(g, n) ==> d in closed
    requires IsPath(g, p) && p[0] in closed
    ensures p[|p| - 1] in closed
    decreases |p|
  {
    if |p| > 1 {
      ClosedAvoids(g, closed, p[1..]);
    }
  }

  /** Changing only the dependencies of `id` adds no way to reach `id`. */
  lemma ReachesIdUnchanged(g: Graph, h: Graph, id: int, x: int)
    requires forall n :: n != id ==> Out(g, n) == Out(h, n)
    requires Reaches(g, x, id)
    ensures Reaches(h, x, id)
  {
    var p :| PathFrom(g, p, x, id);
    var k := 0;
    while p[k] != id
      invariant 0 <= k < |p|
      invariant forall i :: 0 <= i < k ==> p[i] != id
      decreases |p| - k
    {
      k := k + 1;
    }
    assert PathFrom(h, p[..k + 1], x, id);
  }

  /** The guard is enough: new dependencies that do not reach the task keep the graph acyclic. */
  lemma AcyclicExtended(g: Graph, h: Graph, id: int, adding: seq<int>)
    requires Acyclic(g)
    requires forall n :: n != id ==> Out(h, n) == Out(g, n)
    requires forall d :: d in Out(h, id) ==> d in Out(g, id) || d in adding
    requires !SomeReaches(g, adding, id)
    ensures Acyclic(h)
  {
    forall d | d in Out(h, id) ensures !Reaches(h, d, id) {
      if Reaches(h, d, id) {
        ReachesIdUnchanged(h, g, id, d);
      }
    }
    forall x, d | d in Out(h, x) ensures !Reaches(h, d, x) {
      if x != id && Reaches(h, d, x) {
        var p :| PathFrom(h, p, d, x);
        if k :| 0 <= k < |p| - 1 && p[k] == id {
          assert PathFrom(h, p[k + 1..], p[k + 1], x);
          assert PathFrom(h, p[..k + 1], d, id);
          ReachesStep(h, p[k + 1], x, d);
          ReachesTransitive(h, p[k + 1], d, id);
          assert false;
        } else {
          assert PathFrom(g, p, d, x);
          assert false;
        }
      }
    }
  }

  /** The guard is needed: a new dependency that reaches the task closes a cycle. */
  lemma CyclicExtended(g: Graph, h: Graph, id: int, adding: seq<int>)
    requires forall n :: n != id ==> Out(h, n) == Out(g, n)
    requires forall d :: d in adding ==> d in Out(h, id)
    requires SomeReaches(g, adding, id)
    ensures !Acyclic(h)
  {
    var a :| a in adding && Reaches(g, a, id);
    ReachesIdUnchanged(g, h, id, a);
  }

  /** Every id that can ever enter the search: the added ids and all dependency targets. */
  ghost function Universe(g: Graph, adding: seq<int>): set<int> {
    (set n | n in adding) + (set k, d | k in g && d in g[k] :: d)
  }

  /** Everything met so far comes from the added ids, and nothing met has been forgotten. */
  ghost predicate Searching(g: Graph, id: int, adding: seq<int>, stack: seq<int>, visited: set<int>) {
    && id !in visited
    && (forall n :: n in stack ==> n in Universe(g, adding) && SomeReaches(g, adding, n))
    && (forall n, d :: n in visited && d in Out(g, n) ==> d in visited || d in stack)
    && (forall a :: a in adding ==> a in visited || a in stack)
  }

  lemma SearchStarts(g: Graph, id: int, adding: seq<int>)
    ensures Searching(g, id, adding, adding, {})
  {
    forall a | a in adding ensures SomeReaches(g, adding, a) {
      ReachesSelf(g, a);
    }
  }

  lemma SearchVisits(g: Graph, id: int, adding: seq<int>, rest: seq<int>, n: int, visited: set<int>)
    requires Searching(g, id, adding, rest + [n], visited) && n != id
    ensures n in Universe(g, adding)
    ensures n in visited ==> Searching(g, id, adding, rest, visited)
    ensures n !in visited ==> Searching(g, id, adding, rest + Out(g, n), visited + {n})
  {
    assert n in rest + [n];
    assert forall m :: m in rest + [n] <==> m in rest || m == n;
    forall d | d in Out(g, n) ensures SomeReaches(g, adding, d) && d in Universe(g, adding) {
      var a :| a in adding && Reaches(g, a, n);
      ReachesStep(g, a, n, d);
    }
  }

  lemma SearchEnds(g: Graph, id: int, adding: seq<int>, visited: set<int>)
    requires Searching(g, id, adding, [], visited)
    ensures !SomeReaches(g, adding, id)
  {
    if SomeReaches(g, adding, id) {
      var a :| a in adding && Reaches(g, a, id);
      var p :| PathFrom(g, p, a, id);
      ClosedAvoids(g, visited, p);
    }
  }

  /** Depth-first search over a work list, from the added ids until `id` turns up. */
  method SearchFrom(g: Graph, id: int, adding: seq<int>) returns (found: bool)
    ensures found <==> SomeReaches(g, adding, id)
  {
    var stack := adding;
    var visited: set<int> := {};
    SearchStarts(g, id, adding);
    while stack != []
      invariant Searching(g, id, adding, stack, visited)
      decreases Universe(g, adding) - visited, |stack|
    {
      var n := stack[|stack| - 1];
      var rest := stack[..|stack| - 1];
      assert stack == rest + [n];
      if n == id {
        assert n in stack;
        return true;
      }
      SearchVisits(g, id, adding, rest, n, visited);
      if n in visited {
        stack := rest;
      } else {
        visited := visited + {n};
        stack := rest + Out(g, n);
      }
    }
    SearchEnds(g, id, adding, visited);
    found := false;
  }

  /** The check as an update asks for it: search the graph that already has the new dependencies in it. */
  method WouldCycle(g: Graph, id: int, adding: seq<int>) returns (cycle: bool)
    ensures cycle <==> SomeReaches(g, adding, id)
  {
    var edges := g[id := Out(g, id) + adding];
    cycle := SearchFrom(edges, id, adding);
    forall a | a in adding ensures Reaches(g, a, id) <==> Reaches(edges, a, id) {
      if Reaches(g, a, id) {
        ReachesIdUnchanged(g, edges, id, a);
      }
      if Reaches(edges, a, id) {
        ReachesIdUnchanged(edges, g, id, a);
      }
    }
  }
}
