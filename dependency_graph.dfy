/**
 * The dependency graph of the properties panel and its cycle check.
 *
 * The nodes are the flattened fields; a field with id `x` has edges to the
 * `dependency.fieldId` (when set) and to every id in the top-level `dependsOn` of the
 * first flattened field with id `x`. The `dependsOn` of an API configuration is not
 * an edge. `DoesFieldDependOn` is the depth-first search with a shared visited set, and
 * `DependencyCandidates` the list the "Visibility Dependency" select offers.
 */
module DependencyGraph {
  import opened Wrappers
  import opened Schema
  import opened SchemaTree

  /** The ids `doesFieldDependOn` pushes into `depIds` for one field. */
  function DepIds(n: Node): seq<string> {
    (if n.dependency.Some? && n.dependency.value.fieldId != "" then [n.dependency.value.fieldId] else []) + n.dependsOn
  }

  /** The successors of id `x`: the edges of the first field with that id, none for an unknown id. */
  function Succ(flat: seq<Node>, x: string): seq<string> {
    match FirstWithId(flat, x)
    case None => []
    case Some(n) => DepIds(n)
  }

  /** Every id the search can meet: the fields' own ids and every id they point to. */
  function Universe(flat: seq<Node>): set<string> {
    if |flat| == 0 then {} else {flat[0].id} + (set d | d in DepIds(flat[0])) + Universe(flat[1..])
  }

  lemma {:induction false} SuccInUniverse(flat: seq<Node>, x: string)
    ensures forall d :: d in Succ(flat, x) ==> d in Universe(flat)
    decreases |flat|
  {
    if |flat| > 0 && flat[0].id != x {
      SuccInUniverse(flat[1..], x);
    }
  }

  lemma {:induction false} IdInUniverse(flat: seq<Node>, k: nat)
    requires k < |flat|
    ensures flat[k].id in Universe(flat)
    decreases k
  {
    if k > 0 {
      IdInUniverse(flat[1..], k - 1);
    }
  }

  /** The graph as an edge function: `Edges(flat)(x) == Succ(flat, x)`. */
  function Edges(flat: seq<Node>): string -> seq<string> {
    x => Succ(flat, x)
  }

  /** `p` follows edges of the graph from `p[0]` to its last element. */
  predicate IsPath(edges: string -> seq<string>, p: seq<string>) {
    |p| >= 1 && forall k :: 0 <= k < |p| - 1 ==> p[k + 1] in edges(p[k])
  }

  /** `b` is reachable from `a`, in zero or more steps. */
  ghost predicate Reaches(edges: string -> seq<string>, a: string, b: string) {
    exists p :: IsPath(edges, p) && p[0] == a && p[|p| - 1] == b
  }

  /** No path of one or more steps comes back to where it started. */
  ghost predicate Acyclic(edges: string -> seq<string>) {
    forall p :: IsPath(edges, p) && |p| >= 2 ==> p[0] != p[|p| - 1]
  }

  /** Within `s` every successor of an element is again in `s`. */
  ghost predicate ClosedUnder(edges: string -> seq<string>, s: set<string>) {
    forall x :: x in s ==> forall d :: d in edges(x) ==> d in s
  }

  /** One more edge in front of a path. */
  lemma PrependEdge(edges: string -> seq<string>, x: string, p: seq<string>)
    requires IsPath(edges, p) && p[0] in edges(x)
    ensures IsPath(edges, [x] + p)
  {
    var q := [x] + p;
    forall k | 0 <= k < |q| - 1
      ensures q[k + 1] in edges(q[k])
    {
      if k > 0 {
        assert q[k] == p[k - 1] && q[k + 1] == p[k];
      }
    }
  }

  /** A prefix of a path is a path. */
  lemma PathPrefix(edges: string -> seq<string>, q: seq<string>, j: nat)
    requires IsPath(edges, q) && j < |q|
    ensures IsPath(edges, q[..j + 1])
  {
    var r := q[..j + 1];
    forall k | 0 <= k < |r| - 1
      ensures r[k + 1] in edges(r[k])
    {
      assert r[k] == q[k] && r[k + 1] == q[k + 1];
    }
  }

  /**
   * A cycle read from its edge `k -> k + 1` around to position `k`: a path from
   * `p[k + 1]` to `p[k]`.
   */
  lemma RotateCycle(edges: string -> seq<string>, p: seq<string>, k: nat)
    requires IsPath(edges, p) && |p| >= 2 && p[0] == p[|p| - 1] && k < |p| - 1
    ensures IsPath(edges, p[k + 1..] + p[1..k + 1])
    ensures (p[k + 1..] + p[1..k + 1])[0] == p[k + 1]
    ensures var q := p[k + 1..] + p[1..k + 1]; q[|q| - 1] == p[k]
  {
    var a := p[k + 1..];
    var b := p[1..k + 1];
    var q := a + b;
    forall i | 0 <= i < |q| - 1
      ensures q[i + 1] in edges(q[i])
    {
      if i < |a| - 1 {
        assert q[i] == p[k + 1 + i] && q[i + 1] == p[k + 2 + i];
      } else if i == |a| - 1 {
        assert q[i] == p[|p| - 1] && q[i + 1] == p[1];
      } else {
        var m := i - |a| + 1;
        assert q[i] == p[m] && q[i + 1] == p[m + 1];
      }
    }
  }

  /** A set closed under the edges that holds `a` but not `b` cuts every path from `a` to `b`. */
  lemma ClosedSetBlocks(edges: string -> seq<string>, s: set<string>, a: string, b: string)
    requires ClosedUnder(edges, s) && a in s && b !in s
    ensures !Reaches(edges, a, b)
  {
    forall p | IsPath(edges, p) && p[0] == a
      ensures p[|p| - 1] != b
    {
      var k := 0;
      while k < |p| - 1
        invariant 0 <= k <= |p| - 1 && p[k] in s
      {
        k := k + 1;
      }
    }
  }

  // ---------------------------------------------------------------------------
  // The search

  /** Every id of `after` that is not in `before` has all its successors in `after`. */
  ghost predicate ClosedBeyond(edges: string -> seq<string>, before: set<string>, after: set<string>) {
    forall x :: x in after && x !in before ==> forall d :: d in edges(x) ==> d in after
  }

  lemma ClosedBeyondChain(edges: string -> seq<string>, a: set<string>, b: set<string>, c: set<string>)
    requires a <= b <= c && ClosedBeyond(edges, a, b) && ClosedBeyond(edges, b, c)
    ensures ClosedBeyond(edges, a, c)
  {
  }

  lemma ClosedBeyondRelease(edges: string -> seq<string>, a: set<string>, x: string, c: set<string>)
    requires ClosedBeyond(edges, a + {x}, c) && x in c
    requires forall d :: d in edges(x) ==> d in c
    ensures ClosedBeyond(edges, a, c)
  {
  }

  /**
   * `doesFieldDependOn(flatFields, candidateId, currentId, visited)`: whether `currentId`
   * is reachable from `candidateId`, skipping ids already in `visited`, which the search
   * extends in place (returned as `visitedOut`). A `false` answer leaves a visited set in
   * which every newly visited id has all its successors visited and `currentId` is not
   * among them, the fact from which completeness follows. `universe` is the ghost set of
   * every id the search can meet; it bounds the recursion.
   */
  method DoesFieldDependOn(flat: seq<Node>, candidateId: string, currentId: string, visited: set<string>, ghost universe: set<string>)
    returns (r: bool, visitedOut: set<string>)
    requires universe == Universe(flat) && candidateId in universe
    ensures visited <= visitedOut <= visited + universe
    ensures r ==> Reaches(Edges(flat), candidateId, currentId)
    ensures !r ==> candidateId != currentId && candidateId in visitedOut && currentId !in visitedOut - visited
    ensures !r ==> ClosedBeyond(Edges(flat), visited, visitedOut)
    decreases universe - visited, 2
  {
    if candidateId == currentId {
      assert IsPath(Edges(flat), [candidateId]);
      return true, visited;
    }
    if candidateId in visited {
      return false, visited;
    }
    var marked := visited + {candidateId};
    var candidate := FirstWithId(flat, candidateId);
    if candidate.None? {
      assert Edges(flat)(candidateId) == [];
      return false, marked;
    }
    r, visitedOut := VisitDependencies(flat, candidateId, DepIds(candidate.value), currentId, marked, universe);
    if !r {
      ClosedBeyondRelease(Edges(flat), visited, candidateId, visitedOut);
    }
  }

  /**
   * The loop over `depIds` of the just visited `candidateId`: it stops at the first
   * successor that is `currentId` or leads to it; otherwise every successor ends up visited.
   */
  method VisitDependencies(flat: seq<Node>, candidateId: string, depIds: seq<string>, currentId: string,
                           visited: set<string>, ghost universe: set<string>)
    returns (r: bool, visitedOut: set<string>)
    requires universe == Universe(flat) && candidateId in universe && candidateId in visited
    requires depIds == Edges(flat)(candidateId)
    ensures visited <= visitedOut <= visited + universe
    ensures r ==> Reaches(Edges(flat), candidateId, currentId)
    ensures !r ==> currentId !in visitedOut - visited && forall d :: d in depIds ==> d in visitedOut
    ensures !r ==> ClosedBeyond(Edges(flat), visited, visitedOut)
    decreases (universe - visited) + {candidateId}, 1
  {
    visitedOut := visited;
    var i := 0;
    while i < |depIds|
      invariant 0 <= i <= |depIds|
      invariant visited <= visitedOut <= visited + universe
      invariant currentId !in visitedOut - visited
      invariant forall k :: 0 <= k < i ==> depIds[k] in visitedOut
      invariant ClosedBeyond(Edges(flat), visited, visitedOut)
    {
      var found, after := VisitDependency(flat, candidateId, depIds[i], currentId, visitedOut, universe);
      if found {
        return true, after;
      }
      ClosedBeyondChain(Edges(flat), visited, visitedOut, after);
      visitedOut := after;
      i := i + 1;
    }
    r := false;
  }

  /**
   * One turn of the search's loop: `depId`, a successor of the already visited
   * `candidateId`, is `currentId` or leads to it.
   */
  method VisitDependency(flat: seq<Node>, candidateId: string, depId: string, currentId: string,
                         visited: set<string>, ghost universe: set<string>)
    returns (r: bool, visitedOut: set<string>)
    requires universe == Universe(flat) && candidateId in universe && candidateId in visited
    requires depId in Edges(flat)(candidateId)
    ensures visited <= visitedOut <= visited + universe
    ensures r ==> Reaches(Edges(flat), candidateId, currentId)
    ensures !r ==> depId in visitedOut && currentId !in visitedOut - visited
    ensures !r ==> ClosedBeyond(Edges(flat), visited, visitedOut)
    decreases (universe - visited) + {candidateId}, 0
  {
    if depId == currentId {
      assert IsPath(Edges(flat), [candidateId, currentId]);
      return true, visited;
    }
    SuccInUniverse(flat, candidateId);
    r, visitedOut := DoesFieldDependOn(flat, depId, currentId, visited, universe);
    if r {
      ghost var p :| IsPath(Edges(flat), p) && p[0] == depId && p[|p| - 1] == currentId;
      PrependEdge(Edges(flat), candidateId, p);
      assert ([candidateId] + p)[|p|] == currentId;
    }
  }

  /** The search started with an empty visited set answers exactly reachability. */
  method DependsOn(flat: seq<Node>, candidateId: string, currentId: string) returns (r: bool)
    requires candidateId in Universe(flat)
    ensures r <==> Reaches(Edges(flat), candidateId, currentId)
  {
    var visited;
    r, visited := DoesFieldDependOn(flat, candidateId, currentId, {}, Universe(flat));
    if !r {
      ClosedSetBlocks(Edges(flat), visited, candidateId, currentId);
    }
  }

  /** A field yields to itself, and an id no field carries reaches nothing but itself. */
  lemma UnknownReachesOnlyItself(flat: seq<Node>, a: string, b: string)
    requires FirstWithId(flat, a).None? && a != b
    ensures !Reaches(Edges(flat), a, b)
  {
    ClosedSetBlocks(Edges(flat), {a}, a, b);
  }

  // ---------------------------------------------------------------------------
  // The candidate filter

  /** `flatFields.filter(f => f.id !== field.id && !doesFieldDependOn(flatFields, f.id, field.id))` */
  method DependencyCandidates(flat: seq<Node>, fieldId: string) returns (cands: seq<Node>)
    ensures forall n :: n in cands <==> n in flat && n.id != fieldId && !Reaches(Edges(flat), n.id, fieldId)
  {
    cands := [];
    var i := 0;
    while i < |flat|
      invariant 0 <= i <= |flat|
      invariant forall n :: n in cands <==> n in flat[..i] && n.id != fieldId && !Reaches(Edges(flat), n.id, fieldId)
    {
      assert flat[..i + 1] == flat[..i] + [flat[i]];
      if flat[i].id != fieldId {
        IdInUniverse(flat, i);
        var reaches := DependsOn(flat, flat[i].id, fieldId);
        if !reaches {
          cands := cands + [flat[i]];
        }
      }
      i := i + 1;
    }
    assert flat[..i] == flat;
  }

  // ---------------------------------------------------------------------------
  // Cycle safety

  /** Every field with id `fieldId` now depends on `dep` (the select's `updateField`). */
  function WithDependency(flat: seq<Node>, fieldId: string, dep: Dependency): (r: seq<Node>)
    ensures |r| == |flat|
  {
    if |flat| == 0 then []
    else [if flat[0].id == fieldId then flat[0].(dependency := Some(dep)) else flat[0]] + WithDependency(flat[1..], fieldId, dep)
  }

  /** The first field with an id, after the edit: the same field, edited when it is the edited id. */
  lemma {:induction false} FirstAfterEdit(flat: seq<Node>, fieldId: string, dep: Dependency, x: string)
    ensures FirstWithId(WithDependency(flat, fieldId, dep), x) ==
      match FirstWithId(flat, x)
      case None => None
      case Some(n) => Some(if x == fieldId then n.(dependency := Some(dep)) else n)
    decreases |flat|
  {
    if |flat| > 0 {
      var r := WithDependency(flat, fieldId, dep);
      assert r[1..] == WithDependency(flat[1..], fieldId, dep);
      if flat[0].id != x {
        FirstAfterEdit(flat[1..], fieldId, dep, x);
      }
    }
  }

  /** Fields other than the edited one keep their edges; the edited one gains exactly the new target. */
  lemma SuccAfterEdit(flat: seq<Node>, fieldId: string, dep: Dependency, x: string)
    requires dep.fieldId != ""
    ensures x != fieldId ==> Succ(WithDependency(flat, fieldId, dep), x) == Succ(flat, x)
    ensures x == fieldId ==> forall d :: d in Succ(WithDependency(flat, fieldId, dep), x) ==> d == dep.fieldId || d in Succ(flat, x)
  {
    FirstAfterEdit(flat, fieldId, dep, x);
  }

  /** The index of the first occurrence of `x` in `q`. */
  function FirstAt(q: seq<string>, x: string): (j: nat)
    requires x in q
    ensures j < |q| && q[j] == x && forall i :: 0 <= i < j ==> q[i] != x
  {
    if q[0] == x then 0 else 1 + FirstAt(q[1..], x)
  }

  /** A path that holds `x` has a prefix ending at the first `x`, which it meets nowhere earlier. */
  lemma FirstVisit(edges: string -> seq<string>, q: seq<string>, x: string) returns (r: seq<string>)
    requires IsPath(edges, q) && x in q
    ensures IsPath(edges, r) && r[0] == q[0] && r[|r| - 1] == x
    ensures forall i :: 0 <= i < |r| - 1 ==> r[i] != x
  {
    var j := FirstAt(q, x);
    r := q[..j + 1];
    PathPrefix(edges, q, j);
  }

  /**
   * A path of the edited graph that reaches the edited field without passing it earlier
   * uses no edge of the edited field, so it is a path of the original graph.
   */
  lemma PathToEditedIsOld(flat: seq<Node>, fieldId: string, dep: Dependency, q: seq<string>)
    requires dep.fieldId != ""
    requires IsPath(Edges(WithDependency(flat, fieldId, dep)), q)
    requires forall i :: 0 <= i < |q| - 1 ==> q[i] != fieldId
    ensures IsPath(Edges(flat), q)
  {
    forall k | 0 <= k < |q| - 1
      ensures q[k + 1] in Succ(flat, q[k])
    {
      SuccAfterEdit(flat, fieldId, dep, q[k]);
    }
  }

  /**
   * A cycle of the edited graph through the new edge `fieldId -> dep.fieldId` gives, in
   * the original graph, a path from `dep.fieldId` back to `fieldId`.
   */
  lemma NewEdgeCycleIsOldPath(flat: seq<Node>, fieldId: string, dep: Dependency, p: seq<string>, k: nat)
    requires dep.fieldId != ""
    requires IsPath(Edges(WithDependency(flat, fieldId, dep)), p) && |p| >= 2 && p[0] == p[|p| - 1]
    requires k < |p| - 1 && p[k] == fieldId && p[k + 1] == dep.fieldId
    ensures Reaches(Edges(flat), dep.fieldId, fieldId)
  {
    var edited := Edges(WithDependency(flat, fieldId, dep));
    RotateCycle(edited, p, k);
    var prefix := FirstVisit(edited, p[k + 1..] + p[1..k + 1], fieldId);
    PathToEditedIsOld(flat, fieldId, dep, prefix);
  }

  /** An edge of the edited graph that the original lacks is the new one. */
  lemma NewEdgeIsDependency(flat: seq<Node>, fieldId: string, dep: Dependency, x: string, y: string)
    requires dep.fieldId != ""
    requires y in Edges(WithDependency(flat, fieldId, dep))(x) && y !in Edges(flat)(x)
    ensures x == fieldId && y == dep.fieldId
  {
    SuccAfterEdit(flat, fieldId, dep, x);
  }

  /**
   * The "Cycle-safe" promise: in an acyclic graph, making field `fieldId` depend on any
   * offered candidate leaves the graph acyclic.
   */
  lemma CandidateKeepsAcyclic(flat: seq<Node>, fieldId: string, c: Node, value: string)
    requires Acyclic(Edges(flat))
    requires c in flat && c.id != fieldId && !Reaches(Edges(flat), c.id, fieldId) && c.id != ""
    ensures Acyclic(Edges(WithDependency(flat, fieldId, Dependency(c.id, value))))
  {
    var dep := Dependency(c.id, value);
    var edited := Edges(WithDependency(flat, fieldId, dep));
    forall p | IsPath(edited, p) && |p| >= 2
      ensures p[0] != p[|p| - 1]
    {
      if p[0] == p[|p| - 1] {
        if forall k :: 0 <= k < |p| - 1 ==> p[k + 1] in Edges(flat)(p[k]) {
          assert IsPath(Edges(flat), p);
        } else {
          var k :| 0 <= k < |p| - 1 && p[k + 1] !in Edges(flat)(p[k]);
          NewEdgeIsDependency(flat, fieldId, dep, p[k], p[k + 1]);
          NewEdgeCycleIsOldPath(flat, fieldId, dep, p, k);
        }
      }
    }
  }

  // ---------------------------------------------------------------------------
  // Edits that reach only some of the fields with the id

  /** Merging `{ dependency }` sets the dependency. */
  lemma MergeSetsDependency(n: Node, dep: Dependency)
    ensures Merge(n, [SetDependency(Some(dep))]) == n.(dependency := Some(dep))
  {
    SetDependencyReplaces(n, Some(dep));
    MergeOne(n, SetDependency(Some(dep)));
  }

  /**
   * When the dependency was merged into only some of the fields with `fieldId`, the
   * first field with an id is the old one, or for `fieldId` possibly the edited one.
   */
  lemma {:induction false} FirstAfterPartialEdit(flat: seq<Node>, edited: seq<Node>, fieldId: string, dep: Dependency, x: string)
    requires MergedOrKept(flat, edited, fieldId, [SetDependency(Some(dep))])
    ensures FirstWithId(flat, x).None? ==> FirstWithId(edited, x).None?
    ensures FirstWithId(flat, x).Some? ==>
      FirstWithId(edited, x) == FirstWithId(flat, x) ||
      (x == fieldId && FirstWithId(edited, x) == Some(FirstWithId(flat, x).value.(dependency := Some(dep))))
    decreases |flat|
  {
    var u := [SetDependency(Some(dep))];
    if |flat| > 0 {
      MergeSetsDependency(flat[0], dep);
      assert MergedOrKept(flat[1..], edited[1..], fieldId, u) by {
        forall i | 0 <= i < |flat| - 1
          ensures edited[1..][i] == flat[1..][i] || (flat[1..][i].id == fieldId && edited[1..][i] == Merge(flat[1..][i], u))
        {
          assert edited[1..][i] == edited[i + 1] && flat[1..][i] == flat[i + 1];
        }
      }
      if flat[0].id != x {
        FirstAfterPartialEdit(flat[1..], edited[1..], fieldId, dep, x);
      }
    }
  }

  /**
   * After such an edit the graph is either the original one or the one in which every
   * field with `fieldId` was edited: only the edges of `fieldId` can differ, and they
   * are those of the first field with that id.
   */
  lemma PartialEditEdges(flat: seq<Node>, edited: seq<Node>, fieldId: string, dep: Dependency)
    requires MergedOrKept(flat, edited, fieldId, [SetDependency(Some(dep))])
    ensures (forall x :: Succ(edited, x) == Succ(flat, x)) ||
            (forall x :: Succ(edited, x) == Succ(WithDependency(flat, fieldId, dep), x))
  {
    forall x | x != fieldId
      ensures Succ(edited, x) == Succ(flat, x) && Succ(WithDependency(flat, fieldId, dep), x) == Succ(flat, x)
    {
      FirstAfterPartialEdit(flat, edited, fieldId, dep, x);
      FirstAfterEdit(flat, fieldId, dep, x);
    }
    FirstAfterPartialEdit(flat, edited, fieldId, dep, fieldId);
    FirstAfterEdit(flat, fieldId, dep, fieldId);
    if Succ(edited, fieldId) != Succ(flat, fieldId) {
      assert Succ(edited, fieldId) == Succ(WithDependency(flat, fieldId, dep), fieldId);
    }
  }

  /** Two graphs with the same edges: a path of one is a path of the other. */
  lemma SameEdgesAcyclic(e1: string -> seq<string>, e2: string -> seq<string>)
    requires forall x :: e1(x) == e2(x)
    requires Acyclic(e2)
    ensures Acyclic(e1)
  {
    forall p | IsPath(e1, p) && |p| >= 2
      ensures p[0] != p[|p| - 1]
    {
      assert IsPath(e2, p);
    }
  }

  /**
   * Cycle safety for any `updateFieldById` of a dependency: whether it reaches every
   * flattened field with the id or only some of them, an offered candidate keeps the
   * graph acyclic.
   */
  lemma PartialEditKeepsAcyclic(flat: seq<Node>, edited: seq<Node>, fieldId: string, c: Node, value: string)
    requires MergedOrKept(flat, edited, fieldId, [SetDependency(Some(Dependency(c.id, value)))])
    requires Acyclic(Edges(flat))
    requires c in flat && c.id != fieldId && !Reaches(Edges(flat), c.id, fieldId) && c.id != ""
    ensures Acyclic(Edges(edited))
  {
    var dep := Dependency(c.id, value);
    PartialEditEdges(flat, edited, fieldId, dep);
    if forall x :: Succ(edited, x) == Succ(flat, x) {
      SameEdgesAcyclic(Edges(edited), Edges(flat));
    } else {
      CandidateKeepsAcyclic(flat, fieldId, c, value);
      SameEdgesAcyclic(Edges(edited), Edges(WithDependency(flat, fieldId, dep)));
    }
  }

  /**
   * Changing only the awaited value, with the target the first field with `fieldId`
   * already depends on, changes no edge of the graph.
   */
  lemma ValueEditKeepsEdges(flat: seq<Node>, edited: seq<Node>, fieldId: string, dep: Dependency)
    requires MergedOrKept(flat, edited, fieldId, [SetDependency(Some(dep))])
    requires FirstWithId(flat, fieldId).Some? ==>
      FirstWithId(flat, fieldId).value.dependency.Some? && FirstWithId(flat, fieldId).value.dependency.value.fieldId == dep.fieldId
    ensures forall x :: Succ(edited, x) == Succ(flat, x)
  {
    forall x
      ensures Succ(edited, x) == Succ(flat, x)
    {
      FirstAfterPartialEdit(flat, edited, fieldId, dep, x);
      if x == fieldId && FirstWithId(flat, x).Some? {
        var n := FirstWithId(flat, x).value;
        assert DepIds(n.(dependency := Some(dep))) == DepIds(n);
      }
    }
  }
}
