// internal/assure/code_standard.go: the search for what a package reaches through packages of no domain.
module Imports {
  import opened Order
  import opened Text

  // For each package, the packages it imports.
  type Graph = map<string, set<string>>

  // The titles of the domains that a package belongs to, sorted. A package that is missing has none.
  type Domains = map<string, seq<string>>

  function ImportsOf(graph: Graph, p: string): set<string> {
    if p in graph then graph[p] else {}
  }

  function DomainsOf(domains: Domains, p: string): seq<string> {
    if p in domains then domains[p] else []
  }

  const INTERNAL := "internal/"

  // What the search goes through instead of stopping at: an internal package that no record claims.
  predicate Bridge(domains: Domains, p: string) {
    HasPrefix(p, INTERNAL) && DomainsOf(domains, p) == []
  }

  // The path starts at a bridge, goes over bridges alone, and its last bridge imports the target.
  ghost predicate Path(graph: Graph, domains: Domains, path: seq<string>, target: string) {
    && path != []
    && (forall i | 0 <= i < |path| :: Bridge(domains, path[i]))
    && (forall i | 0 <= i < |path| - 1 :: path[i + 1] in ImportsOf(graph, path[i]))
    && target in ImportsOf(graph, path[|path| - 1])
  }

  // The target can be reached from the bridge over bridges alone.
  ghost predicate Leads(graph: Graph, domains: Domains, bridge: string, target: string) {
    exists path :: Path(graph, domains, path, target) && path[0] == bridge
  }

  lemma {:induction false} LeadsDirectly(graph: Graph, domains: Domains, bridge: string, target: string)
    requires Bridge(domains, bridge) && target in ImportsOf(graph, bridge)
    ensures Leads(graph, domains, bridge, target)
  {
    assert Path(graph, domains, [bridge], target);
  }

  lemma {:induction false} LeadsOn(graph: Graph, domains: Domains, bridge: string, next: string, target: string)
    requires Bridge(domains, bridge) && next in ImportsOf(graph, bridge) && Leads(graph, domains, next, target)
    ensures Leads(graph, domains, bridge, target)
  {
    var path :| Path(graph, domains, path, target) && path[0] == next;
    var longer := [bridge] + path;
    assert Path(graph, domains, longer, target) && longer[0] == bridge;
  }

  // For each package reached, the bridges it was reached through, "" for the package itself.
  type Reached = map<string, set<string>>

  function MarksOf(reached: Reached, target: string): set<string> {
    if target in reached then reached[target] else {}
  }

  // A package that counts as reached: of some domain or outside internal, and not the start.
  predicate Counts(domains: Domains, start: string, p: string) {
    p != start && !Bridge(domains, p)
  }

  // The search from one package: what it has seen and reached so far.
  class Search {
    const imports: Graph
    const domains: Domains
    const dir: string
    ghost const universe: set<string>
    var seen: set<string>
    var reached: Reached

    constructor (imports: Graph, domains: Domains, dir: string, ghost universe: set<string>)
      requires forall p | p in imports :: imports[p] <= universe
      requires !Bridge(domains, dir)
      ensures this.imports == imports && this.domains == domains && this.dir == dir && this.universe == universe
      ensures seen == {dir} && reached == map[]
    {
      this.imports, this.domains, this.dir, this.universe := imports, domains, dir, universe;
      seen, reached := {dir}, map[];
    }

    ghost predicate Valid()
      reads this
    {
      && (forall p | p in imports :: imports[p] <= universe)
      && !Bridge(domains, dir) && dir in seen
      && (forall target | target in reached :: reached[target] != {})
    }

    // The search needs nothing more for this package: it is the start, a bridge that was seen, or reached.
    ghost predicate Done(p: string)
      reads this
    {
      p == dir || (if Bridge(domains, p) then p in seen else exists m :: m != "" && m in MarksOf(reached, p))
    }

    // What a visit may add: bridges that the target leads to, and marks that are the way the visit came.
    twostate predicate Grows(target: string, through: string)
      reads this
    {
      && old(seen) <= seen
      && (forall b | b in seen - old(seen) :: Bridge(domains, b))
      && (forall t, m | m in MarksOf(old(reached), t) :: m in MarksOf(reached, t))
      && (forall t, m | m in MarksOf(reached, t) && m !in MarksOf(old(reached), t) ::
            && Counts(domains, dir, t)
            && if Bridge(domains, target) then m == (if through == "" then target else through) && Leads(imports, domains, target, t)
               else t == target && m == through)
    }

    // Follows one package: a bridge to what it imports, another package to its place among those reached.
    method Visit(target: string, through: string)
      requires Valid() && target in universe
      modifies this
      ensures Valid()
      ensures Grows(target, through)
      ensures Counts(domains, dir, target) ==> through in MarksOf(reached, target)
      ensures Bridge(domains, target) ==> target in seen
      ensures forall b, n | b in seen - old(seen) && n in ImportsOf(imports, b) :: Done(n)
      decreases universe - seen, 1
    {
      if target == dir { return; }
      if Bridge(domains, target) {
        if target in seen { return; }
        seen := seen + {target};
        var way := if through == "" then target else through;
        var next := SortedKeys(ImportsOf(imports, target));
        VisitAll(next, way, target);
        return;
      }
      reached := reached[target := MarksOf(reached, target) + {through}];
    }

    // Visits each import of a bridge in order.
    method VisitAll(next: seq<string>, way: string, ghost from: string)
      requires Valid() && way != "" && Bridge(domains, from)
      requires forall n :: n in next <==> n in ImportsOf(imports, from)
      modifies this
      ensures Valid()
      ensures old(seen) <= seen
      ensures forall b | b in seen - old(seen) :: Bridge(domains, b)
      ensures forall t, m | m in MarksOf(old(reached), t) :: m in MarksOf(reached, t)
      ensures forall t, m | m in MarksOf(reached, t) && m !in MarksOf(old(reached), t) ::
        Counts(domains, dir, t) && m == way && Leads(imports, domains, from, t)
      ensures forall b, n | b in seen - old(seen) && n in ImportsOf(imports, b) :: Done(n)
      ensures forall n | n in next :: Done(n)
      decreases universe - seen, 2
    {
      for i := 0 to |next|
        invariant Valid()
        invariant old(seen) <= seen
        invariant forall b | b in seen - old(seen) :: Bridge(domains, b)
        invariant forall t, m | m in MarksOf(old(reached), t) :: m in MarksOf(reached, t)
        invariant forall t, m | m in MarksOf(reached, t) && m !in MarksOf(old(reached), t) ::
          Counts(domains, dir, t) && m == way && Leads(imports, domains, from, t)
        invariant forall b, n | b in seen - old(seen) && n in ImportsOf(imports, b) :: Done(n)
        invariant forall k | 0 <= k < i :: Done(next[k])
      {
        var n := next[i];
        assert n in next;
        label before:
        Visit(n, way);
        forall p | old@before(Done(p))
          ensures Done(p)
        {
          if p != dir && !Bridge(domains, p) {
            var m :| m != "" && m in MarksOf(old@before(reached), p);
            assert m in MarksOf(reached, p);
          }
        }
        forall t, m | m in MarksOf(reached, t) && m !in MarksOf(old@before(reached), t)
          ensures Counts(domains, dir, t) && m == way && Leads(imports, domains, from, t)
        {
          if Bridge(domains, n) {
            LeadsOn(imports, domains, from, n, t);
          } else {
            LeadsDirectly(imports, domains, from, t);
          }
        }
      }
    }
  }

  // The packages the start imports itself, its test files too.
  function Direct(imports: Graph, testImports: Graph, dir: string): set<string> {
    ImportsOf(imports, dir) + ImportsOf(testImports, dir)
  }

  // The package reaches the target through at least one bridge: the first edge may be a test import, the later
  // edges may not.
  ghost predicate Through(imports: Graph, testImports: Graph, domains: Domains, dir: string, first: string,
          target: string) {
    first in Direct(imports, testImports, dir) && Leads(imports, domains, first, target)
  }

  ghost predicate Reaches(imports: Graph, testImports: Graph, domains: Domains, dir: string, target: string) {
    && Counts(domains, dir, target)
    && (target in Direct(imports, testImports, dir) || exists first :: Through(imports, testImports, domains, dir, first, target))
  }

  // The mark is a way the package was reached: "" for a direct import, or a bridge the start imports.
  ghost predicate IsWay(imports: Graph, testImports: Graph, domains: Domains, dir: string, target: string, m: string) {
    && Counts(domains, dir, target)
    && if m == "" then target in Direct(imports, testImports, dir)
       else Bridge(domains, m) && Through(imports, testImports, domains, dir, m, target)
  }

  // The search is right: each mark is the way the package was reached, and each way in leaves a mark.
  ghost predicate Found(imports: Graph, testImports: Graph, domains: Domains, dir: string, reached: Reached) {
    && (forall target | target in reached :: reached[target] != {})
    && (forall target :: "" in MarksOf(reached, target) <==>
          Counts(domains, dir, target) && target in Direct(imports, testImports, dir))
    && (forall target, m | m in MarksOf(reached, target) :: IsWay(imports, testImports, domains, dir, target, m))
    && (forall target, first | Counts(domains, dir, target) && Through(imports, testImports, domains, dir, first, target) ::
          exists m :: m != "" && m in MarksOf(reached, target))
  }

  // What a bridge that was seen leads to was followed to its end.
  lemma {:induction false} SeenIsFollowed(search: Search, path: seq<string>, target: string)
    requires Path(search.imports, search.domains, path, target) && path[0] in search.seen
    requires forall b, n | b in search.seen && b != search.dir && n in ImportsOf(search.imports, b) :: search.Done(n)
    requires !Bridge(search.domains, search.dir)
    ensures search.Done(target)
    decreases |path|
  {
    if |path| > 1 {
      assert path[1] in ImportsOf(search.imports, path[0]);
      assert search.Done(path[1]);
      SeenIsFollowed(search, path[1..], target);
    }
  }

  // The search after the first so many direct imports.
  ghost predicate Searched(search: Search, imports: Graph, testImports: Graph, domains: Domains, dir: string,
          targets: seq<string>, i: nat)
    requires i <= |targets|
    reads search
  {
    && search.Valid() && search.imports == imports && search.domains == domains && search.dir == dir
    && (forall b, n | b in search.seen && b != dir && n in ImportsOf(imports, b) :: search.Done(n))
    && (forall k | 0 <= k < i :: Bridge(domains, targets[k]) ==> targets[k] in search.seen)
    && (forall k | 0 <= k < i :: Counts(domains, dir, targets[k]) ==> "" in MarksOf(search.reached, targets[k]))
    && (forall t, m | m in MarksOf(search.reached, t) :: IsWay(imports, testImports, domains, dir, t, m))
  }

  method SearchFrom(imports: Graph, testImports: Graph, domains: Domains, dir: string) returns (reached: Reached)
    requires DomainsOf(domains, dir) != []
    ensures Found(imports, testImports, domains, dir, reached)
  {
    var direct := Direct(imports, testImports, dir);
    ghost var universe := direct + set p, n | p in imports && n in imports[p] :: n;
    var search := new Search(imports, domains, dir, universe);
    var targets := SortedKeys(direct);
    for i := 0 to |targets|
      invariant search.universe == universe
      invariant Searched(search, imports, testImports, domains, dir, targets, i)
    {
      assert targets[i] in targets;
      VisitNext(search, imports, testImports, domains, dir, targets, i);
    }
    reached := search.reached;
    AllFound(search, imports, testImports, domains, dir, targets);
  }

  // Visits one more direct import.
  method VisitNext(search: Search, imports: Graph, testImports: Graph, domains: Domains, dir: string,
          targets: seq<string>, i: nat)
    requires i < |targets| && targets[i] in search.universe && targets[i] in Direct(imports, testImports, dir)
    requires Searched(search, imports, testImports, domains, dir, targets, i)
    modifies search
    ensures Searched(search, imports, testImports, domains, dir, targets, i + 1)
  {
    var target := targets[i];
    label before:
    search.Visit(target, "");
    assert search.Grows@before(target, "");
    forall p | old@before(search.Done(p))
      ensures search.Done(p)
    {
      if p != dir && !Bridge(domains, p) {
        var m :| m != "" && m in MarksOf(old@before(search.reached), p);
        assert m in MarksOf(search.reached, p);
      }
    }
  }

  // After all direct imports every way in has left its mark.
  lemma {:induction false} AllFound(search: Search, imports: Graph, testImports: Graph, domains: Domains, dir: string,
          targets: seq<string>)
    requires Searched(search, imports, testImports, domains, dir, targets, |targets|)
    requires forall t :: t in targets <==> t in Direct(imports, testImports, dir)
    ensures Found(imports, testImports, domains, dir, search.reached)
  {
    forall t, first | Counts(domains, dir, t) && Through(imports, testImports, domains, dir, first, t)
      ensures exists m :: m != "" && m in MarksOf(search.reached, t)
    {
      assert first in targets;
      var path :| Path(imports, domains, path, t) && path[0] == first;
      SeenIsFollowed(search, path, t);
    }
    forall target
      ensures "" in MarksOf(search.reached, target) <==> Counts(domains, dir, target) && target in Direct(imports, testImports, dir)
    {
      if target in Direct(imports, testImports, dir) {
        assert target in targets;
        var k :| 0 <= k < |targets| && targets[k] == target;
        assert Counts(domains, dir, target) ==> "" in MarksOf(search.reached, targets[k]);
      }
      if "" in MarksOf(search.reached, target) {
        assert IsWay(imports, testImports, domains, dir, target, "");
      }
    }
  }
}
