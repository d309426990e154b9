// internal/assure/code_standard.go: the order of the domains, and what a tree with no fault against it keeps.
module DomainOrder {
  import opened Imports
  import opened Order
  import opened Text

  // The pairs of domains, by their titles, along which an import may go. They are not transitive.
  predicate ImportsAllowed(from: string, to: string) {
    match from
    case "Supplying" => to == "Declaring"
    case "Generating" => to == "Declaring" || to == "Supplying"
    case "Extending" => to == "Declaring" || to == "Generating"
    case "Building" => to == "Generating"
    case "Distributing" => to == "Building"
    case "Delivering" => to == "Building"
    case _ => false
  }

  // How high a domain stands above the ones it may import.
  function Height(title: string): nat {
    match title
    case "Supplying" => 1
    case "Generating" => 2
    case "Extending" => 3
    case "Building" => 3
    case "Distributing" => 4
    case "Delivering" => 4
    case _ => 0
  }

  lemma {:induction false} AllowedDescends(from: string, to: string)
    requires ImportsAllowed(from, to)
    ensures Height(from) > Height(to)
  {
  }

  // The titles of the domains by ID; a domain with no title goes by its ID.
  type Titles = map<string, string>

  function Title(titles: Titles, domain: string): string {
    if domain in titles && titles[domain] != "" then titles[domain] else domain
  }

  predicate Against(titles: Titles, from: string, to: string) {
    from != to && !ImportsAllowed(Title(titles, from), Title(titles, to))
  }

  datatype Tree = Tree(imports: Graph, testImports: Graph, domains: Domains, titles: Titles)

  const CMD := "cmd/"

  // A package whose imports are checked: one that imports something, of some domain, and not under cmd.
  predicate Checked(tree: Tree, dir: string) {
    (dir in tree.imports || dir in tree.testImports) && !HasPrefix(dir, CMD) && DomainsOf(tree.domains, dir) != []
  }

  // The package reaches the target, and a pair of their domains is against the order.
  ghost predicate AgainstOrder(tree: Tree, dir: string, target: string) {
    && Checked(tree, dir)
    && Reaches(tree.imports, tree.testImports, tree.domains, dir, target)
    && exists from, to :: from in DomainsOf(tree.domains, dir) && to in DomainsOf(tree.domains, target) && Against(tree.titles, from, to)
  }

  datatype Fault = Fault(dir: string, target: string, through: set<string>)

  // The pairs of domains that the order does not allow.
  method PairsAgainst(titles: Titles, froms: seq<string>, tos: seq<string>) returns (against: seq<(string, string)>)
    ensures forall from, to :: (from, to) in against <==> from in froms && to in tos && Against(titles, from, to)
  {
    against := [];
    for i := 0 to |froms|
      invariant forall from, to :: (from, to) in against <==> from in froms[..i] && to in tos && Against(titles, from, to)
    {
      assert froms[..i + 1] == froms[..i] + [froms[i]];
      ghost var before := against;
      for k := 0 to |tos|
        invariant forall from, to :: (from, to) in against <==>
          (from, to) in before || (from == froms[i] && to in tos[..k] && Against(titles, from, to))
      {
        assert tos[..k + 1] == tos[..k] + [tos[k]];
        if froms[i] != tos[k] && !ImportsAllowed(Title(titles, froms[i]), Title(titles, tos[k])) {
          against := against + [(froms[i], tos[k])];
        }
      }
      assert tos[..|tos|] == tos;
    }
    assert froms[..|froms|] == froms;
  }

  lemma {:induction false} FoundIsReaches(tree: Tree, dir: string, reached: Reached, target: string)
    requires Found(tree.imports, tree.testImports, tree.domains, dir, reached)
    ensures target in reached <==> Reaches(tree.imports, tree.testImports, tree.domains, dir, target)
  {
    if target in reached {
      var m :| m in reached[target];
      assert m in MarksOf(reached, target);
      assert IsWay(tree.imports, tree.testImports, tree.domains, dir, target, m);
    }
  }

  // The marks are ways from the package to the other: "" exactly for a direct import, and a bridge where there is
  // a way through bridges.
  ghost predicate AreWays(tree: Tree, dir: string, target: string, marks: set<string>) {
    && marks != {}
    && ("" in marks <==> target in Direct(tree.imports, tree.testImports, dir))
    && (forall m | m in marks :: IsWay(tree.imports, tree.testImports, tree.domains, dir, target, m))
    && (forall first | Through(tree.imports, tree.testImports, tree.domains, dir, first, target) :: exists m :: m != "" && m in marks)
  }

  // The fault is one of the package, with the ways the package came to the other.
  ghost predicate IsFault(tree: Tree, dir: string, f: Fault) {
    f.dir == dir && AgainstOrder(tree, dir, f.target) && AreWays(tree, dir, f.target, f.through)
  }

  ghost predicate Reported(faults: seq<Fault>, target: string) {
    exists f :: f in faults && f.target == target
  }

  lemma {:induction false} ReportedStays(faults: seq<Fault>, more: seq<Fault>)
    ensures forall target | Reported(faults, target) :: Reported(faults + more, target)
    ensures forall target | Reported(more, target) :: Reported(faults + more, target)
  {
    forall target | Reported(faults, target)
      ensures Reported(faults + more, target)
    {
      var f :| f in faults && f.target == target;
      assert f in faults + more;
    }
    forall target | Reported(more, target)
      ensures Reported(faults + more, target)
    {
      var f :| f in more && f.target == target;
      assert f in faults + more;
    }
  }

  lemma {:induction false} WaysOf(tree: Tree, dir: string, reached: Reached, target: string)
    requires Found(tree.imports, tree.testImports, tree.domains, dir, reached) && target in reached
    ensures AreWays(tree, dir, target, reached[target])
  {
    var marks := reached[target];
    assert marks == MarksOf(reached, target);
    forall m | m in marks
      ensures IsWay(tree.imports, tree.testImports, tree.domains, dir, target, m)
    {
      assert m in MarksOf(reached, target);
    }
    var some :| some in marks;
    assert Counts(tree.domains, dir, target);
  }

  // One package that was reached: against the order or not.
  method FaultAt(tree: Tree, dir: string, target: string, through: set<string>) returns (faults: seq<Fault>)
    requires Checked(tree, dir)
    requires Reaches(tree.imports, tree.testImports, tree.domains, dir, target)
    ensures faults == if AgainstOrder(tree, dir, target) then [Fault(dir, target, through)] else []
  {
    var against := PairsAgainst(tree.titles, DomainsOf(tree.domains, dir), DomainsOf(tree.domains, target));
    if |against| == 0 {
      assert forall from, to :: (from, to) !in against;
      return [];
    }
    assert (against[0].0, against[0].1) in against;
    return [Fault(dir, target, through)];
  }

  lemma {:induction false} IsFaultOf(tree: Tree, dir: string, reached: Reached, target: string)
    requires Found(tree.imports, tree.testImports, tree.domains, dir, reached) && target in reached
    requires AgainstOrder(tree, dir, target)
    ensures IsFault(tree, dir, Fault(dir, target, reached[target]))
  {
    WaysOf(tree, dir, reached, target);
  }

  // The faults at the first so many of the packages reached.
  ghost predicate FaultsUpTo(tree: Tree, dir: string, targets: seq<string>, i: nat, faults: seq<Fault>)
    requires i <= |targets|
  {
    && (forall f | f in faults :: IsFault(tree, dir, f) && f.target in targets[..i])
    && (forall k | 0 <= k < i && AgainstOrder(tree, dir, targets[k]) :: Reported(faults, targets[k]))
    && OnePerPair(faults)
  }

  // No two faults are of one package and one package it reaches.
  ghost predicate OnePerPair(faults: seq<Fault>) {
    forall i, j | 0 <= i < j < |faults| :: faults[i].dir != faults[j].dir || faults[i].target != faults[j].target
  }

  lemma {:induction false} FaultsUpToNext(tree: Tree, dir: string, targets: seq<string>, i: nat, faults: seq<Fault>,
          through: set<string>)
    requires i < |targets| && FaultsUpTo(tree, dir, targets, i, faults) && targets[i] !in targets[..i]
    requires AgainstOrder(tree, dir, targets[i]) ==> IsFault(tree, dir, Fault(dir, targets[i], through))
    ensures FaultsUpTo(tree, dir, targets, i + 1,
              faults + if AgainstOrder(tree, dir, targets[i]) then [Fault(dir, targets[i], through)] else [])
  {
    if AgainstOrder(tree, dir, targets[i]) {
      var f := Fault(dir, targets[i], through);
      assert f in [f] && Reported([f], targets[i]);
      ReportedStays(faults, [f]);
      assert targets[..i + 1] == targets[..i] + [targets[i]];
      forall k | 0 <= k < |faults|
        ensures faults[k].target != targets[i]
      {
        assert faults[k] in faults;
      }
    } else {
      assert faults + [] == faults;
    }
  }

  lemma {:induction false} AllFaults(tree: Tree, dir: string, reached: Reached, targets: seq<string>,
          faults: seq<Fault>)
    requires Found(tree.imports, tree.testImports, tree.domains, dir, reached)
    requires forall t :: t in targets <==> t in reached
    requires FaultsUpTo(tree, dir, targets, |targets|, faults)
    ensures forall target :: Reported(faults, target) <==> AgainstOrder(tree, dir, target)
  {
    forall target | AgainstOrder(tree, dir, target)
      ensures Reported(faults, target)
    {
      FoundIsReaches(tree, dir, reached, target);
      assert target in targets;
    }
  }

  lemma {:induction false} NotBefore(list: seq<string>, i: nat)
    requires i < |list| && forall j, k | 0 <= j < k < |list| :: Less(list[j], list[k])
    ensures list[i] !in list[..i]
  {
    LessIrreflexive(list[i]);
  }

  // The faults of one package: one for each package it reaches against the order, with the ways it was reached.
  method FaultsOf(tree: Tree, dir: string) returns (faults: seq<Fault>)
    requires Checked(tree, dir)
    ensures OnePerPair(faults)
    ensures forall f | f in faults :: IsFault(tree, dir, f)
    ensures forall target :: Reported(faults, target) <==> AgainstOrder(tree, dir, target)
  {
    var reached := SearchFrom(tree.imports, tree.testImports, tree.domains, dir);
    var targets := SortedKeys(reached.Keys);
    faults := [];
    for i := 0 to |targets|
      invariant FaultsUpTo(tree, dir, targets, i, faults)
    {
      var target := targets[i];
      assert target in targets;
      FoundIsReaches(tree, dir, reached, target);
      var more := FaultAt(tree, dir, target, reached[target]);
      if more != [] { IsFaultOf(tree, dir, reached, target); }
      NotBefore(targets, i);
      FaultsUpToNext(tree, dir, targets, i, faults, reached[target]);
      faults := faults + more;
    }
    AllFaults(tree, dir, reached, targets, faults);
  }

  // Walks every package that imports, and reports each forbidden target of it once.
  method ImportAgainstOrder(tree: Tree) returns (faults: seq<Fault>)
    ensures OnePerPair(faults)
    ensures forall f | f in faults :: IsFault(tree, f.dir, f)
    ensures forall dir, target | AgainstOrder(tree, dir, target) :: ReportedFor(faults, dir, target)
  {
    var importers := SortedKeys(tree.imports.Keys + tree.testImports.Keys);
    faults := [];
    for i := 0 to |importers|
      invariant AllUpTo(tree, importers, i, faults)
    {
      var dir := importers[i];
      assert dir in importers;
      NotBefore(importers, i);
      assert importers[..i + 1] == importers[..i] + [dir];
      if HasPrefix(dir, CMD) || DomainsOf(tree.domains, dir) == [] { continue; }
      var more := FaultsOf(tree, dir);
      AllUpToNext(tree, importers, i, faults, more);
      faults := faults + more;
    }
    forall dir, target | AgainstOrder(tree, dir, target)
      ensures ReportedFor(faults, dir, target)
    {
      assert dir in importers;
    }
  }

  ghost predicate ReportedFor(faults: seq<Fault>, dir: string, target: string) {
    exists f :: f in faults && f.dir == dir && f.target == target
  }

  // The faults of the first so many importers.
  ghost predicate AllUpTo(tree: Tree, importers: seq<string>, i: nat, faults: seq<Fault>)
    requires i <= |importers|
  {
    && OnePerPair(faults)
    && (forall f | f in faults :: IsFault(tree, f.dir, f) && f.dir in importers[..i])
    && (forall k, target | 0 <= k < i && AgainstOrder(tree, importers[k], target) :: ReportedFor(faults, importers[k], target))
  }

  lemma {:induction false} AllUpToNext(tree: Tree, importers: seq<string>, i: nat, faults: seq<Fault>, more: seq<Fault>)
    requires i < |importers| && AllUpTo(tree, importers, i, faults) && importers[i] !in importers[..i]
    requires OnePerPair(more) && forall f | f in more :: IsFault(tree, importers[i], f)
    requires forall target :: Reported(more, target) <==> AgainstOrder(tree, importers[i], target)
    ensures AllUpTo(tree, importers, i + 1, faults + more)
  {
    var all := faults + more;
    assert importers[..i + 1] == importers[..i] + [importers[i]];
    forall j, k | 0 <= j < k < |all|
      ensures all[j].dir != all[k].dir || all[j].target != all[k].target
    {
      if j < |faults| <= k {
        assert all[j] in faults && all[k] in more;
      }
    }
    forall k, target | 0 <= k < i + 1 && AgainstOrder(tree, importers[k], target)
      ensures ReportedFor(all, importers[k], target)
    {
      if k < i {
        var f :| f in faults && f.dir == importers[k] && f.target == target;
        assert f in all;
      } else {
        assert Reported(more, target);
        var f :| f in more && f.target == target;
        assert f in all;
      }
    }
  }

  // ---- Import paths in a tree with no fault ----

  // A package imports another: its test files count too, but not those of a bridge.
  predicate Edge(tree: Tree, a: string, b: string) {
    b in ImportsOf(tree.imports, a) || (!Bridge(tree.domains, a) && b in ImportsOf(tree.testImports, a))
  }

  ghost predicate ImportPath(tree: Tree, path: seq<string>) {
    && path != []
    && (forall i | 0 <= i < |path| :: HasPrefix(path[i], INTERNAL))
    && (forall i | 0 <= i < |path| - 1 :: Edge(tree, path[i], path[i + 1]))
  }

  // No package under internal has files of two domains, and no package reaches another against the order.
  ghost predicate Clean(tree: Tree) {
    && (forall p | HasPrefix(p, INTERNAL) :: |DomainsOf(tree.domains, p)| <= 1)
    && (forall dir, target :: !AgainstOrder(tree, dir, target))
  }

  // The one domain of a package that is no bridge.
  function DomainOf(tree: Tree, p: string): string
    requires DomainsOf(tree.domains, p) != []
  {
    DomainsOf(tree.domains, p)[0]
  }

  function HeightOf(tree: Tree, p: string): nat
    requires DomainsOf(tree.domains, p) != []
  {
    Height(Title(tree.titles, DomainOf(tree, p)))
  }

  // Two packages of a domain with bridges alone between them on a path: one domain, or one the order allows.
  ghost predicate StepsDown(tree: Tree, a: string, b: string)
    requires DomainsOf(tree.domains, a) != [] && DomainsOf(tree.domains, b) != []
  {
    DomainOf(tree, a) == DomainOf(tree, b) ||
    ImportsAllowed(Title(tree.titles, DomainOf(tree, a)), Title(tree.titles, DomainOf(tree, b)))
  }

  lemma {:induction false} InternalIsNotCmd(p: string)
    requires HasPrefix(p, INTERNAL)
    ensures !HasPrefix(p, CMD)
  {
    assert p[0] == p[..|INTERNAL|][0] == 'i';
    assert |p| >= |CMD| ==> p[..|CMD|][0] == p[0];
  }

  // The first package of a domain after the start, through any number of bridges, is one the order allows.
  lemma {:induction false} NextDomainIsAllowed(tree: Tree, path: seq<string>)
    requires Clean(tree) && ImportPath(tree, path) && |path| > 1
    requires !Bridge(tree.domains, path[0]) && !Bridge(tree.domains, path[|path| - 1])
    requires forall i | 0 < i < |path| - 1 :: Bridge(tree.domains, path[i])
    ensures StepsDown(tree, path[0], path[|path| - 1])
  {
    var dir, target := path[0], path[|path| - 1];
    assert Edge(tree, path[0], path[1]);
    if dir != target {
      InternalIsNotCmd(dir);
      if |path| > 2 {
        var bridges := path[1..|path| - 1];
        forall i | 0 <= i < |bridges| - 1
          ensures bridges[i + 1] in ImportsOf(tree.imports, bridges[i])
        {
          assert Edge(tree, path[i + 1], path[i + 2]);
        }
        assert Edge(tree, path[|path| - 2], path[|path| - 1]);
        assert Path(tree.imports, tree.domains, bridges, target) && bridges[0] == path[1];
        assert Through(tree.imports, tree.testImports, tree.domains, dir, path[1], target);
      }
      assert Reaches(tree.imports, tree.testImports, tree.domains, dir, target);
      assert !AgainstOrder(tree, dir, target);
      assert DomainOf(tree, dir) in DomainsOf(tree.domains, dir) && DomainOf(tree, target) in DomainsOf(tree.domains, target);
    }
  }

  // The place of the next package of a domain on a path.
  ghost function NextOfDomain(tree: Tree, path: seq<string>, i: nat): (j: nat)
    requires i < |path| && !Bridge(tree.domains, path[|path| - 1])
    ensures i <= j < |path| && !Bridge(tree.domains, path[j])
    ensures forall k | i <= k < j :: Bridge(tree.domains, path[k])
    decreases |path| - i
  {
    if Bridge(tree.domains, path[i]) then NextOfDomain(tree, path, i + 1) else i
  }

  lemma {:induction false} PartOfPath(tree: Tree, path: seq<string>, i: nat, j: nat)
    requires ImportPath(tree, path) && i < j <= |path|
    ensures ImportPath(tree, path[i..j])
  {
    var part := path[i..j];
    forall k | 0 <= k < |part|
      ensures HasPrefix(part[k], INTERNAL)
    {
      assert part[k] == path[i + k];
    }
    forall k | 0 <= k < |part| - 1
      ensures Edge(tree, part[k], part[k + 1])
    {
      assert Edge(tree, path[i + k], path[i + k + 1]);
    }
  }

  lemma {:induction false} JoinedPath(tree: Tree, a: seq<string>, b: seq<string>)
    requires ImportPath(tree, a) && ImportPath(tree, b) && a[|a| - 1] == b[0]
    ensures ImportPath(tree, a + b[1..])
  {
    var path := a + b[1..];
    forall k | 0 <= k < |path|
      ensures HasPrefix(path[k], INTERNAL)
    {
      if k >= |a| { assert path[k] == b[k - |a| + 1]; }
    }
    forall k | 0 <= k < |path| - 1
      ensures Edge(tree, path[k], path[k + 1])
    {
      if k < |a| - 1 {
        assert Edge(tree, a[k], a[k + 1]);
      } else {
        assert path[k] == b[k - |a| + 1];
        assert Edge(tree, b[k - |a| + 1], b[k - |a| + 2]);
      }
    }
  }

  // Every import path between two packages of a domain descends the order: it ends in the domain it began in, or in
  // one that stands lower, through any number of bridges and of other domains.
  lemma {:induction false} PathsDescend(tree: Tree, path: seq<string>)
    requires Clean(tree) && ImportPath(tree, path)
    requires !Bridge(tree.domains, path[0]) && !Bridge(tree.domains, path[|path| - 1])
    ensures DomainOf(tree, path[0]) == DomainOf(tree, path[|path| - 1]) || HeightOf(tree, path[0]) > HeightOf(tree, path[|path| - 1])
    decreases |path|
  {
    if |path| > 1 {
      var j := NextOfDomain(tree, path, 1);
      var first, rest := path[..j + 1], path[j..];
      PartOfPath(tree, path, 0, j + 1);
      PartOfPath(tree, path, j, |path|);
      assert path[0..j + 1] == first && path[j..|path|] == rest;
      NextDomainIsAllowed(tree, first);
      PathsDescend(tree, rest);
    }
  }

  // Every import cycle stays inside one domain: all its packages that are no bridges have the same one.
  lemma {:induction false} CyclesStayInOneDomain(tree: Tree, cycle: seq<string>, i: nat, j: nat)
    requires Clean(tree) && ImportPath(tree, cycle) && cycle[0] == cycle[|cycle| - 1]
    requires i < j < |cycle| && !Bridge(tree.domains, cycle[i]) && !Bridge(tree.domains, cycle[j])
    ensures DomainOf(tree, cycle[i]) == DomainOf(tree, cycle[j])
  {
    var there, first, last := cycle[i..j + 1], cycle[j..|cycle|], cycle[0..i + 1];
    PartOfPath(tree, cycle, i, j + 1);
    PartOfPath(tree, cycle, j, |cycle|);
    PartOfPath(tree, cycle, 0, i + 1);
    JoinedPath(tree, first, last);
    var back := first + last[1..];
    assert back[0] == cycle[j] && back[|back| - 1] == cycle[i];
    PathsDescend(tree, there);
    PathsDescend(tree, back);
  }
}
