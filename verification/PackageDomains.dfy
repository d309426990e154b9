// internal/assure/code_standard.go: which domains a Go package belongs to, and the packages of two domains.
module PackageDomains {
  import opened DomainOrder
  import opened Imports
  import opened Order
  import opened Text
  import opened Wrappers

  // A technical record: the file or folder it names, and its helper files.
  datatype Record = Record(id: string, file: string, helpers: seq<string>)

  // The tree's files, the folder of the Go package that holds a file, and the IDs of the domains.
  datatype Spec = Spec(files: set<string>, packageOf: string -> Option<string>, domains: set<string>)

  predicate Owns(domain: string, id: string) {
    HasPrefix(id, domain + "-")
  }

  // The record belongs to the longest domain ID that starts its own, or to no domain.
  ghost predicate BelongsTo(spec: Spec, id: string, domain: string) {
    && (domain != "" ==> domain in spec.domains && Owns(domain, id))
    && (forall d | d in spec.domains && Owns(d, id) :: d == domain || |d| < |domain|)
  }

  // The order in which the domains are looked at does not matter.
  lemma {:induction false} OneDomainPerRecord(spec: Spec, id: string, a: string, b: string)
    requires BelongsTo(spec, id, a) && BelongsTo(spec, id, b)
    ensures a == b
  {
  }

  method DomainOfRecord(spec: Spec, id: string) returns (found: string)
    ensures BelongsTo(spec, id, found)
  {
    found := "";
    var left := spec.domains;
    while left != {}
      invariant left <= spec.domains
      invariant found != "" ==> found in spec.domains - left && Owns(found, id)
      invariant forall d | d in spec.domains - left && Owns(d, id) :: d == found || |d| < |found|
      decreases |left|
    {
      var domain :| domain in left;
      left := left - {domain};
      if Owns(domain, id) && |domain| > |found| {
        SameLengthOwners(id, found, domain);
        found := domain;
      } else if Owns(domain, id) && found != "" {
        SameLengthOwners(id, found, domain);
      }
    }
  }

  lemma {:induction false} SameLengthOwners(id: string, a: string, b: string)
    ensures Owns(a, id) && Owns(b, id) && |a| == |b| ==> a == b
  {
    if Owns(a, id) && Owns(b, id) && |a| == |b| {
      assert a == id[..|a| + 1][..|a|] && b == id[..|b| + 1][..|b|];
    }
  }

  predicate IsPackage(spec: Spec, dir: string) {
    exists file :: file in spec.files && spec.packageOf(file) == Some(dir)
  }

  // The record names a held file of the package, or a folder that is the package or holds it.
  predicate NamesPackage(spec: Spec, record: Record, dir: string) {
    || (exists file :: file in [record.file] + record.helpers && file in spec.files && spec.packageOf(file) == Some(dir))
    || (IsPackage(spec, dir) && (dir == record.file || HasPrefix(dir, record.file + "/")))
  }

  ghost predicate NamedFor(spec: Spec, records: seq<Record>, dir: string, domain: string) {
    exists i :: 0 <= i < |records| && NamesPackage(spec, records[i], dir) && BelongsTo(spec, records[i].id, domain)
  }

  // Every package of the tree.
  method Packages(spec: Spec) returns (packages: set<string>)
    ensures forall dir :: dir in packages <==> IsPackage(spec, dir)
  {
    packages := {};
    var left := spec.files;
    while left != {}
      invariant left <= spec.files
      invariant forall dir :: dir in packages <==> exists file :: file in spec.files - left && spec.packageOf(file) == Some(dir)
      decreases |left|
    {
      var file :| file in left;
      ghost var done := spec.files - left;
      left := left - {file};
      assert spec.files - left == done + {file};
      if spec.packageOf(file).Some? {
        packages := packages + {spec.packageOf(file).value};
      }
    }
    assert spec.files - left == spec.files;
  }

  method DirsOf(spec: Spec, record: Record, packages: set<string>) returns (dirs: set<string>)
    requires forall dir :: dir in packages <==> IsPackage(spec, dir)
    ensures forall dir :: dir in dirs <==> NamesPackage(spec, record, dir)
  {
    var files := [record.file] + record.helpers;
    dirs := {};
    for i := 0 to |files|
      invariant forall dir :: dir in dirs <==>
        exists file :: file in files[..i] && file in spec.files && spec.packageOf(file) == Some(dir)
    {
      assert files[..i + 1] == files[..i] + [files[i]];
      if files[i] in spec.files && spec.packageOf(files[i]).Some? {
        dirs := dirs + {spec.packageOf(files[i]).value};
      }
    }
    assert files[..|files|] == files;
    dirs := dirs + set dir | dir in packages && (dir == record.file || HasPrefix(dir, record.file + "/"));
  }

  type Sets = Reached

  // What the records before this one gave each package.
  ghost predicate Given(spec: Spec, records: seq<Record>, i: nat, sets: Sets)
    requires i <= |records|
  {
    && (forall dir | dir in sets :: sets[dir] != {})
    && (forall dir, domain :: domain in MarksOf(sets, dir) <==> domain != "" && NamedFor(spec, records[..i], dir, domain))
  }

  lemma {:induction false} NamedForNext(spec: Spec, records: seq<Record>, i: nat, dir: string, domain: string)
    requires i < |records|
    ensures NamedFor(spec, records[..i + 1], dir, domain) <==>
      NamedFor(spec, records[..i], dir, domain) || (NamesPackage(spec, records[i], dir) && BelongsTo(spec, records[i].id, domain))
  {
    var next := records[..i + 1];
    if NamedFor(spec, records[..i], dir, domain) {
      var k :| 0 <= k < i && NamesPackage(spec, records[..i][k], dir) && BelongsTo(spec, records[..i][k].id, domain);
      assert next[k] == records[..i][k];
    }
    if NamesPackage(spec, records[i], dir) && BelongsTo(spec, records[i].id, domain) {
      assert next[i] == records[i];
    }
    if NamedFor(spec, next, dir, domain) {
      var k :| 0 <= k < i + 1 && NamesPackage(spec, next[k], dir) && BelongsTo(spec, next[k].id, domain);
      assert k < i ==> records[..i][k] == next[k];
    }
  }

  // What a package has once those that are done have the domain.
  function MarksWith(sets: Sets, done: set<string>, domain: string, dir: string): set<string> {
    MarksOf(sets, dir) + if dir in done then {domain} else {}
  }

  ghost predicate GivenTo(sets: Sets, done: set<string>, domain: string, more: Sets) {
    && (forall dir | dir in more :: more[dir] != {})
    && (forall dir :: MarksOf(more, dir) == MarksWith(sets, done, domain, dir))
  }

  lemma {:induction false} GivenToNext(sets: Sets, done: set<string>, domain: string, more: Sets, dir: string)
    requires GivenTo(sets, done, domain, more) && dir !in done
    ensures GivenTo(sets, done + {dir}, domain, more[dir := MarksOf(more, dir) + {domain}])
  {
    var next := more[dir := MarksOf(more, dir) + {domain}];
    forall d
      ensures MarksOf(next, d) == MarksWith(sets, done + {dir}, domain, d)
    {
      assert MarksOf(more, d) == MarksWith(sets, done, domain, d);
    }
  }

  // Gives the domain to each package the record names.
  method Give(sets: Sets, dirs: set<string>, domain: string) returns (more: Sets)
    requires forall dir | dir in sets :: sets[dir] != {}
    ensures GivenTo(sets, dirs, domain, more)
  {
    more := sets;
    var left := dirs;
    while left != {}
      invariant left <= dirs
      invariant GivenTo(sets, dirs - left, domain, more)
      decreases |left|
    {
      var dir :| dir in left;
      GivenToNext(sets, dirs - left, domain, more, dir);
      assert dirs - (left - {dir}) == dirs - left + {dir};
      left := left - {dir};
      more := more[dir := MarksOf(more, dir) + {domain}];
    }
    assert dirs - left == dirs;
  }

  lemma {:induction false} GivenNext(spec: Spec, records: seq<Record>, i: nat, sets: Sets, dirs: set<string>,
          domain: string, more: Sets)
    requires i < |records| && Given(spec, records, i, sets)
    requires forall dir :: dir in dirs <==> NamesPackage(spec, records[i], dir)
    requires BelongsTo(spec, records[i].id, domain)
    requires if domain == "" then more == sets else GivenTo(sets, dirs, domain, more)
    ensures Given(spec, records, i + 1, more)
  {
    forall dir, d
      ensures d in MarksOf(more, dir) <==> d != "" && NamedFor(spec, records[..i + 1], dir, d)
    {
      NamedForNext(spec, records, i, dir, d);
      assert d in MarksOf(sets, dir) <==> d != "" && NamedFor(spec, records[..i], dir, d);
      if BelongsTo(spec, records[i].id, d) {
        OneDomainPerRecord(spec, records[i].id, domain, d);
      }
      if domain != "" {
        assert MarksOf(more, dir) == MarksWith(sets, dirs, domain, dir);
      }
    }
  }

  ghost predicate NamedBy(spec: Spec, records: seq<Record>, i: nat, named: set<string>)
    requires i <= |records|
  {
    forall dir :: dir in named <==> exists k :: 0 <= k < i && NamesPackage(spec, records[k], dir)
  }

  lemma {:induction false} NamedByNext(spec: Spec, records: seq<Record>, i: nat, named: set<string>, dirs: set<string>)
    requires i < |records| && NamedBy(spec, records, i, named)
    requires forall dir :: dir in dirs <==> NamesPackage(spec, records[i], dir)
    ensures NamedBy(spec, records, i + 1, named + dirs)
  {
  }

  method CollectDomains(spec: Spec, records: seq<Record>) returns (sets: Sets, named: set<string>)
    ensures Given(spec, records, |records|, sets)
    ensures NamedBy(spec, records, |records|, named)
  {
    var packages := Packages(spec);
    sets, named := map[], {};
    for i := 0 to |records|
      invariant Given(spec, records, i, sets)
      invariant NamedBy(spec, records, i, named)
    {
      var dirs := DirsOf(spec, records[i], packages);
      var domain := DomainOfRecord(spec, records[i].id);
      NamedByNext(spec, records, i, named, dirs);
      named := named + dirs;
      ghost var was := sets;
      if domain != "" {
        sets := Give(sets, dirs, domain);
      }
      GivenNext(spec, records, i, was, dirs, domain, sets);
    }
  }

  method SortDomains(sets: Sets) returns (domains: Domains)
    ensures domains.Keys == sets.Keys
    ensures forall dir | dir in domains :: SortedListOf(domains[dir], sets[dir])
  {
    domains := map[];
    var left := sets.Keys;
    while left != {}
      invariant left <= sets.Keys
      invariant domains.Keys == sets.Keys - left
      invariant forall dir | dir in domains :: SortedListOf(domains[dir], sets[dir])
      decreases |left|
    {
      var dir :| dir in left;
      left := left - {dir};
      var list := SortedKeys(sets[dir]);
      domains := domains[dir := list];
    }
  }

  // The domains of a package are those of the records that name it, each once and in order.
  ghost predicate DomainsAre(spec: Spec, records: seq<Record>, dir: string, domains: seq<string>) {
    Increasing(LESS, domains) && forall domain :: domain in domains <==> domain != "" && NamedFor(spec, records, dir, domain)
  }

  // What the records give each package, and the packages they name.
  method PackageDomains(spec: Spec, records: seq<Record>) returns (domains: Domains, named: set<string>)
    ensures forall dir :: DomainsAre(spec, records, dir, DomainsOf(domains, dir))
    ensures forall dir :: dir in named <==> exists i :: 0 <= i < |records| && NamesPackage(spec, records[i], dir)
  {
    var sets;
    sets, named := CollectDomains(spec, records);
    domains := SortDomains(sets);
    assert records[..|records|] == records;
    forall dir, domain
      ensures domain in DomainsOf(domains, dir) <==> domain in MarksOf(sets, dir)
    {
    }
  }

  // Records of two different domains name the package.
  ghost predicate OfTwoDomains(spec: Spec, records: seq<Record>, dir: string) {
    exists a, b :: a != b && a != "" && b != "" && NamedFor(spec, records, dir, a) && NamedFor(spec, records, dir, b)
  }

  // A package has more than one domain exactly when records of two different domains name it.
  lemma {:induction false} TwoDomains(spec: Spec, records: seq<Record>, dir: string, domains: seq<string>)
    requires DomainsAre(spec, records, dir, domains)
    ensures |domains| > 1 <==> OfTwoDomains(spec, records, dir)
  {
    if |domains| > 1 {
      assert Less(domains[0], domains[1]);
      LessIrreflexive(domains[0]);
      assert domains[0] in domains && domains[1] in domains;
    }
    if OfTwoDomains(spec, records, dir) {
      var a, b :| a != b && a != "" && b != "" && NamedFor(spec, records, dir, a) && NamedFor(spec, records, dir, b);
      assert a in domains && b in domains;
    }
  }

  // A package that records of two domains name, and all the domains of its records.
  datatype DomainFault = DomainFault(dir: string, domains: seq<string>)

  ghost predicate FaultFor(faults: seq<DomainFault>, dir: string) {
    exists f :: f in faults && f.dir == dir
  }

  // One fault for each package under internal that records of two domains name, in the order of the packages, and
  // none besides.
  ghost predicate DomainFaults(spec: Spec, records: seq<Record>, faults: seq<DomainFault>) {
    && (forall i, j | 0 <= i < j < |faults| :: Less(faults[i].dir, faults[j].dir))
    && (forall dir :: FaultFor(faults, dir) <==> HasPrefix(dir, INTERNAL) && OfTwoDomains(spec, records, dir))
    && (forall f | f in faults :: DomainsAre(spec, records, f.dir, f.domains))
  }

  method PackageOfTwoDomains(spec: Spec, records: seq<Record>) returns (faults: seq<DomainFault>)
    ensures DomainFaults(spec, records, faults)
  {
    var domains, _ := PackageDomains(spec, records);
    faults := FaultsOfTwo(domains);
    AllTwoDomains(spec, records, domains);
  }

  // The faults found in these packages.
  ghost predicate FoundIn(domains: Domains, dirs: seq<string>, faults: seq<DomainFault>) {
    && (forall k, l | 0 <= k < l < |faults| :: Less(faults[k].dir, faults[l].dir))
    && (forall f | f in faults :: f.dir in dirs && f.domains == DomainsOf(domains, f.dir))
    && (forall dir :: FaultFor(faults, dir) <==> dir in dirs && |DomainsOf(domains, dir)| > 1 && HasPrefix(dir, INTERNAL))
  }

  // One fault for each package under internal with more than one domain.
  method FaultsOfTwo(domains: Domains) returns (faults: seq<DomainFault>)
    ensures FoundIn(domains, KeysInOrder(domains.Keys), faults)
  {
    var dirs := SortedKeys(domains.Keys);
    faults := [];
    for i := 0 to |dirs|
      invariant FoundIn(domains, dirs[..i], faults)
    {
      var dir := dirs[i];
      FoundInNext(domains, dirs, i, faults);
      if |DomainsOf(domains, dir)| > 1 && HasPrefix(dir, INTERNAL) {
        faults := faults + [DomainFault(dir, DomainsOf(domains, dir))];
      }
    }
    assert dirs[..|dirs|] == dirs;
  }

  lemma {:induction false} FoundInNext(domains: Domains, dirs: seq<string>, i: nat, faults: seq<DomainFault>)
    requires i < |dirs| && SortedListOf(dirs, domains.Keys) && FoundIn(domains, dirs[..i], faults)
    ensures
      var dir := dirs[i];
      FoundIn(domains, dirs[..i + 1],
              if |DomainsOf(domains, dir)| > 1 && HasPrefix(dir, INTERNAL) then faults + [DomainFault(dir, DomainsOf(domains, dir))]
              else faults)
  {
    var dir := dirs[i];
    assert dirs[..i + 1] == dirs[..i] + [dir];
    forall k | 0 <= k < |faults|
      ensures Less(faults[k].dir, dir)
    {
      assert faults[k] in faults;
      var j :| 0 <= j < i && dirs[j] == faults[k].dir;
    }
    FaultsWithOneMore(faults, DomainFault(dir, DomainsOf(domains, dir)));
  }

  lemma {:induction false} FaultsWithOneMore(was: seq<DomainFault>, next: DomainFault)
    ensures forall dir :: FaultFor(was + [next], dir) <==> FaultFor(was, dir) || dir == next.dir
  {
    forall dir
      ensures FaultFor(was + [next], dir) <==> FaultFor(was, dir) || dir == next.dir
    {
      assert (was + [next])[|was|] == next;
      if FaultFor(was, dir) {
        var f :| f in was && f.dir == dir;
        assert f in was + [next];
      }
    }
  }

  lemma {:induction false} AllTwoDomains(spec: Spec, records: seq<Record>, domains: Domains)
    requires forall dir :: DomainsAre(spec, records, dir, DomainsOf(domains, dir))
    ensures forall dir :: |DomainsOf(domains, dir)| > 1 <==> OfTwoDomains(spec, records, dir)
  {
    forall dir
      ensures |DomainsOf(domains, dir)| > 1 <==> OfTwoDomains(spec, records, dir)
    {
      TwoDomains(spec, records, dir, DomainsOf(domains, dir));
    }
  }

  // A tree with no fault of either rule is one where imports descend the order.
  lemma {:induction false} NoFaultIsClean(spec: Spec, records: seq<Record>, tree: Tree, two: seq<DomainFault>,
          against: seq<Fault>)
    requires forall dir :: DomainsAre(spec, records, dir, DomainsOf(tree.domains, dir))
    requires DomainFaults(spec, records, two)
    requires forall f | f in against :: IsFault(tree, f.dir, f)
    requires forall dir, target | AgainstOrder(tree, dir, target) :: ReportedFor(against, dir, target)
    ensures two == [] && against == [] <==> Clean(tree)
  {
    AllTwoDomains(spec, records, tree.domains);
    if two != [] { assert FaultFor(two, two[0].dir); }
    if against != [] { assert against[0] in against; }
    forall dir | two == [] && HasPrefix(dir, INTERNAL)
      ensures |DomainsOf(tree.domains, dir)| <= 1
    {
      assert !FaultFor(two, dir);
    }
  }
}
