// internal/compiler/assembler.go: the names that the assembler gives to imports and to constructed values, and when its
// own maps rename a reference twice.
module Naming {
  import opened ConstructorMeaning
  import opened ConstructorSyntax
  import opened Numerals
  import opened Wrappers

  // ---- Numbered names ----

  // The base name with a number after it.
  function Numbered(base: string, n: nat): string {
    base + Decimal(n)
  }

  function With(base: string): nat -> string {
    (n: nat) => Numbered(base, n)
  }

  // No two numbers make one name.
  ghost predicate TellsApart(name: nat -> string) {
    forall m, n | name(m) == name(n) :: m == n
  }

  lemma {:induction false} NumbersTellApart(base: string)
    ensures TellsApart(With(base))
  {
    forall m: nat, n: nat | Numbered(base, m) == Numbered(base, n)
      ensures m == n
    {
      assert Decimal(m) == Numbered(base, m)[|base|..] == Numbered(base, n)[|base|..] == Decimal(n);
      DecimalIsInjective(m, n);
    }
  }

  lemma {:induction false} NumberedIsLonger(base: string, n: nat)
    ensures |Numbered(base, n)| > |base| && EndsInDigit(Numbered(base, n))
  {
    DecimalEndsInDigit(base, n);
  }

  // The first number from n on whose name is not in use.
  function FirstFree(name: nat -> string, n: nat, used: set<string>): nat
    decreases |used|
  {
    if name(n) in used then FirstFree(name, n + 1, used - {name(n)}) else n
  }

  lemma {:induction false} FirstFreeIsFirst(name: nat -> string, n: nat, used: set<string>)
    requires TellsApart(name)
    ensures FirstFree(name, n, used) >= n && name(FirstFree(name, n, used)) !in used
    ensures forall k | n <= k < FirstFree(name, n, used) :: name(k) in used
    decreases |used|
  {
    if name(n) in used {
      FirstFreeIsFirst(name, n + 1, used - {name(n)});
    }
  }

  // ---- One name after the other ----

  // The names given so far: how often each base name was asked for, and the names in use.
  datatype Given = Given(counts: map<string, nat>, used: set<string>) {
    function Count(base: string): nat {
      if base in counts then counts[base] else 0
    }

    // A base name that was asked for is in use.
    ghost predicate Valid() {
      counts.Keys <= used
    }

    predicate Free(base: string) {
      Count(base) == 0 && base !in used
    }

    // The number for a base name that is not free: the first new one from its count on, and from 2 on.
    function NumberFor(base: string): nat {
      FirstFree(With(base), if Count(base) < 1 then 2 else Count(base) + 1, used)
    }

    function NameFor(base: string): string {
      if Free(base) then base else With(base)(NumberFor(base))
    }

    function After(base: string): Given {
      Given(counts[base := if Free(base) then 1 else NumberFor(base)], used + {NameFor(base)})
    }

    // The base name is taken without asking.
    function Taking(base: string): Given {
      Given(counts[base := Count(base) + 1], used + {base})
    }
  }

  // A name that is given is new: the base name exactly when that is not in use, or else a numbered one. Its number is
  // the first from 2 on that is higher than the count and makes a new name.
  lemma {:induction false} GivenNameIsNew(g: Given, base: string)
    requires g.Valid()
    ensures g.NameFor(base) !in g.used && g.After(base).Valid()
    ensures g.NameFor(base) == base <==> base !in g.used
    ensures base in g.used ==>
      && g.NumberFor(base) >= 2 && g.NumberFor(base) > g.Count(base) && g.NameFor(base) == Numbered(base, g.NumberFor(base))
      && forall k | 2 <= k < g.NumberFor(base) && k > g.Count(base) :: Numbered(base, k) in g.used
  {
    NumbersTellApart(base);
    var from := if g.Count(base) < 1 then 2 else g.Count(base) + 1;
    FirstFreeIsFirst(With(base), from, g.used);
    NumberedIsLonger(base, g.NumberFor(base));
    forall k: nat | from <= k < g.NumberFor(base)
      ensures Numbered(base, k) in g.used
    {
      assert With(base)(k) in g.used;
    }
  }

  class Names {
    var counts: map<string, nat>
    var used: set<string>

    constructor (given: Given)
      ensures Now() == given
    {
      counts, used := given.counts, given.used;
    }

    function Now(): Given
      reads this
    {
      Given(counts, used)
    }

    method Disambiguate(base: string) returns (alias: string)
      modifies this
      ensures alias == old(Now()).NameFor(base) && Now() == old(Now()).After(base)
    {
      ghost var was := Now();
      counts := counts[base := Now().Count(base) + 1];
      if counts[base] == 1 && base !in used {
        used := used + {base};
        assert was.Free(base) && Now() == was.After(base);
        return base;
      }
      assert !was.Free(base);
      if counts[base] < 2 { counts := counts[base := 2]; }
      NumbersTellApart(base);
      assert counts[base] == if was.Count(base) < 1 then 2 else was.Count(base) + 1;
      var n := FirstNew(With(base), counts[base], used);
      assert n == was.NumberFor(base);
      counts := counts[base := n];
      assert counts == was.counts[base := n];
      alias := With(base)(n);
      assert alias == was.NameFor(base);
      used := used + {alias};
    }

    // Takes names without asking, one after the other.
    method Seed(names: set<string>)
      modifies this
      ensures Now() == Seeded(old(Now()), names)
    {
      var left := names;
      ghost var was, done := Now(), {};
      SeededNone(was);
      while left != {}
        invariant done == names - left && left <= names && IsSeeded(Now(), was, done)
        decreases left
      {
        var name :| name in left;
        SeededOneMore(Now(), was, done, name);
        TakeOne(name);
        left, done := left - {name}, done + {name};
      }
    }

    method TakeOne(name: string)
      modifies this
      ensures Now() == old(Now()).Taking(name)
    {
      counts, used := counts[name := Now().Count(name) + 1], used + {name};
    }
  }

  // The names once more are taken, each counted once more.
  function Seeded(g: Given, names: set<string>): Given {
    Given(map name | name in g.counts.Keys + names :: g.Count(name) + if name in names then 1 else 0, g.used + names)
  }

  ghost predicate IsSeeded(now: Given, g: Given, names: set<string>) {
    now == Seeded(g, names)
  }

  lemma {:induction false} SeededNone(g: Given)
    ensures IsSeeded(g, g, {})
  {
    assert Seeded(g, {}).counts == g.counts;
  }

  lemma {:induction false} SeededOneMore(now: Given, g: Given, names: set<string>, name: string)
    requires IsSeeded(now, g, names) && name !in names
    ensures IsSeeded(now.Taking(name), g, names + {name})
  {
  }

  // The first number from the count on that makes a name that is not in use.
  method FirstNew(name: nat -> string, count: nat, used: set<string>) returns (n: nat)
    requires TellsApart(name)
    ensures n == FirstFree(name, count, used)
  {
    n := count;
    ghost var left := used;
    while name(n) in used
      invariant left <= used && forall k | k >= n && name(k) in used :: name(k) in left
      invariant FirstFree(name, count, used) == FirstFree(name, n, left)
      decreases |left|
    {
      left := left - {name(n)};
      n := n + 1;
    }
  }

  // ---- The imports ----

  // An import of a component; one of the assembler itself, with its path when components may share it; and the one of
  // the check of database access, which components know by another name.
  datatype Import =
    | Component(wiring: nat, path: string, base: string)
    | Own(asked: string, shared: Option<string>)
    | DatabaseAccess(path: string)

  const DATABASE_ACCESS := "databaseaccess"
  const OWN_DATABASE_ACCESS := "stegodatabaseaccess"

  type Renaming = map<string, string>

  // What the imports so far took: the names, the aliases, what each path imported renames, and what each component's
  // expressions are to rename.
  datatype Imported = Imported(given: Given, aliases: set<string>, paths: map<string, Renaming>, renames: map<nat, Renaming>)

  function RenamesOf(renames: map<nat, Renaming>, wiring: nat): Renaming {
    if wiring in renames then renames[wiring] else map[]
  }

  function Add(renames: map<nat, Renaming>, wiring: nat, more: Renaming): map<nat, Renaming> {
    if more == map[] then renames else renames[wiring := RenamesOf(renames, wiring) + more]
  }

  // Takes an alias for the path that is asked for by this name.
  function Take(s: Imported, asked: string, paths: map<string, Renaming>): Imported {
    Imported(s.given.After(asked), s.aliases + {s.given.NameFor(asked)}, paths, s.renames)
  }

  function ImportOne(s: Imported, i: Import): Imported {
    match i
    case Component(wiring, path, base) =>
      if path in s.paths then s.(renames := Add(s.renames, wiring, s.paths[path]))
      else
        var alias := s.given.NameFor(base);
        var own: Renaming := if alias == base then map[] else map[base := alias];
        Take(s, base, s.paths[path := own]).(renames := Add(s.renames, wiring, own))
    case Own(asked, shared) =>
      if shared.None? then Take(s, asked, s.paths)
      else if shared.value in s.paths then s
      else Take(s, asked, s.paths[shared.value := map[]])
    case DatabaseAccess(path) =>
      Take(s, OWN_DATABASE_ACCESS, s.paths[path := map[DATABASE_ACCESS := s.given.NameFor(OWN_DATABASE_ACCESS)]])
  }

  function ImportAll(reserved: Given, imports: seq<Import>): Imported {
    if imports == [] then Imported(reserved, {}, map[], map[])
    else ImportOne(ImportAll(reserved, imports[..|imports| - 1]), imports[|imports| - 1])
  }

  // Names the imports in turn.
  method NameImports(imports: seq<Import>, reserved: Given) returns (aliases: set<string>, renames: map<nat, Renaming>)
    ensures aliases == ImportAll(reserved, imports).aliases && renames == ImportAll(reserved, imports).renames
  {
    var names := new Names(reserved);
    var paths: map<string, Renaming> := map[];
    aliases, renames := {}, map[];
    for i := 0 to |imports|
      invariant fresh(names) && Imported(names.Now(), aliases, paths, renames) == ImportAll(reserved, imports[..i])
    {
      assert imports[..i + 1][..i] == imports[..i];
      match imports[i]
      case Component(wiring, path, base) =>
        if path in paths {
          renames := Add(renames, wiring, paths[path]);
        } else {
          var alias := names.Disambiguate(base);
          aliases := aliases + {alias};
          paths := paths[path := if alias == base then map[] else map[base := alias]];
          renames := Add(renames, wiring, paths[path]);
        }
      case Own(asked, shared) =>
        if shared.None? || shared.value !in paths {
          var alias := names.Disambiguate(asked);
          aliases := aliases + {alias};
          if shared.Some? { paths := paths[shared.value := map[]]; }
        }
      case DatabaseAccess(path) =>
        var alias := names.Disambiguate(OWN_DATABASE_ACCESS);
        aliases := aliases + {alias};
        paths := paths[path := map[DATABASE_ACCESS := alias]];
    }
    assert imports[..|imports|] == imports;
  }

  // Whatever is renamed found its name in use, except in the one import that components know by another name.
  ghost predicate FoundInUse(renames: Renaming, reserved: Given, aliases: set<string>) {
    forall base | base in renames :: base in reserved.used + aliases + {DATABASE_ACCESS} && renames[base] in aliases
  }

  ghost predicate AllFoundInUse<K>(renames: map<K, Renaming>, reserved: Given, aliases: set<string>) {
    forall k | k in renames :: FoundInUse(renames[k], reserved, aliases)
  }

  ghost predicate ImportedRightly(s: Imported, reserved: Given) {
    && s.given.Valid() && s.given.used == reserved.used + s.aliases && s.aliases !! reserved.used
    && AllFoundInUse(s.paths, reserved, s.aliases) && AllFoundInUse(s.renames, reserved, s.aliases)
  }

  // The name that an import asks for, if it asks for one.
  function AskedBy(i: Import): string {
    match i
    case Component(_, _, base) => base
    case Own(asked, _) => asked
    case DatabaseAccess(_) => OWN_DATABASE_ACCESS
  }

  // Each alias is new.
  lemma {:induction false} AliasesAreNew(reserved: Given, imports: seq<Import>)
    requires reserved.Valid()
    ensures ImportedRightly(ImportAll(reserved, imports), reserved)
  {
    if imports != [] {
      AliasesAreNew(reserved, imports[..|imports| - 1]);
      OneMoreIsImported(ImportAll(reserved, imports[..|imports| - 1]), reserved, imports[|imports| - 1]);
    }
  }

  lemma {:induction false} OneMoreIsImported(s: Imported, reserved: Given, i: Import)
    requires ImportedRightly(s, reserved)
    ensures ImportedRightly(ImportOne(s, i), reserved)
  {
    var base := AskedBy(i);
    GivenNameIsNew(s.given, base);
    var aliases := s.aliases + {s.given.NameFor(base)};
    StillFound(s.paths, reserved, s.aliases, aliases);
    StillFound(s.renames, reserved, s.aliases, aliases);
    match i
    case Component(wiring, path, _) =>
      if path in s.paths {
        AddedIsFound(s.renames, wiring, s.paths[path], reserved, s.aliases);
      } else {
        var own: Renaming := if s.given.NameFor(base) == base then map[] else map[base := s.given.NameFor(base)];
        assert FoundInUse(own, reserved, aliases);
        AddedIsFound(s.renames, wiring, own, reserved, aliases);
      }
    case Own(_, _) =>
    case DatabaseAccess(_) =>
  }

  lemma {:induction false} StillFound<K>(renames: map<K, Renaming>, reserved: Given, aliases: set<string>,
          more: set<string>)
    requires AllFoundInUse(renames, reserved, aliases) && aliases <= more
    ensures AllFoundInUse(renames, reserved, more)
  {
    forall k | k in renames
      ensures FoundInUse(renames[k], reserved, more)
    {
      assert FoundInUse(renames[k], reserved, aliases);
    }
  }

  lemma {:induction false} AddedIsFound(renames: map<nat, Renaming>, wiring: nat, more: Renaming, reserved: Given,
          aliases: set<string>)
    requires AllFoundInUse(renames, reserved, aliases) && FoundInUse(more, reserved, aliases)
    ensures AllFoundInUse(Add(renames, wiring, more), reserved, aliases)
  {
    assert FoundInUse(RenamesOf(renames, wiring), reserved, aliases);
    assert FoundInUse(RenamesOf(renames, wiring) + more, reserved, aliases);
  }

  // What a component's expressions rename, if it is no alias, was reserved.
  lemma {:induction false} RenamedIsReserved(reserved: Given, imports: seq<Import>, wiring: nat, name: string)
    requires reserved.Valid() && name !in ImportAll(reserved, imports).aliases
    requires Renames(RenamesOf(ImportAll(reserved, imports).renames, wiring), name)
    ensures name in reserved.used || name == DATABASE_ACCESS
  {
    AliasesAreNew(reserved, imports);
  }

  // ---- The values ----

  // Each component's constructors have their own base names, and none is a name of the language.
  ghost predicate ValidBases(wirings: seq<seq<string>>, predeclared: set<string>) {
    forall w | 0 <= w < |wirings| :: ValidIn(wirings[w], predeclared)
  }

  ghost predicate ValidIn(bases: seq<string>, predeclared: set<string>) {
    && (forall i | 0 <= i < |bases| :: bases[i] !in predeclared)
    && (forall i, j | 0 <= i < j < |bases| :: bases[i] != bases[j])
  }

  method ValidateBases(wirings: seq<seq<string>>, predeclared: set<string>) returns (ok: bool)
    ensures ok <==> ValidBases(wirings, predeclared)
  {
    for w := 0 to |wirings|
      invariant forall v | 0 <= v < w :: ValidIn(wirings[v], predeclared)
    {
      var valid := ValidateOne(wirings[w], predeclared);
      if !valid { return false; }
    }
    return true;
  }

  method ValidateOne(bases: seq<string>, predeclared: set<string>) returns (ok: bool)
    ensures ok <==> ValidIn(bases, predeclared)
  {
    var seen: set<string> := {};
    for i := 0 to |bases|
      invariant ValidIn(bases[..i], predeclared)
      invariant forall base :: base in seen <==> base in bases[..i]
    {
      if bases[i] in predeclared { return false; }
      if bases[i] in seen {
        var k :| 0 <= k < i && bases[..i][k] == bases[i];
        return false;
      }
      assert bases[..i + 1] == bases[..i] + [bases[i]];
      seen := seen + {bases[i]};
    }
    assert bases[..|bases|] == bases;
    return true;
  }

  // A constructed value, by its component and its base name.
  datatype Constructed = Constructed(wiring: nat, base: string)

  // The values are emitted in some order, each once.
  ghost predicate Emits(wirings: seq<seq<string>>, entries: seq<Constructed>) {
    && (forall e | e in entries :: e.wiring < |wirings| && e.base in wirings[e.wiring])
    && (forall i, j | 0 <= i < j < |entries| :: entries[i] != entries[j])
  }

  // References to the base name mean the value of the first component that has one.
  predicate Canonical(wirings: seq<seq<string>>, e: Constructed) {
    forall w | 0 <= w < |wirings| && w < e.wiring :: e.base !in wirings[w]
  }

  // What the values so far took: the names, and the new names that references to values get.
  datatype Named = Named(given: Given, values: Renaming)

  function NameOne(wirings: seq<seq<string>>, s: Named, e: Constructed): Named {
    var name := s.given.NameFor(e.base);
    Named(s.given.After(e.base), if Canonical(wirings, e) && name != e.base then s.values[e.base := name] else s.values)
  }

  function NameAll(wirings: seq<seq<string>>, taken: Given, entries: seq<Constructed>): Named {
    if entries == [] then Named(taken, map[])
    else NameOne(wirings, NameAll(wirings, taken, entries[..|entries| - 1]), entries[|entries| - 1])
  }

  // What each value is named, and the new names given before it, which its expression is renamed with.
  ghost predicate NamesInTurn(wirings: seq<seq<string>>, taken: Given, entries: seq<Constructed>, names: seq<string>,
          values: seq<Renaming>)
  {
    |names| == |values| <= |entries| && forall i | 0 <= i < |names| :: InTurn(wirings, taken, entries, i, names[i], values[i])
  }

  ghost predicate InTurn(wirings: seq<seq<string>>, taken: Given, entries: seq<Constructed>, i: nat, name: string,
          values: Renaming)
    requires i < |entries|
  {
    var before := NameAll(wirings, taken, entries[..i]);
    name == before.given.NameFor(entries[i].base) && values == before.values
  }

  lemma {:induction false} NameAllNext(wirings: seq<seq<string>>, taken: Given, entries: seq<Constructed>, i: nat)
    requires i < |entries|
    ensures NameAll(wirings, taken, entries[..i + 1]) == NameOne(wirings, NameAll(wirings, taken, entries[..i]), entries[i])
  {
    assert entries[..i + 1][..i] == entries[..i];
  }

  lemma {:induction false} OneMoreInTurn(wirings: seq<seq<string>>, taken: Given, entries: seq<Constructed>,
          names: seq<string>, values: seq<Renaming>, before: Named)
    requires NamesInTurn(wirings, taken, entries, names, values) && |names| < |entries|
    requires before == NameAll(wirings, taken, entries[..|names|])
    ensures NamesInTurn(wirings, taken, entries, names + [before.given.NameFor(entries[|names|].base)], values + [before.values])
  {
    var moreNames, moreValues := names + [before.given.NameFor(entries[|names|].base)], values + [before.values];
    forall i | 0 <= i < |moreNames|
      ensures InTurn(wirings, taken, entries, i, moreNames[i], moreValues[i])
    {
      assert i < |names| ==> InTurn(wirings, taken, entries, i, names[i], values[i]);
    }
  }

  // Names the values in turn.
  method NameValues(wirings: seq<seq<string>>, entries: seq<Constructed>, taken: Given, aliases: set<string>)
    returns (names: seq<string>, values: seq<Renaming>)
    ensures |names| == |entries| && NamesInTurn(wirings, Seeded(taken, aliases), entries, names, values)
  {
    var given := new Names(taken);
    given.Seed(aliases);
    ghost var seeded := given.Now();
    var renamed: Renaming := map[];
    names, values := [], [];
    for i := 0 to |entries|
      invariant fresh(given) && Named(given.Now(), renamed) == NameAll(wirings, seeded, entries[..i])
      invariant |names| == i && NamesInTurn(wirings, seeded, entries, names, values)
    {
      NameAllNext(wirings, seeded, entries, i);
      OneMoreInTurn(wirings, seeded, entries, names, values, Named(given.Now(), renamed));
      var name := given.Disambiguate(entries[i].base);
      names, values := names + [name], values + [renamed];
      if Canonical(wirings, entries[i]) && name != entries[i].base {
        renamed := renamed[entries[i].base := name];
      }
    }
  }

  // The new name of a value: numbered beyond the count, and not taken before.
  ghost predicate NumberedValue(base: string, name: string, taken: Given) {
    name !in taken.used && exists k: nat :: k >= 2 && k > taken.Count(base) && name == Numbered(base, k)
  }

  ghost predicate NamedRightly(s: Named, taken: Given, entries: seq<Constructed>) {
    && s.given.Valid() && taken.used <= s.given.used && (forall base :: s.given.Count(base) >= taken.Count(base))
    && (forall base | base in s.values ::
          NumberedValue(base, s.values[base], taken) && exists e :: e in entries && e.base == base)
  }

  lemma {:induction false} ValuesAreNumbered(wirings: seq<seq<string>>, taken: Given, entries: seq<Constructed>)
    requires taken.Valid()
    ensures NamedRightly(NameAll(wirings, taken, entries), taken, entries)
  {
    if entries != [] {
      var before, e := entries[..|entries| - 1], entries[|entries| - 1];
      ValuesAreNumbered(wirings, taken, before);
      assert entries == before + [e];
      OneMoreIsNumbered(wirings, NameAll(wirings, taken, before), taken, before, e);
    }
  }

  lemma {:induction false} OneMoreIsNumbered(wirings: seq<seq<string>>, s: Named, taken: Given,
          entries: seq<Constructed>, e: Constructed)
    requires NamedRightly(s, taken, entries)
    ensures NamedRightly(NameOne(wirings, s, e), taken, entries + [e])
  {
    GivenNameIsNew(s.given, e.base);
    var t := NameOne(wirings, s, e);
    assert e in entries + [e];
    forall base | base in t.values
      ensures NumberedValue(base, t.values[base], taken) && exists x :: x in entries + [e] && x.base == base
    {
      if base in s.values && t.values[base] == s.values[base] {
        var x :| x in entries && x.base == base;
        assert x in entries + [e];
      }
    }
  }

  // ---- When a reference is renamed twice ----

  // What the assembler starts from: the names that imports may not take, those that values may not take, the standard
  // packages it imports, and the names of the language, which imports may not take.
  datatype Setting = Setting(reserved: Given, taken: Given, packages: set<string>, predeclared: set<string>) {
    ghost predicate Valid() {
      reserved.Valid() && taken.Valid() && predeclared <= reserved.used
    }
  }

  // A service: what its components import and construct, and the order of the values.
  datatype Program = Program(imports: seq<Import>, wirings: seq<seq<string>>, entries: seq<Constructed>)

  ghost predicate AcceptedProgram(s: Setting, p: Program) {
    ValidBases(p.wirings, s.predeclared) && Emits(p.wirings, p.entries)
  }

  // The maps that the expression of one value is renamed with.
  function MapsFor(s: Setting, p: Program, i: nat, declared: set<string>): Maps
    requires i < |p.entries|
  {
    var imported := ImportAll(s.reserved, p.imports);
    var named := NameAll(p.wirings, Seeded(s.taken, imported.aliases), p.entries[..i]);
    Maps(named.values, RenamesOf(imported.renames, p.entries[i].wiring), s.packages + imported.aliases, declared)
  }

  predicate RenamedTwice(m: Maps, n: string) {
    Renames(m.values, n) && !IsPackage(m, n) && New(m.packages, m.values[n]) != m.values[n]
  }

  // At most one component has a constructor with this base name. The assembler refuses every expression that refers
  // to any other value.
  predicate OneProducer(wirings: seq<seq<string>>, base: string) {
    forall v, w | 0 <= v < |wirings| && 0 <= w < |wirings| && base in wirings[v] && base in wirings[w] :: v == w
  }

  // A name that imports may not take and values may, and that a value can come to.
  predicate Reachable(s: Setting, base: string, k: nat) {
    && k >= 2 && k > s.taken.Count(base) && base !in s.predeclared && base !in s.packages
    && Numbered(base, k) in s.reserved.used && Numbered(base, k) !in s.taken.used
  }

  // A name that a value with another base name can come to.
  ghost predicate Comes(taken: Given, predeclared: set<string>, name: string) {
    exists base, k: nat :: k >= 2 && k > taken.Count(base) && base !in predeclared && name == Numbered(base, k)
  }

  // The only value with its base name comes to a number when the base name is taken or another value comes to it.
  ghost predicate ReachableAlone(s: Setting, base: string, k: nat) {
    Reachable(s, base, k) && (base in s.taken.used || Comes(s.taken, s.predeclared, base))
  }

  lemma {:induction false} SeededStaysValid(g: Given, names: set<string>)
    requires g.Valid()
    ensures Seeded(g, names).Valid()
    ensures forall base :: Seeded(g, names).Count(base) == g.Count(base) + if base in names then 1 else 0
  {
  }

  // A value that is renamed twice has come to a name that is reachable.
  lemma {:induction false} TwiceIsReachable(s: Setting, p: Program, i: nat, declared: set<string>, n: string)
    returns (k: nat)
    requires s.Valid() && AcceptedProgram(s, p) && i < |p.entries|
    requires RenamedTwice(MapsFor(s, p, i, declared), n)
    ensures Reachable(s, n, k)
  {
    var m := MapsFor(s, p, i, declared);
    var aliases := ImportAll(s.reserved, p.imports).aliases;
    var taken := Seeded(s.taken, aliases);
    SeededStaysValid(s.taken, aliases);
    ValuesAreNumbered(p.wirings, taken, p.entries[..i]);
    assert NumberedValue(n, m.values[n], taken);
    k :| k >= 2 && k > taken.Count(n) && m.values[n] == Numbered(n, k);
    RenamedIsReserved(s.reserved, p.imports, p.entries[i].wiring, m.values[n]);
    NumberedIsLonger(n, k);
    var e :| e in p.entries[..i] && e.base == n;
    assert e in p.entries && ValidIn(p.wirings[e.wiring], s.predeclared);
  }

  // A base name that was not asked for is in use, or is a new name's, only where it was taken or comes up.
  ghost predicate ComesRightly(s: Named, taken: Given, predeclared: set<string>, n: string, asked: bool) {
    && s.given.Valid() && (forall base :: s.given.Count(base) >= taken.Count(base))
    && (n in s.values || (n in s.given.used && !asked) ==> n in taken.used || Comes(taken, predeclared, n))
  }

  lemma {:induction false} OneMoreComes(wirings: seq<seq<string>>, s: Named, taken: Given, predeclared: set<string>,
          e: Constructed, n: string, asked: bool)
    requires ComesRightly(s, taken, predeclared, n, asked) && e.base !in predeclared && !(asked && e.base == n)
    ensures ComesRightly(NameOne(wirings, s, e), taken, predeclared, n, asked || e.base == n)
  {
    GivenNameIsNew(s.given, e.base);
    if e.base != n && n == s.given.NameFor(e.base) {
      assert n == Numbered(e.base, s.given.NumberFor(e.base));
    }
  }

  ghost predicate Asked(entries: seq<Constructed>, n: string) {
    exists e :: e in entries && e.base == n
  }

  lemma {:induction false} AskedNext(entries: seq<Constructed>, e: Constructed, n: string)
    requires forall i, j | 0 <= i < j < |entries + [e]| :: (entries + [e])[i] != (entries + [e])[j]
    ensures Asked(entries + [e], n) <==> Asked(entries, n) || e.base == n
    ensures e !in entries
  {
    var after := entries + [e];
    assert e in after;
    forall x | x in entries
      ensures x in after && x != e
    {
      var i :| 0 <= i < |entries| && entries[i] == x;
      assert after[i] == x && after[|entries|] == e;
    }
  }

  lemma {:induction false} OneProducerComes(wirings: seq<seq<string>>, taken: Given, entries: seq<Constructed>,
          predeclared: set<string>, n: string)
    requires taken.Valid() && ValidBases(wirings, predeclared) && Emits(wirings, entries) && OneProducer(wirings, n)
    ensures ComesRightly(NameAll(wirings, taken, entries), taken, predeclared, n, Asked(entries, n))
  {
    if entries != [] {
      var before, e := entries[..|entries| - 1], entries[|entries| - 1];
      assert entries == before + [e];
      OneProducerComes(wirings, taken, before, predeclared, n);
      AskedNext(before, e, n);
      assert e in entries && ValidIn(wirings[e.wiring], predeclared);
      assert !(Asked(before, n) && e.base == n);
      OneMoreComes(wirings, NameAll(wirings, taken, before), taken, predeclared, e, n, Asked(before, n));
    }
  }

  // ---- How a reachable name is reached ----

  // With all lower numbers in use, the next value with the base name comes to the number.
  lemma {:induction false} NextIsTheNumber(g: Given, base: string, k: nat)
    requires g.Valid() && base in g.used && k >= 2 && k > g.Count(base) && Numbered(base, k) !in g.used
    requires forall j: nat | 2 <= j < k && j > g.Count(base) :: Numbered(base, j) in g.used
    ensures g.NameFor(base) == Numbered(base, k)
  {
    GivenNameIsNew(g, base);
    var n := g.NumberFor(base);
    assert n >= k;
    assert n <= k;
  }

  // Imports that take the lower numbers, but for those that no import may take.
  function Fillers(reserved: Given, base: string, k: nat): seq<Import> {
    if k <= 2 then []
    else if Numbered(base, k - 1) in reserved.used then Fillers(reserved, base, k - 1)
    else Fillers(reserved, base, k - 1) + [Component(0, Numbered(base, k - 1), Numbered(base, k - 1))]
  }

  ghost predicate Fills(reserved: Given, base: string, k: nat, name: string) {
    name !in reserved.used && exists j: nat :: 2 <= j < k && name == Numbered(base, j)
  }

  lemma {:induction false} NotFilled(reserved: Given, base: string, k: nat)
    ensures !Fills(reserved, base, k, Numbered(base, k))
  {
    NumbersTellApart(base);
    forall j: nat | 2 <= j < k
      ensures Numbered(base, j) != Numbered(base, k)
    {
      assert With(base)(j) == Numbered(base, j) && With(base)(k) == Numbered(base, k);
    }
  }

  ghost predicate Filled(s: Imported, reserved: Given, base: string, k: nat) {
    && (forall name :: name in s.aliases <==> Fills(reserved, base, k, name))
    && s.paths.Keys == s.aliases && s.renames == map[] && s.given.Valid() && s.given.used == reserved.used + s.aliases
  }

  lemma {:induction false} FillsNext(reserved: Given, base: string, k: nat, name: string)
    requires k >= 2
    ensures Fills(reserved, base, k + 1, name) <==>
      Fills(reserved, base, k, name) || (name == Numbered(base, k) && name !in reserved.used)
  {
  }

  lemma {:induction false} OneMoreFills(s: Imported, reserved: Given, base: string, k: nat)
    requires k >= 2 && Filled(s, reserved, base, k) && Numbered(base, k) !in reserved.used
    ensures Filled(ImportOne(s, Component(0, Numbered(base, k), Numbered(base, k))), reserved, base, k + 1)
  {
    var name := Numbered(base, k);
    NotFilled(reserved, base, k);
    GivenNameIsNew(s.given, name);
    forall x
      ensures Fills(reserved, base, k + 1, x) <==> x in s.aliases + {name}
    {
      FillsNext(reserved, base, k, x);
    }
  }

  lemma {:induction false} FillersFill(reserved: Given, base: string, k: nat)
    requires reserved.Valid() && k >= 2
    ensures Filled(ImportAll(reserved, Fillers(reserved, base, k)), reserved, base, k)
  {
    if k > 2 {
      FillersFill(reserved, base, k - 1);
      var name, before := Numbered(base, k - 1), Fillers(reserved, base, k - 1);
      if name in reserved.used {
        forall x
          ensures Fills(reserved, base, k, x) <==> Fills(reserved, base, k - 1, x)
        {
          FillsNext(reserved, base, k - 1, x);
        }
      } else {
        OneMoreFills(ImportAll(reserved, before), reserved, base, k - 1);
        assert (before + [Component(0, name, name)])[..|before|] == before;
      }
    }
  }

  // The least number with which a base name is reachable.
  ghost predicate Least(s: Setting, base: string, k: nat) {
    Reachable(s, base, k) && forall j: nat | j < k :: !Reachable(s, base, j)
  }

  lemma {:induction false} LeastReachable(s: Setting, base: string, k: nat) returns (least: nat)
    requires Reachable(s, base, k)
    ensures Least(s, base, least)
  {
    if j: nat :| j < k && Reachable(s, base, j) {
      least := LeastReachable(s, base, j);
    } else {
      least := k;
    }
  }

  // With these aliases the names that values start from lead the base name to its number, and no shorter name changes.
  ghost predicate AreFilled(s: Setting, base: string, k: nat, aliases: set<string>) {
    var g := Seeded(s.taken, aliases);
    && g.Valid() && Numbered(base, k) !in g.used
    && (forall j: nat | 2 <= j < k && j > g.Count(base) :: Numbered(base, j) in g.used)
    && (forall name | |name| <= |base| ::
          name !in aliases && g.Count(name) == s.taken.Count(name) && (name in g.used <==> name in s.taken.used))
  }

  // And the component of the last import renames the name with that number.
  ghost predicate Primed(s: Setting, base: string, k: nat, imported: Imported, wiring: nat, alias: string) {
    && RenamesOf(imported.renames, wiring) == map[Numbered(base, k) := alias]
    && |alias| > |Numbered(base, k)| && alias !in s.reserved.used
    && AreFilled(s, base, k, imported.aliases)
  }

  // The aliases of the fillers and of an import that asks for the number itself.
  function WitnessAliases(s: Setting, base: string, k: nat): set<string> {
    var filled := ImportAll(s.reserved, Fillers(s.reserved, base, k));
    filled.aliases + {filled.given.NameFor(Numbered(base, k))}
  }

  lemma {:induction false} ImportsPrime(s: Setting, base: string, k: nat, wiring: nat)
    returns (imports: seq<Import>, alias: string)
    requires s.Valid() && Least(s, base, k)
    ensures Primed(s, base, k, ImportAll(s.reserved, imports), wiring, alias)
    ensures ImportAll(s.reserved, imports).aliases == WitnessAliases(s, base, k)
  {
    var fillers, last := Fillers(s.reserved, base, k), Component(wiring, Numbered(base, k), Numbered(base, k));
    FillersFill(s.reserved, base, k);
    imports := fillers + [last];
    assert imports[..|imports| - 1] == fillers;
    assert ImportAll(s.reserved, imports) == ImportOne(ImportAll(s.reserved, fillers), last);
    alias := LastImportPrimes(s, base, k, ImportAll(s.reserved, fillers), wiring);
  }

  lemma {:induction false} LastImportPrimes(s: Setting, base: string, k: nat, filled: Imported, wiring: nat)
    returns (alias: string)
    requires s.Valid() && Least(s, base, k)
    requires Filled(filled, s.reserved, base, k)
    ensures var imported := ImportOne(filled, Component(wiring, Numbered(base, k), Numbered(base, k)));
      && Primed(s, base, k, imported, wiring, alias)
      && imported.aliases == filled.aliases + {filled.given.NameFor(Numbered(base, k))}
  {
    var v := Numbered(base, k);
    NotFilled(s.reserved, base, k);
    GivenNameIsNew(filled.given, v);
    alias := filled.given.NameFor(v);
    NumberedIsLonger(v, filled.given.NumberFor(v));
    NumberedIsLonger(base, k);
    var imported := ImportOne(filled, Component(wiring, v, v));
    var own: Renaming := map[v := alias];
    assert v in own && RenamesOf(map[], wiring) + own == own;
    assert v !in filled.aliases;
    assert imported == Take(filled, v, filled.paths[v := own]).(renames := map[wiring := own]);
    AliasesPrime(s, base, k, filled.aliases, alias);
  }

  lemma {:induction false} AliasesPrime(s: Setting, base: string, k: nat, fillers: set<string>, alias: string)
    requires s.Valid() && Least(s, base, k)
    requires |alias| > |Numbered(base, k)|
    requires forall name :: name in fillers <==> Fills(s.reserved, base, k, name)
    ensures AreFilled(s, base, k, fillers + {alias})
  {
    var g := Seeded(s.taken, fillers + {alias});
    NotFilled(s.reserved, base, k);
    NumberedIsLonger(base, k);
    SeededStaysValid(s.taken, fillers + {alias});
    forall name | name in fillers
      ensures |name| > |base|
    {
      var j: nat :| 2 <= j < k && name == Numbered(base, j);
      NumberedIsLonger(base, j);
    }
    forall j: nat | 2 <= j < k && j > g.Count(base)
      ensures Numbered(base, j) in g.used
    {
      assert !Reachable(s, base, j);
      assert Numbered(base, j) !in s.reserved.used ==> Fills(s.reserved, base, k, Numbered(base, j));
    }
  }

  // With the maps so far, the value with the base name is renamed twice.
  lemma {:induction false} IsRenamedTwice(s: Setting, p: Program, i: nat, declared: set<string>, base: string, k: nat,
          alias: string)
    requires Reachable(s, base, k) && i < |p.entries|
    requires Primed(s, base, k, ImportAll(s.reserved, p.imports), p.entries[i].wiring, alias)
    requires var g := Seeded(s.taken, ImportAll(s.reserved, p.imports).aliases);
      var values := NameAll(p.wirings, g, p.entries[..i]).values;
      base in values && values[base] == Numbered(base, k)
    ensures RenamedTwice(MapsFor(s, p, i, declared), base)
  {
    NumberedIsLonger(base, k);
    var imported := ImportAll(s.reserved, p.imports);
    assert base !in imported.aliases;
  }

  // ---- Any two components ----

  // Some other component has a constructor with the base name, and its value comes first.
  lemma {:induction false} TwoProducersReach(s: Setting, base: string, k: nat, declared: set<string>)
    returns (p: Program, i: nat)
    requires s.Valid() && Least(s, base, k)
    ensures AcceptedProgram(s, p) && i < |p.entries| && RenamedTwice(MapsFor(s, p, i, declared), base)
  {
    var one, two, three := Constructed(0, base), Constructed(1, base), Constructed(2, base);
    var entries := if base in s.taken.used then [one, two] else [two, one, three];
    i := |entries| - 1;
    var imports, alias := ImportsPrime(s, base, k, i);
    p := Program(imports, [[base], [base], [base]], entries);
    ThreeAreAccepted(s, p, base);
    var g := Seeded(s.taken, ImportAll(s.reserved, imports).aliases);
    NumberedIsLonger(base, k);
    SecondIsTheNumber(p.wirings, g, base, k, entries);
    IsRenamedTwice(s, p, i, declared, base, k, alias);
  }

  lemma {:induction false} ThreeAreAccepted(s: Setting, p: Program, base: string)
    requires base !in s.predeclared && p.wirings == [[base], [base], [base]]
    requires
      || p.entries == [Constructed(0, base), Constructed(1, base)]
      || p.entries == [Constructed(1, base), Constructed(0, base), Constructed(2, base)]
    ensures AcceptedProgram(s, p)
  {
    assert forall w | 0 <= w < 3 :: p.wirings[w] == [base];
    assert ValidIn([base], s.predeclared);
  }

  lemma {:induction false} SecondIsTheNumber(wirings: seq<seq<string>>, g: Given, base: string, k: nat,
          entries: seq<Constructed>)
    requires g.Valid() && k >= 2 && k > g.Count(base) && Numbered(base, k) !in g.used
    requires forall j: nat | 2 <= j < k && j > g.Count(base) :: Numbered(base, j) in g.used
    requires wirings == [[base], [base], [base]]
    requires entries == if base in g.used then [Constructed(0, base), Constructed(1, base)]
      else [Constructed(1, base), Constructed(0, base), Constructed(2, base)]
    ensures NameAll(wirings, g, entries[..|entries| - 1]).values == map[base := Numbered(base, k)]
  {
    NumberedIsLonger(base, k);
    assert entries[..0] == [];
    NameAllNext(wirings, g, entries, 0);
    if base in g.used {
      NextIsTheNumber(g, base, k);
    } else {
      assert g.Free(base);
      assert !Canonical(wirings, entries[0]) by { assert base in wirings[0]; }
      NextIsTheNumber(g.After(base), base, k);
      NameAllNext(wirings, g, entries, 1);
    }
  }

  // ---- One component ----

  // What asking for one base name so many times leads to.
  function Repeated(g: Given, base: string, n: nat): Given {
    if n == 0 then g else Repeated(g, base, n - 1).After(base)
  }

  // Asking for a base name leads to another name with a number, before any longer name is given.
  ghost predicate OnTheWay(now: Given, g: Given, base: string, k: nat) {
    var name := Numbered(base, k);
    && now.Valid() && g.used <= now.used && (forall x | |x| > |name| && x in now.used :: x in g.used)
    && (forall x | x != base :: now.Count(x) == g.Count(x))
    && (name in now.used || now.Count(base) < k)
  }

  lemma {:induction false} OneAsk(now: Given, g: Given, base: string, k: nat)
    requires OnTheWay(now, g, base, k) && Numbered(base, k) !in now.used && k >= 2
    ensures OnTheWay(now.After(base), g, base, k) && now.After(base).Count(base) > now.Count(base)
  {
    GivenNameIsNew(now, base);
    AskStaysShort(now, base, k);
    var next := now.After(base);
    assert forall x | x != base :: next.Count(x) == now.Count(x);
    assert next.used == now.used + {now.NameFor(base)};
  }

  lemma {:induction false} AskStaysShort(now: Given, base: string, k: nat)
    requires now.Valid() && k >= 2 && k > now.Count(base) && Numbered(base, k) !in now.used
    ensures |now.NameFor(base)| <= |Numbered(base, k)|
    ensures now.Count(base) < now.After(base).Count(base) <= k
    ensures now.After(base).Count(base) == k ==> Numbered(base, k) in now.After(base).used
  {
    GivenNameIsNew(now, base);
    NumberedIsLonger(base, k);
    if !now.Free(base) {
      var n := now.NumberFor(base);
      assert base in now.used;
      assert n <= k;
      DecimalGrows(n, k);
    }
  }

  lemma {:induction false} ComesUp(g: Given, base: string, k: nat) returns (n: nat)
    requires g.Valid() && k >= 2 && k > g.Count(base)
    ensures OnTheWay(Repeated(g, base, n), g, base, k) && Numbered(base, k) in Repeated(g, base, n).used
  {
    n := 0;
    while Numbered(base, k) !in Repeated(g, base, n).used
      invariant OnTheWay(Repeated(g, base, n), g, base, k)
      decreases k - Repeated(g, base, n).Count(base)
    {
      OneAsk(Repeated(g, base, n), g, base, k);
      n := n + 1;
    }
  }

  lemma {:induction false} RepeatedIsNamed(wirings: seq<seq<string>>, g: Given, entries: seq<Constructed>,
          base: string, n: nat)
    requires n <= |entries| && forall i | 0 <= i < n :: entries[i].base == base
    ensures NameAll(wirings, g, entries[..n]).given == Repeated(g, base, n)
  {
    if n > 0 {
      var i := n - 1;
      RepeatedIsNamed(wirings, g, entries, base, i);
      NameAllNext(wirings, g, entries, i);
      assert NameAll(wirings, g, entries[..i + 1]) == NameAll(wirings, g, entries[..n]);
    } else {
      assert entries[..0] == [];
    }
  }

  // So many components with one base name each, then the one with the base name, then one that imports.
  function InOrder(other: string, n: nat, base: string, last: string): (wirings: seq<seq<string>>)
    ensures |wirings| == n + 2
  {
    seq(n + 2, i => if i < n then [other] else if i == n then [base] else [last])
  }

  // The values in the order of the components.
  function InTheirOrder(wirings: seq<seq<string>>): seq<Constructed>
    requires forall w | 0 <= w < |wirings| :: wirings[w] != []
  {
    seq(|wirings|, i requires 0 <= i < |wirings| => Constructed(i, wirings[i][0]))
  }

  lemma {:induction false} InOrderIsAccepted(s: Setting, p: Program, other: string, n: nat, base: string, last: string)
    requires base !in s.predeclared && last !in s.predeclared && (n > 0 ==> other !in s.predeclared)
    requires base != last && base != other
    requires p.wirings == InOrder(other, n, base, last) && p.entries == InTheirOrder(p.wirings)
    ensures AcceptedProgram(s, p) && OneProducer(p.wirings, base)
  {
    forall w | 0 <= w < |p.wirings|
      ensures ValidIn(p.wirings[w], s.predeclared)
    {
    }
    forall e | e in p.entries
      ensures e.wiring < |p.wirings| && e.base in p.wirings[e.wiring]
    {
      var i :| 0 <= i < |p.entries| && p.entries[i] == e;
    }
  }

  // The names lead the base name to its number: it is in use, and so are the numbers below.
  ghost predicate IsNext(g: Given, base: string, k: nat) {
    && g.Valid() && base in g.used && k >= 2 && k > g.Count(base) && Numbered(base, k) !in g.used
    && forall j: nat | 2 <= j < k && j > g.Count(base) :: Numbered(base, j) in g.used
  }

  // How many values of another component's base name it takes.
  lemma {:induction false} ComesInUse(s: Setting, base: string, k: nat, aliases: set<string>)
    returns (other: string, n: nat)
    requires ReachableAlone(s, base, k) && AreFilled(s, base, k, aliases)
    ensures IsNext(Repeated(Seeded(s.taken, aliases), other, n), base, k)
    ensures other != base && (n > 0 ==> other !in s.predeclared)
  {
    var g := Seeded(s.taken, aliases);
    if base in s.taken.used {
      other, n := base + "s", 0;
    } else {
      var j: nat;
      other, j :| j >= 2 && j > s.taken.Count(other) && other !in s.predeclared && base == Numbered(other, j);
      NumberedIsLonger(other, j);
      n := ComesUp(g, other, j);
      NumberedIsLonger(base, k);
    }
  }

  // The value after them is the one that is renamed.
  lemma {:induction false} NamedNext(wirings: seq<seq<string>>, entries: seq<Constructed>, g: Given, other: string,
          n: nat, base: string, k: nat, last: string)
    requires wirings == InOrder(other, n, base, last) && entries == InTheirOrder(wirings)
    requires base != other && IsNext(Repeated(g, other, n), base, k)
    ensures var values := NameAll(wirings, g, entries[..n + 1]).values;
      base in values && values[base] == Numbered(base, k)
  {
    RepeatedIsNamed(wirings, g, entries, other, n);
    NameAllNext(wirings, g, entries, n);
    NextIsTheNumber(Repeated(g, other, n), base, k);
    NumberedIsLonger(base, k);
    assert entries[n] == Constructed(n, base);
    assert Canonical(wirings, entries[n]);
  }

  // Imports, another component's base name, and how many values it takes.
  datatype Way = Way(imports: seq<Import>, alias: string, other: string, n: nat) {
    ghost predicate Leads(s: Setting, base: string, k: nat) {
      && Primed(s, base, k, ImportAll(s.reserved, imports), n + 1, alias) && other != base && (n > 0 ==> other !in s.predeclared)
      && IsNext(Repeated(Start(s), other, n), base, k)
    }

    function Start(s: Setting): Given {
      Seeded(s.taken, ImportAll(s.reserved, imports).aliases)
    }

    function Wirings(base: string): seq<seq<string>> {
      InOrder(other, n, base, alias)
    }

    function Leading(base: string): Program {
      Program(imports, Wirings(base), InTheirOrder(Wirings(base)))
    }
  }

  lemma {:induction false} WayIn(s: Setting, base: string, k: nat) returns (way: Way)
    requires s.Valid() && Least(s, base, k) && ReachableAlone(s, base, k)
    ensures way.Leads(s, base, k)
  {
    var imports, alias := ImportsPrime(s, base, k, 0);
    var other, n := ComesInUse(s, base, k, ImportAll(s.reserved, imports).aliases);
    imports, alias := ImportsPrime(s, base, k, n + 1);
    way := Way(imports, alias, other, n);
  }

  lemma {:induction false} LeadingIsAccepted(s: Setting, base: string, k: nat, way: Way)
    requires s.Valid() && Reachable(s, base, k) && way.Leads(s, base, k)
    ensures AcceptedProgram(s, way.Leading(base)) && OneProducer(way.Wirings(base), base)
  {
    NumberedIsLonger(base, k);
    InOrderIsAccepted(s, way.Leading(base), way.other, way.n, base, way.alias);
  }

  lemma {:induction false} LeadingIsNamed(s: Setting, base: string, k: nat, way: Way)
    requires way.other != base && IsNext(Repeated(way.Start(s), way.other, way.n), base, k)
    ensures var values := NameAll(way.Wirings(base), way.Start(s), way.Leading(base).entries[..way.n + 1]).values;
      base in values && values[base] == Numbered(base, k)
  {
    var wirings := way.Wirings(base);
    NamedNext(wirings, InTheirOrder(wirings), way.Start(s), way.other, way.n, base, k, way.alias);
  }

  // The base name is taken, or other components' values come to it first. Its value is the only one with its base name.
  lemma {:induction false} OneProducerReaches(s: Setting, base: string, k: nat, declared: set<string>, way: Way)
    requires s.Valid() && Reachable(s, base, k) && way.Leads(s, base, k)
    ensures RenamesOneTwice(s, way.Leading(base), way.n + 1, declared, base)
  {
    LeadingIsAccepted(s, base, k, way);
    LeadingIsNamed(s, base, k, way);
    IsRenamedTwice(s, way.Leading(base), way.n + 1, declared, base, k, way.alias);
  }

  // ---- Exactly when ----

  // The maps of some value rename something twice.
  ghost predicate RenamesSomeTwice(s: Setting, p: Program, i: nat, declared: set<string>) {
    AcceptedProgram(s, p) && i < |p.entries| && !NeverTwice(MapsFor(s, p, i, declared))
  }

  // And what they rename twice is the value of one producer.
  ghost predicate RenamesOneTwice(s: Setting, p: Program, i: nat, declared: set<string>, n: string) {
    AcceptedProgram(s, p) && i < |p.entries| && OneProducer(p.wirings, n) && RenamedTwice(MapsFor(s, p, i, declared), n)
  }

  lemma {:induction false} TwiceIsSome(m: Maps)
    ensures NeverTwice(m) <==> forall n :: !RenamedTwice(m, n)
  {
    forall n
      ensures RenamedTwice(m, n) <==>
        Renames(m.values, n) && !IsPackage(m, n) && New(m.packages, m.values[n]) != m.values[n]
    {
    }
  }

  // The maps of the assembler rename nothing twice exactly when no name that imports may not take, but values may, is
  // a base name of some value with a number that the value can come to.
  lemma {:induction false} MapsRenameNothingTwice(s: Setting)
    requires s.Valid()
    ensures (forall p, i, declared :: !RenamesSomeTwice(s, p, i, declared)) <==> (forall base, k :: !Reachable(s, base, k))
  {
    forall p, i, declared | RenamesSomeTwice(s, p, i, declared)
      ensures exists base, k :: Reachable(s, base, k)
    {
      TwiceIsSome(MapsFor(s, p, i, declared));
      var n :| RenamedTwice(MapsFor(s, p, i, declared), n);
      var k := TwiceIsReachable(s, p, i, declared, n);
    }
    forall base, k | Reachable(s, base, k)
      ensures exists p, i, declared :: RenamesSomeTwice(s, p, i, declared)
    {
      var least := LeastReachable(s, base, k);
      var p, i := TwoProducersReach(s, base, least, {});
      TwiceIsSome(MapsFor(s, p, i, {}));
      assert RenamesSomeTwice(s, p, i, {});
    }
  }

  // An input that shows it: a component with a package internal/md5 beside crypto/md5, and five components with a value
  // md. Where the first of the five is the last to be emitted, its value becomes md5.
  lemma {:induction false} MdIsRenamedTwice(s: Setting)
    requires s.Valid() && "md5" in s.reserved.used && "md5" !in s.taken.used
    requires s.taken.Count("md") < 5 && "md" !in s.predeclared && "md" !in s.packages
    ensures exists p, i, declared :: RenamesSomeTwice(s, p, i, declared)
  {
    assert Decimal(5) == "5" && Numbered("md", 5) == "md5";
    assert Reachable(s, "md", 5);
    MapsRenameNothingTwice(s);
  }

  // References to a value with more than one producer are refused. The others are renamed twice by no maps of the
  // assembler exactly when there is no such name whose base name is taken, or is itself one that a value can come to.
  lemma {:induction false} ReferencesAreRenamedOnce(s: Setting)
    requires s.Valid()
    ensures (forall p, i, declared, n :: !RenamesOneTwice(s, p, i, declared, n))
      <==> (forall base, k :: !ReachableAlone(s, base, k))
  {
    forall p, i, declared, n | RenamesOneTwice(s, p, i, declared, n)
      ensures exists base, k :: ReachableAlone(s, base, k)
    {
      var k := TwiceIsReachableAlone(s, p, i, declared, n);
    }
    forall base, k | ReachableAlone(s, base, k)
      ensures exists p, i, declared, n :: RenamesOneTwice(s, p, i, declared, n)
    {
      var least := LeastReachable(s, base, k);
      var way := WayIn(s, base, least);
      OneProducerReaches(s, base, least, {}, way);
    }
  }

  lemma {:induction false} TwiceIsReachableAlone(s: Setting, p: Program, i: nat, declared: set<string>, n: string)
    returns (k: nat)
    requires s.Valid() && AcceptedProgram(s, p) && i < |p.entries| && OneProducer(p.wirings, n)
    requires RenamedTwice(MapsFor(s, p, i, declared), n)
    ensures ReachableAlone(s, n, k)
  {
    k := TwiceIsReachable(s, p, i, declared, n);
    var aliases := ImportAll(s.reserved, p.imports).aliases;
    var g := Seeded(s.taken, aliases);
    SeededStaysValid(s.taken, aliases);
    EmitsPrefix(p.wirings, p.entries, i);
    OneProducerComes(p.wirings, g, p.entries[..i], s.predeclared, n);
    if n !in s.taken.used {
      var base, j: nat :| j >= 2 && j > g.Count(base) && base !in s.predeclared && n == Numbered(base, j);
      assert j > s.taken.Count(base);
    }
  }

  lemma {:induction false} EmitsPrefix(wirings: seq<seq<string>>, entries: seq<Constructed>, i: nat)
    requires Emits(wirings, entries) && i <= |entries|
    ensures Emits(wirings, entries[..i])
  {
    forall e | e in entries[..i]
      ensures e in entries
    {
    }
  }

  // ---- What that means for the expressions ----

  // The names right before a dot that are not in a type or a closure.
  function Dotted(t: Tree): set<string>
    decreases t, 0
  {
    match t
    case Ident(_) => {}
    case Lit(_) => {}
    case Selector(x, _) => if x.Ident? then {x.id} else Dotted(x)
    case Composite(_, _, elements) => DottedAll(elements)
    case KeyValue(k, v) => Dotted(k) + Dotted(v)
    case TypeNode(_, _, _) => {}
    case FuncLit(_) => {}
    case Call(f, args) => Dotted(f) + DottedAll(args)
    case Other(_, parts) => DottedAll(parts)
  }

  function DottedAll(ts: seq<Tree>): set<string>
    decreases ts
  {
    if ts == [] then {} else Dotted(ts[0]) + DottedAll(ts[1..])
  }

  lemma {:induction false} NotTwiceIsDotted(m: Maps, t: Tree)
    ensures NotTwice(m, t) <==> forall n | n in Dotted(t) :: !RenamedTwice(m, n)
    decreases t, 0
  {
    match t
    case Ident(_) =>
    case Lit(_) =>
    case Selector(x, _) =>
      if x.Ident? {
        assert NotTwice(m, t) <==> !RenamedTwice(m, x.id);
        assert Dotted(t) == {x.id};
      } else {
        NotTwiceIsDotted(m, x);
      }
    case Composite(_, _, elements) => NotTwiceIsDottedAll(m, elements);
    case KeyValue(k, v) => NotTwiceIsDotted(m, k); NotTwiceIsDotted(m, v);
    case TypeNode(_, _, _) =>
    case FuncLit(_) =>
    case Call(f, args) => NotTwiceIsDotted(m, f); NotTwiceIsDottedAll(m, args);
    case Other(_, parts) => NotTwiceIsDottedAll(m, parts);
  }

  lemma {:induction false} NotTwiceIsDottedAll(m: Maps, ts: seq<Tree>)
    ensures NotTwiceAll(m, ts) <==> forall n | n in DottedAll(ts) :: !RenamedTwice(m, n)
    decreases ts
  {
    if ts != [] {
      NotTwiceIsDotted(m, ts[0]);
      NotTwiceIsDottedAll(m, ts[1..]);
    }
  }

  // The argument of a constructor call refers to no value that more than one component has, and is not refused.
  ghost predicate AcceptedArgument(s: Setting, p: Program, i: nat, declared: set<string>, t: Tree) {
    && AcceptedProgram(s, p) && i < |p.entries| && Accepted(MapsFor(s, p, i, declared), t)
    && forall n | n in Dotted(t) :: OneProducer(p.wirings, n) || IsPackage(MapsFor(s, p, i, declared), n)
  }

  ghost predicate RenamedWrongly(s: Setting, p: Program, i: nat, declared: set<string>, t: Tree) {
    AcceptedArgument(s, p, i, declared, t) && !RenamesRightly(MapsFor(s, p, i, declared), t)
  }

  // Every argument that the assembler accepts is renamed as intended, exactly when no name that imports may not take
  // and values may is one that the only value of its base name can come to.
  lemma {:induction false} ArgumentsAreRenamedRightly(s: Setting)
    requires s.Valid()
    ensures (forall p, i, declared, t :: !RenamedWrongly(s, p, i, declared, t)) <==> (forall base, k :: !ReachableAlone(s, base, k))
  {
    ReferencesAreRenamedOnce(s);
    forall p, i, declared, t | RenamedWrongly(s, p, i, declared, t)
      ensures exists n :: RenamesOneTwice(s, p, i, declared, n)
    {
      var m := MapsFor(s, p, i, declared);
      TwoPasses(m, t);
      NotTwiceIsDotted(m, t);
      var n :| n in Dotted(t) && RenamedTwice(m, n);
      assert RenamesOneTwice(s, p, i, declared, n);
    }
    forall p, i, declared, n | RenamesOneTwice(s, p, i, declared, n)
      ensures exists t :: RenamedWrongly(s, p, i, declared, t)
    {
      GetIsRenamedTwice(MapsFor(s, p, i, declared), n, "Get");
      var t := Selector(Ident(n), "Get");
      assert Dotted(t) == {n};
      assert RenamedWrongly(s, p, i, declared, t);
    }
  }

  // An input that shows it: a component with a package internal/base32 beside encoding/base32, three components with a
  // value base, and one with a value base3. The value base3 becomes base32, and base3.Get() becomes base322.Get().
  lemma {:induction false} Base3IsRenamedTwice(s: Setting)
    requires s.Valid() && "base32" in s.reserved.used && "base32" !in s.taken.used
    requires s.taken.Count("base") < 3 && s.taken.Count("base3") < 2
    requires "base" !in s.predeclared && "base3" !in s.predeclared && "base3" !in s.packages
    ensures exists p, i, declared, t :: RenamedWrongly(s, p, i, declared, t)
  {
    assert Decimal(3) == "3" && Decimal(2) == "2";
    assert Numbered("base", 3) == "base3" && Numbered("base3", 2) == "base32";
    assert ReachableAlone(s, "base3", 2);
    ArgumentsAreRenamedRightly(s);
  }
}
