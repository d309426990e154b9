// internal/compiler/constructor_references.go: what renaming in two passes makes of a call, and what the call means.
module ConstructorMeaning {
  import opened ConstructorSyntax
  import opened Literals
  import opened Wrappers

  type Tree = Node<string>

  // The new names of values and of packages, and the names of imports that keep their name.
  datatype Maps = Maps(values: map<string, string>, packages: map<string, string>, imports: set<string>, declared: set<string>)

  // A map renames a name when it gives one that is not empty.
  predicate Renames(m: map<string, string>, n: string) {
    n in m && m[n] != ""
  }

  function New(m: map<string, string>, n: string): string {
    if Renames(m, n) then m[n] else n
  }

  // A name before a dot that is a package, even where a value has the name too.
  predicate IsPackage(m: Maps, n: string) {
    n in m.imports || Renames(m.packages, n)
  }

  // ---- The two passes ----

  // The first pass, over an argument: values get their new names. Types, the names after a dot, packages before a
  // dot, and the keys of a literal of a written-out struct type are left alone.
  function PassOne(m: Maps, t: Tree): Tree
    decreases t, 0
  {
    match t
    case Ident(n) => Ident(New(m.values, n))
    case Lit(_) => t
    case Selector(x, sel) => Selector(if x.Ident? && IsPackage(m, x.id) then x else PassOne(m, x), sel)
    case Composite(typ, keys, elements) => Composite(typ, keys, PassOneElements(m, ExplicitStruct(typ), elements))
    case KeyValue(k, v) => KeyValue(PassOne(m, k), PassOne(m, v))
    case TypeNode(_, _, _) => t
    case FuncLit(parts) => FuncLit(PassOneAll(m, parts))
    case Call(f, args) => Call(PassOne(m, f), PassOneAll(m, args))
    case Other(op, parts) => Other(op, PassOneAll(m, parts))
  }

  function PassOneAll(m: Maps, ts: seq<Tree>): (r: seq<Tree>)
    ensures |r| == |ts|
    decreases ts
  {
    if ts == [] then [] else [PassOne(m, ts[0])] + PassOneAll(m, ts[1..])
  }

  function PassOneElements(m: Maps, explicitStruct: bool, ts: seq<Tree>): (r: seq<Tree>)
    ensures |r| == |ts|
    decreases ts
  {
    if ts == [] then [] else [PassOneElement(m, explicitStruct, ts[0])] + PassOneElements(m, explicitStruct, ts[1..])
  }

  function PassOneElement(m: Maps, explicitStruct: bool, t: Tree): Tree
    decreases t, 1
  {
    match t
    case KeyValue(k, v) => KeyValue(if k.Ident? && explicitStruct then k else PassOne(m, k), PassOne(m, v))
    case _ => PassOne(m, t)
  }

  // The second pass, over the whole call: the name right before a dot gets its new name as a package.
  function PassTwo(m: Maps, t: Tree): Tree
    decreases t, 0
  {
    match t
    case Ident(_) => t
    case Lit(_) => t
    case Selector(x, sel) => Selector(if x.Ident? then Ident(New(m.packages, x.id)) else PassTwo(m, x), sel)
    case Composite(typ, keys, elements) =>
      Composite(if typ.Some? then Some(PassTwo(m, typ.value)) else None, keys, PassTwoAll(m, elements))
    case KeyValue(k, v) => KeyValue(PassTwo(m, k), PassTwo(m, v))
    case TypeNode(kind, labels, parts) => TypeNode(kind, labels, PassTwoAll(m, parts))
    case FuncLit(parts) => FuncLit(PassTwoAll(m, parts))
    case Call(f, args) => Call(PassTwo(m, f), PassTwoAll(m, args))
    case Other(op, parts) => Other(op, PassTwoAll(m, parts))
  }

  function PassTwoAll(m: Maps, ts: seq<Tree>): (r: seq<Tree>)
    ensures |r| == |ts|
    decreases ts
  {
    if ts == [] then [] else [PassTwo(m, ts[0])] + PassTwoAll(m, ts[1..])
  }

  // ---- What makes a call ambiguous ----

  // A closure mentions a name that is renamed.
  ghost predicate ClosureMentions(m: Maps, t: Tree)
    decreases t, 0
  {
    match t
    case Ident(_) => false
    case Lit(_) => false
    case Selector(x, _) => ClosureMentions(m, x)
    case Composite(typ, _, elements) => (typ.Some? && ClosureMentions(m, typ.value)) || ClosureMentionsAny(m, elements)
    case KeyValue(k, v) => ClosureMentions(m, k) || ClosureMentions(m, v)
    case TypeNode(_, _, parts) => ClosureMentionsAny(m, parts)
    case FuncLit(parts) => exists n :: n in IdentsAll(parts) && (Renames(m.values, n) || Renames(m.packages, n))
    case Call(f, args) => ClosureMentions(m, f) || ClosureMentionsAny(m, args)
    case Other(_, parts) => ClosureMentionsAny(m, parts)
  }

  ghost predicate ClosureMentionsAny(m: Maps, ts: seq<Tree>)
    decreases ts
  {
    ts != [] && (ClosureMentions(m, ts[0]) || ClosureMentionsAny(m, ts[1..]))
  }

  // A key of a literal of a type that is neither a map nor a struct written out is a renamed value.
  ghost predicate KeyIsAmbiguous(m: Maps, explicit: bool, element: Tree) {
    !explicit && element.KeyValue? && element.key.Ident? && Renames(m.values, element.key.id)
  }

  ghost predicate AnyKeyIsAmbiguous(m: Maps, explicit: bool, elements: seq<Tree>) {
    elements != [] && (KeyIsAmbiguous(m, explicit, elements[0]) || AnyKeyIsAmbiguous(m, explicit, elements[1..]))
  }

  ghost predicate KeysAreAmbiguous(m: Maps, t: Tree)
    decreases t, 0
  {
    match t
    case Ident(_) => false
    case Lit(_) => false
    case Selector(x, _) => KeysAreAmbiguous(m, x)
    case Composite(typ, _, elements) =>
      || AnyKeyIsAmbiguous(m, Explicit(typ), elements)
      || (typ.Some? && KeysAreAmbiguous(m, typ.value))
      || AnyKeysAreAmbiguous(m, elements)
    case KeyValue(k, v) => KeysAreAmbiguous(m, k) || KeysAreAmbiguous(m, v)
    case TypeNode(_, _, parts) => AnyKeysAreAmbiguous(m, parts)
    case FuncLit(parts) => AnyKeysAreAmbiguous(m, parts)
    case Call(f, args) => KeysAreAmbiguous(m, f) || AnyKeysAreAmbiguous(m, args)
    case Other(_, parts) => AnyKeysAreAmbiguous(m, parts)
  }

  ghost predicate AnyKeysAreAmbiguous(m: Maps, ts: seq<Tree>)
    decreases ts
  {
    ts != [] && (KeysAreAmbiguous(m, ts[0]) || AnyKeysAreAmbiguous(m, ts[1..]))
  }

  // A name before a dot is a package, and a dependency of the constructor too.
  ghost predicate BaseIsAmbiguous(m: Maps, x: Tree) {
    x.Ident? && IsPackage(m, x.id) && Renames(m.values, x.id) && x.id in m.declared
  }

  ghost predicate BasesAreAmbiguous(m: Maps, t: Tree)
    decreases t, 0
  {
    match t
    case Ident(_) => false
    case Lit(_) => false
    case Selector(x, _) => BaseIsAmbiguous(m, x) || BasesAreAmbiguous(m, x)
    case Composite(typ, _, elements) => (typ.Some? && BasesAreAmbiguous(m, typ.value)) || AnyBasesAreAmbiguous(m, elements)
    case KeyValue(k, v) => BasesAreAmbiguous(m, k) || BasesAreAmbiguous(m, v)
    case TypeNode(_, _, parts) => AnyBasesAreAmbiguous(m, parts)
    case FuncLit(parts) => AnyBasesAreAmbiguous(m, parts)
    case Call(f, args) => BasesAreAmbiguous(m, f) || AnyBasesAreAmbiguous(m, args)
    case Other(_, parts) => AnyBasesAreAmbiguous(m, parts)
  }

  ghost predicate AnyBasesAreAmbiguous(m: Maps, ts: seq<Tree>)
    decreases ts
  {
    ts != [] && (BasesAreAmbiguous(m, ts[0]) || AnyBasesAreAmbiguous(m, ts[1..]))
  }

  // The argument is not refused.
  ghost predicate Accepted(m: Maps, t: Tree) {
    !ClosureMentions(m, t) && !KeysAreAmbiguous(m, t) && !BasesAreAmbiguous(m, t)
  }

  // ---- What the renaming is for ----

  // Each value reference gets its new name, and each package before a dot its own; nothing else changes.
  function Intended(m: Maps, t: Tree): Tree
    decreases t, 0
  {
    match t
    case Ident(n) => Ident(New(m.values, n))
    case Lit(_) => t
    case Selector(x, sel) =>
      Selector(if x.Ident? then Ident(if IsPackage(m, x.id) then New(m.packages, x.id) else New(m.values, x.id)) else Intended(m, x), sel)
    case Composite(typ, keys, elements) =>
      Composite(if typ.Some? then Some(PassTwo(m, typ.value)) else None, keys, IntendedElements(m, typ, elements))
    case KeyValue(k, v) => KeyValue(Intended(m, k), Intended(m, v))
    case TypeNode(_, _, _) => PassTwo(m, t)
    case FuncLit(_) => t
    case Call(f, args) => Call(Intended(m, f), IntendedAll(m, args))
    case Other(op, parts) => Other(op, IntendedAll(m, parts))
  }

  function IntendedAll(m: Maps, ts: seq<Tree>): (r: seq<Tree>)
    ensures |r| == |ts|
    decreases ts
  {
    if ts == [] then [] else [Intended(m, ts[0])] + IntendedAll(m, ts[1..])
  }

  // An identifier key is renamed only where the type, written out, says that it is a value.
  function IntendedElements(m: Maps, typ: Option<Tree>, ts: seq<Tree>): (r: seq<Tree>)
    ensures |r| == |ts|
    decreases ts
  {
    if ts == [] then [] else [IntendedElement(m, ExplicitMap(typ), ts[0])] + IntendedElements(m, typ, ts[1..])
  }

  function IntendedElement(m: Maps, explicitMap: bool, t: Tree): Tree
    decreases t, 1
  {
    match t
    case KeyValue(k, v) => KeyValue(if k.Ident? && !explicitMap then k else Intended(m, k), Intended(m, v))
    case _ => Intended(m, t)
  }

  // No value before a dot is renamed to a name that the second pass renames again.
  ghost predicate NotTwice(m: Maps, t: Tree)
    decreases t, 0
  {
    match t
    case Ident(_) => true
    case Lit(_) => true
    case Selector(x, _) =>
      if x.Ident? then IsPackage(m, x.id) || New(m.packages, New(m.values, x.id)) == New(m.values, x.id) else NotTwice(m, x)
    case Composite(_, _, elements) => NotTwiceAll(m, elements)
    case KeyValue(k, v) => NotTwice(m, k) && NotTwice(m, v)
    case TypeNode(_, _, _) => true
    case FuncLit(_) => true
    case Call(f, args) => NotTwice(m, f) && NotTwiceAll(m, args)
    case Other(_, parts) => NotTwiceAll(m, parts)
  }

  ghost predicate NotTwiceAll(m: Maps, ts: seq<Tree>)
    decreases ts
  {
    ts == [] || (NotTwice(m, ts[0]) && NotTwiceAll(m, ts[1..]))
  }

  // ---- A tree that mentions no renamed name ----

  ghost predicate Untouched(m: Maps, names: set<string>) {
    forall n | n in names :: !Renames(m.values, n) && !Renames(m.packages, n)
  }

  lemma {:induction false} PassesLeave(m: Maps, t: Tree)
    requires Untouched(m, Idents(t))
    ensures PassOne(m, t) == t && PassTwo(m, t) == t
    decreases t, 0
  {
    match t
    case Ident(_) =>
    case Lit(_) =>
    case Selector(x, _) => PassesLeave(m, x);
    case Composite(typ, _, elements) =>
      if typ.Some? { PassesLeave(m, typ.value); }
      PassesLeaveAll(m, elements);
      PassOneLeavesElements(m, ExplicitStruct(typ), elements);
    case KeyValue(k, v) => PassesLeave(m, k); PassesLeave(m, v);
    case TypeNode(_, _, parts) => PassesLeaveAll(m, parts);
    case FuncLit(parts) => PassesLeaveAll(m, parts);
    case Call(f, args) => PassesLeave(m, f); PassesLeaveAll(m, args);
    case Other(_, parts) => PassesLeaveAll(m, parts);
  }

  lemma {:induction false} PassesLeaveAll(m: Maps, ts: seq<Tree>)
    requires Untouched(m, IdentsAll(ts))
    ensures PassOneAll(m, ts) == ts && PassTwoAll(m, ts) == ts
    decreases ts
  {
    if ts != [] {
      PassesLeave(m, ts[0]);
      PassesLeaveAll(m, ts[1..]);
    }
  }

  lemma {:induction false} PassOneLeavesElements(m: Maps, explicitStruct: bool, ts: seq<Tree>)
    requires Untouched(m, IdentsAll(ts))
    ensures PassOneElements(m, explicitStruct, ts) == ts
    decreases ts
  {
    if ts != [] {
      assert Untouched(m, Idents(ts[0])) && Untouched(m, IdentsAll(ts[1..]));
      match ts[0] {
        case KeyValue(k, v) => PassesLeave(m, k); PassesLeave(m, v);
        case e => PassesLeave(m, e);
      }
      PassOneLeavesElements(m, explicitStruct, ts[1..]);
    }
  }

  // ---- The passes do what is intended exactly when nothing is renamed twice ----

  lemma {:induction false} TwoPasses(m: Maps, t: Tree)
    requires !ClosureMentions(m, t) && !KeysAreAmbiguous(m, t)
    ensures PassTwo(m, PassOne(m, t)) == Intended(m, t) <==> NotTwice(m, t)
    decreases t, 0
  {
    match t
    case Ident(_) =>
    case Lit(_) =>
    case Selector(x, _) => TwoPasses(m, x);
    case Composite(typ, _, elements) => TwoPassesElements(m, typ, elements);
    case KeyValue(k, v) => TwoPasses(m, k); TwoPasses(m, v);
    case TypeNode(_, _, _) =>
    case FuncLit(parts) => PassesLeaveAll(m, parts);
    case Call(f, args) => TwoPasses(m, f); TwoPassesAll(m, args);
    case Other(_, parts) => TwoPassesAll(m, parts);
  }

  lemma {:induction false} TwoPassesAll(m: Maps, ts: seq<Tree>)
    requires !ClosureMentionsAny(m, ts) && !AnyKeysAreAmbiguous(m, ts)
    ensures PassTwoAll(m, PassOneAll(m, ts)) == IntendedAll(m, ts) <==> NotTwiceAll(m, ts)
    decreases ts
  {
    if ts != [] {
      TwoPasses(m, ts[0]);
      TwoPassesAll(m, ts[1..]);
      SameHeadAndTail(PassTwoAll(m, PassOneAll(m, ts)), IntendedAll(m, ts));
      assert PassOneAll(m, ts)[1..] == PassOneAll(m, ts[1..]);
      assert PassTwoAll(m, PassOneAll(m, ts))[1..] == PassTwoAll(m, PassOneAll(m, ts[1..]));
      assert IntendedAll(m, ts)[1..] == IntendedAll(m, ts[1..]);
    }
  }

  lemma {:induction false} SameHeadAndTail<T>(a: seq<T>, b: seq<T>)
    requires a != [] && b != []
    ensures a == b <==> a[0] == b[0] && a[1..] == b[1..]
  {
    assert a == [a[0]] + a[1..] && b == [b[0]] + b[1..];
  }

  lemma {:induction false} TwoPassesElements(m: Maps, typ: Option<Tree>, ts: seq<Tree>)
    requires !ClosureMentionsAny(m, ts) && !AnyKeysAreAmbiguous(m, ts)
    requires !AnyKeyIsAmbiguous(m, Explicit(typ), ts)
    ensures PassTwoAll(m, PassOneElements(m, ExplicitStruct(typ), ts)) == IntendedElements(m, typ, ts) <==> NotTwiceAll(m, ts)
    decreases ts
  {
    if ts != [] {
      var one := PassOneElements(m, ExplicitStruct(typ), ts);
      TwoPassesElement(m, typ, ts[0]);
      TwoPassesElements(m, typ, ts[1..]);
      SameHeadAndTail(PassTwoAll(m, one), IntendedElements(m, typ, ts));
      assert one[1..] == PassOneElements(m, ExplicitStruct(typ), ts[1..]);
      assert PassTwoAll(m, one)[1..] == PassTwoAll(m, one[1..]);
      assert IntendedElements(m, typ, ts)[1..] == IntendedElements(m, typ, ts[1..]);
    }
  }

  lemma {:induction false} TwoPassesElement(m: Maps, typ: Option<Tree>, t: Tree)
    requires !ClosureMentions(m, t) && !KeysAreAmbiguous(m, t) && !KeyIsAmbiguous(m, Explicit(typ), t)
    ensures PassTwo(m, PassOneElement(m, ExplicitStruct(typ), t)) == IntendedElement(m, ExplicitMap(typ), t) <==> NotTwice(m, t)
    decreases t, 1
  {
    match t
    case KeyValue(k, v) =>
      TwoPasses(m, k);
      TwoPasses(m, v);
      var one := PassOneElement(m, ExplicitStruct(typ), t);
      assert PassTwo(m, one) == KeyValue(PassTwo(m, one.key), PassTwo(m, one.value));
    case _ => TwoPasses(m, t);
  }

  // No value can be renamed twice, whatever the call.
  ghost predicate NeverTwice(m: Maps) {
    forall n | Renames(m.values, n) && !IsPackage(m, n) :: New(m.packages, m.values[n]) == m.values[n]
  }

  lemma {:induction false} NeverTwiceHolds(m: Maps, t: Tree)
    requires NeverTwice(m)
    ensures NotTwice(m, t)
    decreases t, 0
  {
    match t
    case Ident(_) =>
    case Lit(_) =>
    case Selector(x, _) => if !x.Ident? { NeverTwiceHolds(m, x); }
    case Composite(_, _, elements) => NeverTwiceHoldsAll(m, elements);
    case KeyValue(k, v) => NeverTwiceHolds(m, k); NeverTwiceHolds(m, v);
    case TypeNode(_, _, _) =>
    case FuncLit(_) =>
    case Call(f, args) => NeverTwiceHolds(m, f); NeverTwiceHoldsAll(m, args);
    case Other(_, parts) => NeverTwiceHoldsAll(m, parts);
  }

  lemma {:induction false} NeverTwiceHoldsAll(m: Maps, ts: seq<Tree>)
    requires NeverTwice(m)
    ensures NotTwiceAll(m, ts)
    decreases ts
  {
    if ts != [] {
      NeverTwiceHolds(m, ts[0]);
      NeverTwiceHoldsAll(m, ts[1..]);
    }
  }

  ghost predicate RenamesRightly(m: Maps, t: Tree) {
    PassTwo(m, PassOne(m, t)) == Intended(m, t)
  }

  // The exact side condition on the two maps: every argument that is not refused is renamed as intended if and only
  // if no value that is no package gets a name that is itself a package to be renamed.
  lemma {:induction false} SafeMaps(m: Maps)
    ensures NeverTwice(m) <==> forall t | Accepted(m, t) :: RenamesRightly(m, t)
  {
    forall t | NeverTwice(m) && Accepted(m, t)
      ensures RenamesRightly(m, t)
    {
      NeverTwiceHolds(m, t);
      TwoPasses(m, t);
    }
    forall n | Renames(m.values, n) && !IsPackage(m, n) && New(m.packages, m.values[n]) != m.values[n]
      ensures exists t :: Accepted(m, t) && !RenamesRightly(m, t)
    {
      GetIsRenamedTwice(m, n, "Get");
    }
  }

  // A method of a value whose new name is a package to be renamed: the result names the package's new name.
  lemma {:induction false} GetIsRenamedTwice(m: Maps, n: string, sel: string)
    requires Renames(m.values, n) && !IsPackage(m, n) && New(m.packages, m.values[n]) != m.values[n]
    ensures Accepted(m, Selector(Ident(n), sel)) && !RenamesRightly(m, Selector(Ident(n), sel))
    ensures PassTwo(m, PassOne(m, Selector(Ident(n), sel))) == Selector(Ident(m.packages[m.values[n]]), sel)
  {
    var x: Tree := Ident(n);
    assert PassOne(m, x) == Ident(m.values[n]);
    assert PassOne(m, Selector(x, sel)) == Selector(Ident(m.values[n]), sel);
    assert Intended(m, Selector(x, sel)) == Selector(Ident(m.values[n]), sel);
  }

  // ---- Meaning ----

  datatype Slot<D> = Field(name: string, value: D) | Entry(key: D, value: D) | Item(value: D)

  // The meaning of each construct, whatever it is: a value, or what a computation does.
  datatype Language<!D, !P> = Language(
    lit: string -> D,
    select: (D, string) -> D,
    member: (P, string) -> D,
    composite: (Option<D>, seq<Slot<D>>) -> D,
    pair: (D, D) -> D,
    typed: (TypeKind, seq<string>, seq<D>) -> D,
    closure: (Tree, map<string, D>, map<string, Option<P>>) -> D,
    call: (D, seq<D>) -> D,
    other: (string, seq<D>) -> D)

  // What names stand for: values, types, and whether a name before a dot is a package.
  datatype Env<!D, !P> = Env(values: string -> D, types: string -> D, packages: string -> Option<P>)

  // In a type every name is read as a type.
  function InType<D, P>(env: Env<D, P>): Env<D, P> {
    env.(values := env.types)
  }

  function KeysOf(typ: Option<Tree>, keys: Keys): Keys {
    if ExplicitMap(typ) then Entries else if ExplicitStruct(typ) then Fields else keys
  }

  function Eval<D, P>(w: Language<D, P>, env: Env<D, P>, t: Tree): D
    decreases t, 0
  {
    match t
    case Ident(n) => env.values(n)
    case Lit(text) => w.lit(text)
    case Selector(x, sel) =>
      if x.Ident? && env.packages(x.id).Some? then w.member(env.packages(x.id).value, sel) else w.select(Eval(w, env, x), sel)
    case Composite(typ, keys, elements) =>
      w.composite(if typ.Some? then Some(Eval(w, InType(env), typ.value)) else None, EvalElements(w, env, KeysOf(typ, keys), elements))
    case KeyValue(k, v) => w.pair(Eval(w, env, k), Eval(w, env, v))
    case TypeNode(kind, labels, parts) => w.typed(kind, labels, EvalAll(w, InType(env), parts))
    case FuncLit(parts) =>
      w.closure(t, map n | n in IdentsAll(parts) :: env.values(n), map n | n in IdentsAll(parts) :: env.packages(n))
    case Call(f, args) => w.call(Eval(w, env, f), EvalAll(w, env, args))
    case Other(op, parts) => w.other(op, EvalAll(w, env, parts))
  }

  function EvalAll<D, P>(w: Language<D, P>, env: Env<D, P>, ts: seq<Tree>): seq<D>
    decreases ts
  {
    if ts == [] then [] else [Eval(w, env, ts[0])] + EvalAll(w, env, ts[1..])
  }

  function EvalElements<D, P>(w: Language<D, P>, env: Env<D, P>, keys: Keys, ts: seq<Tree>): seq<Slot<D>>
    decreases ts
  {
    if ts == [] then [] else [EvalElement(w, env, keys, ts[0])] + EvalElements(w, env, keys, ts[1..])
  }

  function EvalElement<D, P>(w: Language<D, P>, env: Env<D, P>, keys: Keys, t: Tree): Slot<D>
    decreases t, 1
  {
    match t
    case KeyValue(k, v) =>
      if k.Ident? && keys.Fields? then Field(k.id, Eval(w, env, v)) else Entry(Eval(w, env, k), Eval(w, env, v))
    case _ => Item(Eval(w, env, t))
  }

  // Each name of a tree where no value is renamed (a type, or the function that is called) stands in the renamed
  // program for what it stood for before.
  ghost predicate FitsPlain<D(!new), P(!new)>(m: Maps, was: Env<D, P>, env: Env<D, P>, t: Tree)
    decreases t, 0
  {
    match t
    case Ident(n) => env.values(n) == was.values(n)
    case Lit(_) => true
    case Selector(x, _) =>
      if x.Ident? then
        && (was.packages(x.id).Some? <==> IsPackage(m, x.id))
        && env.packages(New(m.packages, x.id)) == was.packages(x.id)
        && (!IsPackage(m, x.id) ==> env.values(x.id) == was.values(x.id))
      else FitsPlain(m, was, env, x)
    case Composite(typ, keys, elements) =>
      && (typ.Some? ==> FitsPlain(m, InType(was), InType(env), typ.value))
      && FitsPlainElements(m, was, env, KeysOf(typ, keys), elements)
    case KeyValue(k, v) => FitsPlain(m, was, env, k) && FitsPlain(m, was, env, v)
    case TypeNode(_, _, parts) => FitsPlainAll(m, InType(was), InType(env), parts)
    case FuncLit(parts) => forall n | n in IdentsAll(parts) :: env.values(n) == was.values(n) && env.packages(n) == was.packages(n)
    case Call(f, args) => FitsPlain(m, was, env, f) && FitsPlainAll(m, was, env, args)
    case Other(_, parts) => FitsPlainAll(m, was, env, parts)
  }

  ghost predicate FitsPlainAll<D(!new), P(!new)>(m: Maps, was: Env<D, P>, env: Env<D, P>, ts: seq<Tree>)
    decreases ts
  {
    ts == [] || (FitsPlain(m, was, env, ts[0]) && FitsPlainAll(m, was, env, ts[1..]))
  }

  ghost predicate FitsPlainElements<D(!new), P(!new)>(m: Maps, was: Env<D, P>, env: Env<D, P>, keys: Keys,
          ts: seq<Tree>)
    decreases ts
  {
    ts == [] || (FitsPlainElement(m, was, env, keys, ts[0]) && FitsPlainElements(m, was, env, keys, ts[1..]))
  }

  // A field name needs to stand for nothing.
  ghost predicate FitsPlainElement<D(!new), P(!new)>(m: Maps, was: Env<D, P>, env: Env<D, P>, keys: Keys, t: Tree)
    decreases t, 1
  {
    match t
    case KeyValue(k, v) => ((k.Ident? && keys.Fields?) || FitsPlain(m, was, env, k)) && FitsPlain(m, was, env, v)
    case _ => FitsPlain(m, was, env, t)
  }

  // Each name of an argument stands in the renamed program, under its new name, for what it stood for before; a
  // renamed value before a dot is no package there.
  ghost predicate Fits<D(!new), P(!new)>(m: Maps, was: Env<D, P>, env: Env<D, P>, t: Tree)
    decreases t, 0
  {
    match t
    case Ident(n) => env.values(New(m.values, n)) == was.values(n)
    case Lit(_) => true
    case Selector(x, _) =>
      if x.Ident? then
        && (was.packages(x.id).Some? <==> IsPackage(m, x.id))
        && (if IsPackage(m, x.id) then env.packages(New(m.packages, x.id)) == was.packages(x.id)
            else env.packages(New(m.values, x.id)) == None && env.values(New(m.values, x.id)) == was.values(x.id))
      else Fits(m, was, env, x)
    case Composite(typ, keys, elements) =>
      && (typ.Some? ==> FitsPlain(m, InType(was), InType(env), typ.value))
      && FitsElements(m, was, env, KeysOf(typ, keys), elements)
    case KeyValue(k, v) => Fits(m, was, env, k) && Fits(m, was, env, v)
    case TypeNode(_, _, parts) => FitsPlainAll(m, InType(was), InType(env), parts)
    case FuncLit(parts) => forall n | n in IdentsAll(parts) :: env.values(n) == was.values(n) && env.packages(n) == was.packages(n)
    case Call(f, args) => Fits(m, was, env, f) && FitsAll(m, was, env, args)
    case Other(_, parts) => FitsAll(m, was, env, parts)
  }

  ghost predicate FitsAll<D(!new), P(!new)>(m: Maps, was: Env<D, P>, env: Env<D, P>, ts: seq<Tree>)
    decreases ts
  {
    ts == [] || (Fits(m, was, env, ts[0]) && FitsAll(m, was, env, ts[1..]))
  }

  ghost predicate FitsElements<D(!new), P(!new)>(m: Maps, was: Env<D, P>, env: Env<D, P>, keys: Keys, ts: seq<Tree>)
    decreases ts
  {
    ts == [] || (FitsElement(m, was, env, keys, ts[0]) && FitsElements(m, was, env, keys, ts[1..]))
  }

  ghost predicate FitsElement<D(!new), P(!new)>(m: Maps, was: Env<D, P>, env: Env<D, P>, keys: Keys, t: Tree)
    decreases t, 1
  {
    match t
    case KeyValue(k, v) => ((k.Ident? && keys.Fields?) || Fits(m, was, env, k)) && Fits(m, was, env, v)
    case _ => Fits(m, was, env, t)
  }

  lemma {:induction false} PlainMeaning<D(!new), P(!new)>(w: Language<D, P>, m: Maps, was: Env<D, P>, env: Env<D, P>,
          t: Tree)
    requires FitsPlain(m, was, env, t) && !ClosureMentions(m, t)
    ensures Eval(w, env, PassTwo(m, t)) == Eval(w, was, t)
    decreases t, 0
  {
    match t
    case Ident(_) =>
    case Lit(_) =>
    case Selector(x, _) => if !x.Ident? { PlainMeaning(w, m, was, env, x); }
    case Composite(typ, keys, elements) =>
      if typ.Some? { PlainMeaning(w, m, InType(was), InType(env), typ.value); }
      PlainElements(w, m, was, env, KeysOf(typ, keys), elements);
    case KeyValue(k, v) => PlainMeaning(w, m, was, env, k); PlainMeaning(w, m, was, env, v);
    case TypeNode(_, _, parts) => PlainMeanings(w, m, InType(was), InType(env), parts);
    case FuncLit(parts) =>
      PassesLeaveAll(m, parts);
      SameCapture(was, env, IdentsAll(parts));
    case Call(f, args) => PlainMeaning(w, m, was, env, f); PlainMeanings(w, m, was, env, args);
    case Other(_, parts) => PlainMeanings(w, m, was, env, parts);
  }

  lemma {:induction false} SameCapture<D(!new), P(!new)>(was: Env<D, P>, env: Env<D, P>, names: set<string>)
    requires forall n | n in names :: env.values(n) == was.values(n) && env.packages(n) == was.packages(n)
    ensures (map n | n in names :: env.values(n)) == (map n | n in names :: was.values(n))
    ensures (map n | n in names :: env.packages(n)) == (map n | n in names :: was.packages(n))
  {
  }

  lemma {:induction false} PlainMeanings<D(!new), P(!new)>(w: Language<D, P>, m: Maps, was: Env<D, P>, env: Env<D, P>,
          ts: seq<Tree>)
    requires FitsPlainAll(m, was, env, ts) && !ClosureMentionsAny(m, ts)
    ensures EvalAll(w, env, PassTwoAll(m, ts)) == EvalAll(w, was, ts)
    decreases ts
  {
    if ts != [] {
      PlainMeaning(w, m, was, env, ts[0]);
      PlainMeanings(w, m, was, env, ts[1..]);
      assert PassTwoAll(m, ts)[1..] == PassTwoAll(m, ts[1..]);
    }
  }

  lemma {:induction false} PlainElements<D(!new), P(!new)>(w: Language<D, P>, m: Maps, was: Env<D, P>, env: Env<D, P>,
          keys: Keys, ts: seq<Tree>)
    requires FitsPlainElements(m, was, env, keys, ts) && !ClosureMentionsAny(m, ts)
    ensures EvalElements(w, env, keys, PassTwoAll(m, ts)) == EvalElements(w, was, keys, ts)
    decreases ts
  {
    if ts != [] {
      PlainElement(w, m, was, env, keys, ts[0]);
      PlainElements(w, m, was, env, keys, ts[1..]);
      assert PassTwoAll(m, ts)[1..] == PassTwoAll(m, ts[1..]);
    }
  }

  lemma {:induction false} PlainElement<D(!new), P(!new)>(w: Language<D, P>, m: Maps, was: Env<D, P>, env: Env<D, P>,
          keys: Keys, t: Tree)
    requires FitsPlainElement(m, was, env, keys, t) && !ClosureMentions(m, t)
    ensures EvalElement(w, env, keys, PassTwo(m, t)) == EvalElement(w, was, keys, t)
    decreases t, 1
  {
    match t
    case KeyValue(k, v) =>
      if !k.Ident? || !keys.Fields? { PlainMeaning(w, m, was, env, k); }
      PlainMeaning(w, m, was, env, v);
      assert PassTwo(m, t) == KeyValue(PassTwo(m, k), PassTwo(m, v));
    case _ => PlainMeaning(w, m, was, env, t);
  }

  // What is intended keeps the meaning.
  lemma {:induction false} Meaning<D(!new), P(!new)>(w: Language<D, P>, m: Maps, was: Env<D, P>, env: Env<D, P>,
          t: Tree)
    requires Fits(m, was, env, t) && !ClosureMentions(m, t) && !KeysAreAmbiguous(m, t)
    ensures Eval(w, env, Intended(m, t)) == Eval(w, was, t)
    decreases t, 0
  {
    match t
    case Ident(_) =>
    case Lit(_) =>
    case Selector(x, _) => if !x.Ident? { Meaning(w, m, was, env, x); }
    case Composite(typ, keys, elements) =>
      if typ.Some? { PlainMeaning(w, m, InType(was), InType(env), typ.value); }
      MeaningElements(w, m, was, env, typ, keys, elements);
    case KeyValue(k, v) => Meaning(w, m, was, env, k); Meaning(w, m, was, env, v);
    case TypeNode(_, _, parts) => PlainMeanings(w, m, InType(was), InType(env), parts);
    case FuncLit(parts) => SameCapture(was, env, IdentsAll(parts));
    case Call(f, args) => Meaning(w, m, was, env, f); Meanings(w, m, was, env, args);
    case Other(_, parts) => Meanings(w, m, was, env, parts);
  }

  lemma {:induction false} Meanings<D(!new), P(!new)>(w: Language<D, P>, m: Maps, was: Env<D, P>, env: Env<D, P>,
          ts: seq<Tree>)
    requires FitsAll(m, was, env, ts) && !ClosureMentionsAny(m, ts) && !AnyKeysAreAmbiguous(m, ts)
    ensures EvalAll(w, env, IntendedAll(m, ts)) == EvalAll(w, was, ts)
    decreases ts
  {
    if ts != [] {
      Meaning(w, m, was, env, ts[0]);
      Meanings(w, m, was, env, ts[1..]);
      assert IntendedAll(m, ts)[1..] == IntendedAll(m, ts[1..]);
    }
  }

  lemma {:induction false} MeaningElements<D(!new), P(!new)>(w: Language<D, P>, m: Maps, was: Env<D, P>,
          env: Env<D, P>, typ: Option<Tree>, keys: Keys, ts: seq<Tree>)
    requires FitsElements(m, was, env, KeysOf(typ, keys), ts) && !ClosureMentionsAny(m, ts) && !AnyKeysAreAmbiguous(m, ts)
    requires !AnyKeyIsAmbiguous(m, Explicit(typ), ts)
    ensures EvalElements(w, env, KeysOf(typ, keys), IntendedElements(m, typ, ts)) == EvalElements(w, was, KeysOf(typ, keys), ts)
    decreases ts
  {
    if ts != [] {
      MeaningElement(w, m, was, env, typ, keys, ts[0]);
      MeaningElements(w, m, was, env, typ, keys, ts[1..]);
      assert IntendedElements(m, typ, ts)[1..] == IntendedElements(m, typ, ts[1..]);
    }
  }

  lemma {:induction false} MeaningElement<D(!new), P(!new)>(w: Language<D, P>, m: Maps, was: Env<D, P>, env: Env<D, P>,
          typ: Option<Tree>, keys: Keys, t: Tree)
    requires FitsElement(m, was, env, KeysOf(typ, keys), t) && !ClosureMentions(m, t) && !KeysAreAmbiguous(m, t)
    requires !KeyIsAmbiguous(m, Explicit(typ), t)
    ensures EvalElement(w, env, KeysOf(typ, keys), IntendedElement(m, ExplicitMap(typ), t)) == EvalElement(w, was, KeysOf(typ, keys), t)
    decreases t, 1
  {
    match t
    case KeyValue(k, v) =>
      if !k.Ident? || !KeysOf(typ, keys).Fields? { Meaning(w, m, was, env, k); }
      Meaning(w, m, was, env, v);
    case _ => Meaning(w, m, was, env, t);
  }

  // ---- The whole call ----

  // The call is refused: a closure mentions a renamed name, or a key or a package in an argument is ambiguous.
  ghost predicate Refused(m: Maps, call: Tree)
    requires call.Call?
  {
    ClosureMentions(m, call) || exists k :: 0 <= k < |call.args| && ArgumentRefused(m, call.args[k])
  }

  ghost predicate ArgumentRefused(m: Maps, t: Tree) {
    KeysAreAmbiguous(m, t) || BasesAreAmbiguous(m, t)
  }

  // What the passes make of a call: the first goes over the arguments alone, the second over the whole call.
  function TwoPassesOf(m: Maps, call: Tree): Tree {
    match call
    case Call(f, args) => PassTwo(m, Call(f, PassOneAll(m, args)))
    case _ => call
  }

  lemma {:induction false} NoArgumentRefused(m: Maps, ts: seq<Tree>)
    requires forall k | 0 <= k < |ts| :: !ArgumentRefused(m, ts[k])
    ensures !AnyKeysAreAmbiguous(m, ts)
    decreases ts
  {
    if ts != [] {
      assert !ArgumentRefused(m, ts[0]);
      forall k | 0 <= k < |ts[1..]|
        ensures !ArgumentRefused(m, ts[1..][k])
      {
        assert ts[1..][k] == ts[k + 1];
      }
      NoArgumentRefused(m, ts[1..]);
    }
  }

  // A call that is not refused means in the renamed program what it meant before. The function that is called is
  // read where no constructor value is in scope; only the arguments refer to those.
  lemma {:induction false} RenamingKeepsMeaning<D(!new), P(!new)>(w: Language<D, P>, m: Maps, outer: Env<D, P>,
          was: Env<D, P>, env: Env<D, P>, call: Tree)
    requires call.Call? && !Refused(m, call) && NotTwiceAll(m, call.args)
    requires FitsPlain(m, outer, env, call.fun) && FitsAll(m, was, env, call.args)
    ensures Eval(w, env, TwoPassesOf(m, call)) == w.call(Eval(w, outer, call.fun), EvalAll(w, was, call.args))
  {
    NoArgumentRefused(m, call.args);
    TwoPassesAll(m, call.args);
    PlainMeaning(w, m, outer, env, call.fun);
    Meanings(w, m, was, env, call.args);
  }

  // Where a value is renamed twice, a method of the value becomes a member of a package.
  lemma {:induction false} TwiceChangesMeaning<D(!new), P(!new)>(w: Language<D, P>, m: Maps, was: Env<D, P>,
          env: Env<D, P>, n: string, sel: string)
    requires Renames(m.values, n) && !IsPackage(m, n) && New(m.packages, m.values[n]) != m.values[n]
    requires was.packages(n) == None && env.packages(m.packages[m.values[n]]).Some?
    ensures Eval(w, was, Selector(Ident(n), sel)) == w.select(was.values(n), sel)
    ensures Eval(w, env, PassTwo(m, PassOne(m, Selector(Ident(n), sel)))) == w.member(env.packages(m.packages[m.values[n]]).value, sel)
  {
    GetIsRenamedTwice(m, n, sel);
  }
}
