// internal/compiler/constructor_references.go: renaming the references of a constructor call in place.
module ConstructorReferences {
  import opened ConstructorMeaning
  import opened ConstructorSyntax
  import opened Literals
  import opened Wrappers

  // An identifier of a syntax tree, which the passes rename in place.
  class Name {
    var name: string
  }

  type Syntax = Node<Name>

  // The names that identifiers have at one moment.
  type Names = map<Name, string>

  ghost predicate Knows(g: Names, ids: set<Name>)
    reads ids
  {
    forall id | id in ids :: id in g && id.name == g[id]
  }

  // The tree with the names for its identifiers.
  function TreeWith(node: Syntax, g: Names): Tree
    requires Idents(node) <= g.Keys
    decreases node
  {
    match node
    case Ident(id) => Ident(g[id])
    case Lit(text) => Lit(text)
    case Selector(x, sel) => Selector(TreeWith(x, g), g[sel])
    case Composite(typ, keys, elements) =>
      Composite(if typ.Some? then Some(TreeWith(typ.value, g)) else None, keys, TreesWith(elements, g))
    case KeyValue(k, v) => KeyValue(TreeWith(k, g), TreeWith(v, g))
    case TypeNode(kind, labels, parts) => TypeNode(kind, LabelsWith(labels, g), TreesWith(parts, g))
    case FuncLit(parts) => FuncLit(TreesWith(parts, g))
    case Call(f, args) => Call(TreeWith(f, g), TreesWith(args, g))
    case Other(op, parts) => Other(op, TreesWith(parts, g))
  }

  function LabelsWith(labels: seq<Name>, g: Names): seq<string>
    requires SetOf(labels) <= g.Keys
  {
    seq(|labels|, i requires 0 <= i < |labels| => assert labels[i] in SetOf(labels); g[labels[i]])
  }

  function TreesWith(nodes: seq<Syntax>, g: Names): (r: seq<Tree>)
    requires IdentsAll(nodes) <= g.Keys
    ensures |r| == |nodes|
    decreases nodes
  {
    if nodes == [] then [] else [TreeWith(nodes[0], g)] + TreesWith(nodes[1..], g)
  }

  lemma {:induction false} TreesAt(nodes: seq<Syntax>, g: Names, i: nat)
    requires IdentsAll(nodes) <= g.Keys && i < |nodes|
    ensures Idents(nodes[i]) <= IdentsAll(nodes) && TreesWith(nodes, g)[i] == TreeWith(nodes[i], g)
    decreases i
  {
    if i > 0 { TreesAt(nodes[1..], g, i - 1); }
  }

  // Only the names of its own identifiers matter for a tree.
  lemma {:induction false} SameNames(node: Syntax, g: Names, h: Names)
    requires Idents(node) <= g.Keys && Idents(node) <= h.Keys
    requires forall id | id in Idents(node) :: g[id] == h[id]
    ensures TreeWith(node, g) == TreeWith(node, h)
    decreases node
  {
    match node
    case Ident(_) =>
    case Lit(_) =>
    case Selector(x, _) => SameNames(x, g, h);
    case Composite(typ, _, elements) =>
      if typ.Some? { SameNames(typ.value, g, h); }
      SameNamesAll(elements, g, h);
    case KeyValue(k, v) => SameNames(k, g, h); SameNames(v, g, h);
    case TypeNode(_, labels, parts) => SameNamesAll(parts, g, h); SameLabels(labels, g, h);
    case FuncLit(parts) => SameNamesAll(parts, g, h);
    case Call(f, args) => SameNames(f, g, h); SameNamesAll(args, g, h);
    case Other(_, parts) => SameNamesAll(parts, g, h);
  }

  lemma {:induction false} SameLabels(labels: seq<Name>, g: Names, h: Names)
    requires SetOf(labels) <= g.Keys && SetOf(labels) <= h.Keys
    requires forall id | id in SetOf(labels) :: g[id] == h[id]
    ensures LabelsWith(labels, g) == LabelsWith(labels, h)
  {
    forall i | 0 <= i < |labels|
      ensures LabelsWith(labels, g)[i] == LabelsWith(labels, h)[i]
    {
      assert labels[i] in SetOf(labels);
    }
  }

  lemma {:induction false} SameNamesAll(nodes: seq<Syntax>, g: Names, h: Names)
    requires IdentsAll(nodes) <= g.Keys && IdentsAll(nodes) <= h.Keys
    requires forall id | id in IdentsAll(nodes) :: g[id] == h[id]
    ensures TreesWith(nodes, g) == TreesWith(nodes, h)
    decreases nodes
  {
    if nodes != [] {
      SameNames(nodes[0], g, h);
      SameNamesAll(nodes[1..], g, h);
    }
  }

  // ---- Which identifiers of an argument are not values ----

  // Types, and the keys of a literal of a written-out struct type.
  function Typed(node: Syntax): set<Name>
    decreases node
  {
    match node
    case Ident(_) => {}
    case Lit(_) => {}
    case Selector(x, _) => Typed(x)
    case Composite(typ, _, elements) =>
      (if typ.Some? then Idents(typ.value) else {}) + (if ExplicitStruct(typ) then KeyIdents(elements) else {}) + TypedAll(elements)
    case KeyValue(k, v) => Typed(k) + Typed(v)
    case TypeNode(_, _, _) => Idents(node)
    case FuncLit(parts) => TypedAll(parts)
    case Call(f, args) => Typed(f) + TypedAll(args)
    case Other(_, parts) => TypedAll(parts)
  }

  function TypedAll(nodes: seq<Syntax>): set<Name>
    decreases nodes
  {
    if nodes == [] then {} else Typed(nodes[0]) + TypedAll(nodes[1..])
  }

  function KeyIdents(elements: seq<Syntax>): set<Name> {
    if elements == [] then {}
    else (if elements[0].KeyValue? && elements[0].key.Ident? then {elements[0].key.id} else {}) + KeyIdents(elements[1..])
  }

  function PackageBase(m: Maps, x: Syntax, g: Names): set<Name>
    requires Idents(x) <= g.Keys
  {
    match x
    case Ident(id) => if IsPackage(m, g[id]) then {id} else {}
    case _ => {}
  }

  // The names after a dot, and the packages before one.
  function Selected(m: Maps, node: Syntax, g: Names): set<Name>
    requires Idents(node) <= g.Keys
    decreases node
  {
    match node
    case Ident(_) => {}
    case Lit(_) => {}
    case Selector(x, sel) => {sel} + PackageBase(m, x, g) + Selected(m, x, g)
    case Composite(typ, _, elements) => (if typ.Some? then Selected(m, typ.value, g) else {}) + SelectedAll(m, elements, g)
    case KeyValue(k, v) => Selected(m, k, g) + Selected(m, v, g)
    case TypeNode(_, _, parts) => SelectedAll(m, parts, g)
    case FuncLit(parts) => SelectedAll(m, parts, g)
    case Call(f, args) => Selected(m, f, g) + SelectedAll(m, args, g)
    case Other(_, parts) => SelectedAll(m, parts, g)
  }

  function SelectedAll(m: Maps, nodes: seq<Syntax>, g: Names): set<Name>
    requires IdentsAll(nodes) <= g.Keys
    decreases nodes
  {
    if nodes == [] then {} else Selected(m, nodes[0], g) + SelectedAll(m, nodes[1..], g)
  }

  // The identifiers right before a dot.
  function Bases(node: Syntax): set<Name>
    decreases node
  {
    match node
    case Ident(_) => {}
    case Lit(_) => {}
    case Selector(x, _) => (if x.Ident? then {x.id} else {}) + Bases(x)
    case Composite(typ, _, elements) => (if typ.Some? then Bases(typ.value) else {}) + BasesAll(elements)
    case KeyValue(k, v) => Bases(k) + Bases(v)
    case TypeNode(_, _, parts) => BasesAll(parts)
    case FuncLit(parts) => BasesAll(parts)
    case Call(f, args) => Bases(f) + BasesAll(args)
    case Other(_, parts) => BasesAll(parts)
  }

  function BasesAll(nodes: seq<Syntax>): set<Name>
    decreases nodes
  {
    if nodes == [] then {} else Bases(nodes[0]) + BasesAll(nodes[1..])
  }

  // All of them are identifiers of the tree.
  lemma {:induction false} MarksAreIdents(m: Maps, node: Syntax, g: Names)
    requires Idents(node) <= g.Keys
    ensures Typed(node) <= Idents(node) && Selected(m, node, g) <= Idents(node) && Bases(node) <= Idents(node)
    decreases node
  {
    match node
    case Ident(_) =>
    case Lit(_) =>
    case Selector(x, _) => MarksAreIdents(m, x, g);
    case Composite(typ, _, elements) =>
      if typ.Some? { MarksAreIdents(m, typ.value, g); }
      MarksAreIdentsAll(m, elements, g);
    case KeyValue(k, v) => MarksAreIdents(m, k, g); MarksAreIdents(m, v, g);
    case TypeNode(_, _, parts) => MarksAreIdentsAll(m, parts, g);
    case FuncLit(parts) => MarksAreIdentsAll(m, parts, g);
    case Call(f, args) => MarksAreIdents(m, f, g); MarksAreIdentsAll(m, args, g);
    case Other(_, parts) => MarksAreIdentsAll(m, parts, g);
  }

  lemma {:induction false} MarksAreIdentsAll(m: Maps, nodes: seq<Syntax>, g: Names)
    requires IdentsAll(nodes) <= g.Keys
    ensures TypedAll(nodes) <= IdentsAll(nodes) && SelectedAll(m, nodes, g) <= IdentsAll(nodes) && BasesAll(nodes) <= IdentsAll(nodes)
    ensures KeyIdents(nodes) <= IdentsAll(nodes)
    decreases nodes
  {
    if nodes != [] {
      MarksAreIdents(m, nodes[0], g);
      MarksAreIdentsAll(m, nodes[1..], g);
    }
  }

  // ---- Renaming by identifier is the pass over the tree ----

  // After the first pass: every identifier that is not excluded has its new name.
  ghost predicate ValuesRenamed(m: Maps, ids: set<Name>, excluded: set<Name>, g: Names, h: Names) {
    ids <= g.Keys && ids <= h.Keys && forall id | id in ids :: h[id] == if id in excluded then g[id] else New(m.values, g[id])
  }

  // Among these identifiers, those excluded are the ones the marks say.
  ghost predicate ExcludedAre(ids: set<Name>, excluded: set<Name>, marks: set<Name>) {
    forall id | id in ids :: id in excluded <==> id in marks
  }

  lemma {:induction false} ByIdentOne(m: Maps, node: Syntax, excluded: set<Name>, g: Names, h: Names)
    requires Distinct(node) && ValuesRenamed(m, Idents(node), excluded, g, h)
    requires ExcludedAre(Idents(node), excluded, Typed(node) + Selected(m, node, g))
    ensures TreeWith(node, h) == PassOne(m, TreeWith(node, g))
    decreases node, 1
  {
    match node
    case Ident(_) =>
    case Lit(_) =>
    case Selector(_, _) => ByIdentSelector(m, node, excluded, g, h);
    case Composite(_, _, _) => ByIdentComposite(m, node, excluded, g, h);
    case KeyValue(_, _) => ByIdentPair(m, node, excluded, g, h);
    case TypeNode(_, labels, parts) =>
      SameLabels(labels, g, h);
      SameNamesAll(parts, g, h);
    case FuncLit(parts) => ByIdentAll(m, parts, excluded, g, h);
    case Call(_, _) => ByIdentCall(m, node, excluded, g, h);
    case Other(_, parts) => ByIdentAll(m, parts, excluded, g, h);
  }

  lemma {:induction false} ByIdentSelector(m: Maps, node: Syntax, excluded: set<Name>, g: Names, h: Names)
    requires node.Selector? && Distinct(node) && ValuesRenamed(m, Idents(node), excluded, g, h)
    requires ExcludedAre(Idents(node), excluded, Typed(node) + Selected(m, node, g))
    ensures TreeWith(node, h) == PassOne(m, TreeWith(node, g))
    decreases node, 0
  {
    MarksAreIdents(m, node.x, g);
    if !node.x.Ident? || !IsPackage(m, g[node.x.id]) { ByIdentOne(m, node.x, excluded, g, h); }
  }

  lemma {:induction false} CompositeMarks(m: Maps, node: Syntax, excluded: set<Name>, g: Names)
    requires node.Composite? && Distinct(node) && Idents(node) <= g.Keys
    requires ExcludedAre(Idents(node), excluded, Typed(node) + Selected(m, node, g))
    ensures node.typ.Some? ==> Idents(node.typ.value) <= excluded
    ensures ExcludedAre(IdentsAll(node.elements), excluded,
              TypedAll(node.elements) + SelectedAll(m, node.elements, g) +
              if ExplicitStruct(node.typ) then KeyIdents(node.elements) else {})
  {
    if node.typ.Some? {
      MarksAreIdents(m, node.typ.value, g);
      assert Idents(node.typ.value) <= Typed(node);
    }
  }

  lemma {:induction false} ByIdentComposite(m: Maps, node: Syntax, excluded: set<Name>, g: Names, h: Names)
    requires node.Composite? && Distinct(node) && ValuesRenamed(m, Idents(node), excluded, g, h)
    requires ExcludedAre(Idents(node), excluded, Typed(node) + Selected(m, node, g))
    ensures TreeWith(node, h) == PassOne(m, TreeWith(node, g))
    decreases node, 0
  {
    CompositeMarks(m, node, excluded, g);
    if node.typ.Some? { SameNames(node.typ.value, g, h); }
    ByIdentElements(m, ExplicitStruct(node.typ), node.elements, excluded, g, h);
  }

  lemma {:induction false} ByIdentPair(m: Maps, node: Syntax, excluded: set<Name>, g: Names, h: Names)
    requires node.KeyValue? && Distinct(node) && ValuesRenamed(m, Idents(node), excluded, g, h)
    requires ExcludedAre(Idents(node), excluded, Typed(node) + Selected(m, node, g))
    ensures TreeWith(node, h) == PassOne(m, TreeWith(node, g))
    decreases node, 0
  {
    MarksAreIdents(m, node.key, g);
    MarksAreIdents(m, node.value, g);
    ByIdentOne(m, node.key, excluded, g, h);
    ByIdentOne(m, node.value, excluded, g, h);
  }

  lemma {:induction false} ByIdentCall(m: Maps, node: Syntax, excluded: set<Name>, g: Names, h: Names)
    requires node.Call? && Distinct(node) && ValuesRenamed(m, Idents(node), excluded, g, h)
    requires ExcludedAre(Idents(node), excluded, Typed(node) + Selected(m, node, g))
    ensures TreeWith(node, h) == PassOne(m, TreeWith(node, g))
    decreases node, 0
  {
    MarksAreIdents(m, node.fun, g);
    MarksAreIdentsAll(m, node.args, g);
    ByIdentOne(m, node.fun, excluded, g, h);
    ByIdentAll(m, node.args, excluded, g, h);
  }

  lemma {:induction false} ByIdentAll(m: Maps, nodes: seq<Syntax>, excluded: set<Name>, g: Names, h: Names)
    requires DistinctAll(nodes) && ValuesRenamed(m, IdentsAll(nodes), excluded, g, h)
    requires ExcludedAre(IdentsAll(nodes), excluded, TypedAll(nodes) + SelectedAll(m, nodes, g))
    ensures TreesWith(nodes, h) == PassOneAll(m, TreesWith(nodes, g))
    decreases nodes, 0
  {
    if nodes != [] {
      MarksAreIdents(m, nodes[0], g);
      MarksAreIdentsAll(m, nodes[1..], g);
      ByIdentOne(m, nodes[0], excluded, g, h);
      ByIdentAll(m, nodes[1..], excluded, g, h);
      assert TreesWith(nodes, g)[1..] == TreesWith(nodes[1..], g);
    }
  }

  lemma {:induction false} ByIdentElements(m: Maps, explicitStruct: bool, nodes: seq<Syntax>, excluded: set<Name>,
          g: Names, h: Names)
    requires DistinctAll(nodes) && ValuesRenamed(m, IdentsAll(nodes), excluded, g, h)
    requires ExcludedAre(IdentsAll(nodes), excluded,
               TypedAll(nodes) + SelectedAll(m, nodes, g) + if explicitStruct then KeyIdents(nodes) else {})
    ensures TreesWith(nodes, h) == PassOneElements(m, explicitStruct, TreesWith(nodes, g))
    decreases nodes, 0
  {
    if nodes != [] {
      MarksAreIdents(m, nodes[0], g);
      MarksAreIdentsAll(m, nodes[1..], g);
      ByIdentElement(m, explicitStruct, nodes[0], excluded, g, h);
      ByIdentElements(m, explicitStruct, nodes[1..], excluded, g, h);
      assert TreesWith(nodes, g)[1..] == TreesWith(nodes[1..], g);
    }
  }

  function KeyIdent(element: Syntax): set<Name> {
    if element.KeyValue? && element.key.Ident? then {element.key.id} else {}
  }

  lemma {:induction false} ByIdentElement(m: Maps, explicitStruct: bool, node: Syntax, excluded: set<Name>, g: Names,
          h: Names)
    requires Distinct(node) && ValuesRenamed(m, Idents(node), excluded, g, h)
    requires ExcludedAre(Idents(node), excluded,
               Typed(node) + Selected(m, node, g) + if explicitStruct then KeyIdent(node) else {})
    ensures TreeWith(node, h) == PassOneElement(m, explicitStruct, TreeWith(node, g))
    decreases node, 2
  {
    if node.KeyValue? {
      MarksAreIdents(m, node.key, g);
      MarksAreIdents(m, node.value, g);
      if node.key.Ident? && explicitStruct {
        assert node.key.id in Idents(node.key) && node.key.id in KeyIdent(node);
      } else {
        ByIdentOne(m, node.key, excluded, g, h);
      }
      ByIdentOne(m, node.value, excluded, g, h);
    } else {
      ByIdentOne(m, node, excluded, g, h);
    }
  }

  // After the second pass: every identifier before a dot has its new name as a package.
  ghost predicate BasesRenamed(m: Maps, ids: set<Name>, bases: set<Name>, g: Names, h: Names) {
    ids <= g.Keys && ids <= h.Keys && forall id | id in ids :: h[id] == if id in bases then New(m.packages, g[id]) else g[id]
  }

  lemma {:induction false} ByIdentTwo(m: Maps, node: Syntax, bases: set<Name>, g: Names, h: Names)
    requires Distinct(node) && BasesRenamed(m, Idents(node), bases, g, h) && ExcludedAre(Idents(node), bases, Bases(node))
    ensures TreeWith(node, h) == PassTwo(m, TreeWith(node, g))
    decreases node, 1
  {
    match node
    case Ident(_) =>
    case Lit(_) =>
    case Selector(x, _) =>
      MarksAreIdents(m, x, g);
      if !x.Ident? { ByIdentTwo(m, x, bases, g, h); }
    case Composite(_, _, _) => ByIdentTwoComposite(m, node, bases, g, h);
    case KeyValue(_, _) => ByIdentTwoPair(m, node, bases, g, h);
    case TypeNode(_, _, _) => ByIdentTwoType(m, node, bases, g, h);
    case FuncLit(parts) => ByIdentTwoAll(m, parts, bases, g, h);
    case Call(_, _) => ByIdentTwoCall(m, node, bases, g, h);
    case Other(_, parts) => ByIdentTwoAll(m, parts, bases, g, h);
  }

  lemma {:induction false} CompositeBases(m: Maps, node: Syntax, bases: set<Name>, g: Names)
    requires node.Composite? && Distinct(node) && Idents(node) <= g.Keys && ExcludedAre(Idents(node), bases, Bases(node))
    ensures node.typ.Some? ==> ExcludedAre(Idents(node.typ.value), bases, Bases(node.typ.value))
    ensures ExcludedAre(IdentsAll(node.elements), bases, BasesAll(node.elements))
  {
    MarksAreIdentsAll(m, node.elements, g);
    if node.typ.Some? { MarksAreIdents(m, node.typ.value, g); }
  }

  lemma {:induction false} ByIdentTwoComposite(m: Maps, node: Syntax, bases: set<Name>, g: Names, h: Names)
    requires node.Composite? && Distinct(node) && BasesRenamed(m, Idents(node), bases, g, h)
    requires ExcludedAre(Idents(node), bases, Bases(node))
    ensures TreeWith(node, h) == PassTwo(m, TreeWith(node, g))
    decreases node, 0
  {
    CompositeBases(m, node, bases, g);
    if node.typ.Some? { ByIdentTwo(m, node.typ.value, bases, g, h); }
    ByIdentTwoAll(m, node.elements, bases, g, h);
  }

  lemma {:induction false} ByIdentTwoPair(m: Maps, node: Syntax, bases: set<Name>, g: Names, h: Names)
    requires node.KeyValue? && Distinct(node) && BasesRenamed(m, Idents(node), bases, g, h)
    requires ExcludedAre(Idents(node), bases, Bases(node))
    ensures TreeWith(node, h) == PassTwo(m, TreeWith(node, g))
    decreases node, 0
  {
    MarksAreIdents(m, node.key, g);
    MarksAreIdents(m, node.value, g);
    ByIdentTwo(m, node.key, bases, g, h);
    ByIdentTwo(m, node.value, bases, g, h);
  }

  lemma {:induction false} ByIdentTwoType(m: Maps, node: Syntax, bases: set<Name>, g: Names, h: Names)
    requires node.TypeNode? && Distinct(node) && BasesRenamed(m, Idents(node), bases, g, h)
    requires ExcludedAre(Idents(node), bases, Bases(node))
    ensures TreeWith(node, h) == PassTwo(m, TreeWith(node, g))
    decreases node, 0
  {
    MarksAreIdentsAll(m, node.parts, g);
    SameLabels(node.labels, g, h);
    ByIdentTwoAll(m, node.parts, bases, g, h);
  }

  lemma {:induction false} ByIdentTwoCall(m: Maps, node: Syntax, bases: set<Name>, g: Names, h: Names)
    requires node.Call? && Distinct(node) && BasesRenamed(m, Idents(node), bases, g, h)
    requires ExcludedAre(Idents(node), bases, Bases(node))
    ensures TreeWith(node, h) == PassTwo(m, TreeWith(node, g))
    decreases node, 0
  {
    MarksAreIdents(m, node.fun, g);
    MarksAreIdentsAll(m, node.args, g);
    ByIdentTwo(m, node.fun, bases, g, h);
    ByIdentTwoAll(m, node.args, bases, g, h);
  }

  lemma {:induction false} ByIdentTwoAll(m: Maps, nodes: seq<Syntax>, bases: set<Name>, g: Names, h: Names)
    requires DistinctAll(nodes) && BasesRenamed(m, IdentsAll(nodes), bases, g, h)
    requires ExcludedAre(IdentsAll(nodes), bases, BasesAll(nodes))
    ensures TreesWith(nodes, h) == PassTwoAll(m, TreesWith(nodes, g))
    decreases nodes, 0
  {
    if nodes != [] {
      MarksAreIdents(m, nodes[0], g);
      MarksAreIdentsAll(m, nodes[1..], g);
      ByIdentTwo(m, nodes[0], bases, g, h);
      ByIdentTwoAll(m, nodes[1..], bases, g, h);
      assert TreesWith(nodes, g)[1..] == TreesWith(nodes[1..], g);
    }
  }

  // ---- The passes, in place ----

  lemma {:induction false} IdentsOfTree(node: Syntax, g: Names)
    requires Idents(node) <= g.Keys
    ensures Idents(TreeWith(node, g)) == set id | id in Idents(node) :: g[id]
    decreases node
  {
    match node
    case Ident(_) =>
    case Lit(_) =>
    case Selector(x, _) => IdentsOfTree(x, g);
    case Composite(typ, _, elements) =>
      if typ.Some? { IdentsOfTree(typ.value, g); }
      IdentsOfTrees(elements, g);
    case KeyValue(k, v) => IdentsOfTree(k, g); IdentsOfTree(v, g);
    case TypeNode(_, labels, parts) => IdentsOfTrees(parts, g); IdentsOfLabels(labels, g);
    case FuncLit(parts) => IdentsOfTrees(parts, g);
    case Call(f, args) => IdentsOfTree(f, g); IdentsOfTrees(args, g);
    case Other(_, parts) => IdentsOfTrees(parts, g);
  }

  lemma {:induction false} IdentsOfLabels(labels: seq<Name>, g: Names)
    requires SetOf(labels) <= g.Keys
    ensures SetOf(LabelsWith(labels, g)) == set id | id in SetOf(labels) :: g[id]
  {
    var names := LabelsWith(labels, g);
    forall id | id in SetOf(labels)
      ensures g[id] in SetOf(names)
    {
      var i :| 0 <= i < |labels| && labels[i] == id;
      assert names[i] == g[id];
    }
    forall n | n in SetOf(names)
      ensures exists id :: id in SetOf(labels) && g[id] == n
    {
      var i :| 0 <= i < |names| && names[i] == n;
      assert labels[i] in SetOf(labels);
    }
  }

  lemma {:induction false} IdentsOfTrees(nodes: seq<Syntax>, g: Names)
    requires IdentsAll(nodes) <= g.Keys
    ensures IdentsAll(TreesWith(nodes, g)) == set id | id in IdentsAll(nodes) :: g[id]
    decreases nodes
  {
    if nodes != [] {
      IdentsOfTree(nodes[0], g);
      IdentsOfTrees(nodes[1..], g);
      assert TreesWith(nodes, g)[1..] == TreesWith(nodes[1..], g);
    }
  }

  // The names that the identifiers of the tree have now.
  ghost function NamesNow(ids: set<Name>): Names
    reads ids
  {
    map id | id in ids :: id.name
  }

  ghost function TreeOf(node: Syntax): Tree
    reads Idents(node)
  {
    TreeWith(node, NamesNow(Idents(node)))
  }

  // The names in a type do not change what kind of type it is.
  lemma {:induction false} SameKind(typ: Option<Syntax>, g: Names)
    requires typ.Some? ==> Idents(typ.value) <= g.Keys
    ensures var t := if typ.Some? then Some(TreeWith(typ.value, g)) else None;
      ExplicitMap(t) == ExplicitMap(typ) && ExplicitStruct(t) == ExplicitStruct(typ)
  {
    if typ.Some? {
      assert typ.value.TypeNode? <==> TreeWith(typ.value, g).TypeNode?;
    }
  }

  lemma {:induction false} MapKeysAreFine(m: Maps, ts: seq<Tree>)
    ensures !AnyKeyIsAmbiguous(m, true, ts)
    decreases ts
  {
    if ts != [] { MapKeysAreFine(m, ts[1..]); }
  }

  // One of the first so many identifiers has a name that is renamed.
  ghost predicate RenamedAmong(m: Maps, ids: seq<Name>, g: Names, i: nat)
    requires i <= |ids| && SetOf(ids) <= g.Keys
  {
    exists id :: id in ids[..i] && (Renames(m.values, g[id]) || Renames(m.packages, g[id]))
  }

  lemma {:induction false} ClosureIsMentioned(m: Maps, parts: seq<Syntax>, g: Names)
    requires IdentsAll(parts) <= g.Keys && SetOf(IdentSeqAll(parts)) == IdentsAll(parts)
    ensures RenamedAmong(m, IdentSeqAll(parts), g, |IdentSeqAll(parts)|) <==> ClosureMentions(m, TreeWith(FuncLit(parts), g))
  {
    var ids, names := IdentSeqAll(parts), IdentsAll(TreesWith(parts, g));
    IdentsOfTrees(parts, g);
    assert ids[..|ids|] == ids;
    if n :| n in names && (Renames(m.values, n) || Renames(m.packages, n)) {
      var id :| id in IdentsAll(parts) && g[id] == n;
      assert id in SetOf(ids);
    }
    if id :| id in ids && (Renames(m.values, g[id]) || Renames(m.packages, g[id])) {
      assert id in SetOf(ids) && g[id] in names;
    }
  }

  class Renamer {
    const m: Maps
    var excluded: set<Name>
    var ambiguity: bool
    var observed: set<string>

    constructor (m: Maps)
      ensures this.m == m && excluded == {} && !ambiguity && observed == {}
    {
      this.m, excluded, ambiguity, observed := m, {}, false, {};
    }

    // Refuses closures that mention a renamed name.
    method CheckClosures(node: Syntax, ghost g: Names)
      requires Knows(g, Idents(node))
      modifies this`ambiguity
      ensures ambiguity == (old(ambiguity) || ClosureMentions(m, TreeWith(node, g)))
      decreases node, 1
    {
      match node {
        case Ident(_) =>
        case Lit(_) =>
        case Selector(x, _) => CheckClosures(x, g);
        case Composite(_, _, _) => CheckLiteral(node, g);
        case KeyValue(k, v) => CheckClosures(k, g); CheckClosures(v, g);
        case TypeNode(_, _, parts) => CheckClosuresAll(parts, g);
        case FuncLit(parts) => CheckClosure(parts, g);
        case Call(f, args) => CheckClosures(f, g); CheckClosuresAll(args, g);
        case Other(_, parts) => CheckClosuresAll(parts, g);
      }
    }

    method CheckLiteral(node: Syntax, ghost g: Names)
      requires node.Composite? && Knows(g, Idents(node))
      modifies this`ambiguity
      ensures ambiguity == (old(ambiguity) || ClosureMentions(m, TreeWith(node, g)))
      decreases node, 0
    {
      if node.typ.Some? { CheckClosures(node.typ.value, g); }
      CheckClosuresAll(node.elements, g);
    }

    method CheckClosuresAll(nodes: seq<Syntax>, ghost g: Names)
      requires Knows(g, IdentsAll(nodes))
      modifies this`ambiguity
      ensures ambiguity == (old(ambiguity) || ClosureMentionsAny(m, TreesWith(nodes, g)))
      decreases nodes, 0
    {
      if nodes != [] {
        CheckClosures(nodes[0], g);
        CheckClosuresAll(nodes[1..], g);
        assert TreesWith(nodes, g)[1..] == TreesWith(nodes[1..], g);
      }
    }

    method CheckClosure(parts: seq<Syntax>, ghost g: Names)
      requires Knows(g, IdentsAll(parts))
      modifies this`ambiguity
      ensures ambiguity == (old(ambiguity) || ClosureMentions(m, TreeWith(FuncLit(parts), g)))
    {
      var ids := IdentSeqAll(parts);
      IdentSeqAllHasIdents(parts);
      for i := 0 to |ids|
        invariant ambiguity == (old(ambiguity) || RenamedAmong(m, ids, g, i))
      {
        assert ids[i] in SetOf(ids);
        if Renames(m.values, ids[i].name) || Renames(m.packages, ids[i].name) { ambiguity := true; }
      }
      ClosureIsMentioned(m, parts, g);
    }

    // Excludes types and the keys of struct literals, and refuses keys whose meaning only a type tells.
    method MarkTypes(node: Syntax, ghost g: Names)
      requires Knows(g, Idents(node))
      modifies this`excluded, this`ambiguity
      ensures excluded == old(excluded) + Typed(node)
      ensures ambiguity == (old(ambiguity) || KeysAreAmbiguous(m, TreeWith(node, g)))
      decreases node, 1
    {
      match node {
        case Ident(_) =>
        case Lit(_) =>
        case Selector(x, _) => MarkTypes(x, g);
        case Composite(_, _, _) => MarkLiteral(node, g);
        case KeyValue(k, v) => MarkTypes(k, g); MarkTypes(v, g);
        case TypeNode(_, _, _) => MarkType(node, g);
        case FuncLit(parts) => MarkTypesAll(parts, g);
        case Call(f, args) => MarkTypes(f, g); MarkTypesAll(args, g);
        case Other(_, parts) => MarkTypesAll(parts, g);
      }
    }

    method MarkType(node: Syntax, ghost g: Names)
      requires node.TypeNode? && Knows(g, Idents(node))
      modifies this`excluded, this`ambiguity
      ensures excluded == old(excluded) + Typed(node)
      ensures ambiguity == (old(ambiguity) || KeysAreAmbiguous(m, TreeWith(node, g)))
      decreases node, 0
    {
      excluded := excluded + Idents(node);
      MarkTypesAll(node.parts, g);
      MarksAreIdentsAll(m, node.parts, g);
    }

    method MarkLiteral(node: Syntax, ghost g: Names)
      requires node.Composite? && Knows(g, Idents(node))
      modifies this`excluded, this`ambiguity
      ensures excluded == old(excluded) + Typed(node)
      ensures ambiguity == (old(ambiguity) || KeysAreAmbiguous(m, TreeWith(node, g)))
      decreases node, 0
    {
      if node.typ.Some? { excluded := excluded + Idents(node.typ.value); }
      if !ExplicitMap(node.typ) {
        MarkKeys(node.typ, node.elements, g);
      } else {
        MapKeysAreFine(m, TreesWith(node.elements, g));
      }
      if node.typ.Some? {
        MarkTypes(node.typ.value, g);
        MarksAreIdents(m, node.typ.value, g);
      }
      MarkTypesAll(node.elements, g);
      SameKind(node.typ, g);
    }

    // Identifiers as keys where no map type is spelled out.
    method MarkKeys(typ: Option<Syntax>, elements: seq<Syntax>, ghost g: Names)
      requires !ExplicitMap(typ) && Knows(g, IdentsAll(elements))
      modifies this`excluded, this`ambiguity
      ensures excluded == old(excluded) + if ExplicitStruct(typ) then KeyIdents(elements) else {}
      ensures ambiguity == (old(ambiguity) || AnyKeyIsAmbiguous(m, Explicit(typ), TreesWith(elements, g)))
      decreases elements, 0
    {
      if elements == [] { return; }
      if elements[0].KeyValue? && elements[0].key.Ident? {
        var key := elements[0].key.id;
        assert key in Idents(elements[0].key) && Idents(elements[0]) <= IdentsAll(elements);
        if ExplicitStruct(typ) {
          excluded := excluded + {key};
        } else if Renames(m.values, key.name) {
          ambiguity := true;
        }
      }
      ghost var ts := TreesWith(elements, g);
      assert ts[0] == TreeWith(elements[0], g);
      assert Idents(elements[0]) <= IdentsAll(elements);
      assert elements[0].KeyValue? ==> Idents(elements[0].key) <= Idents(elements[0]);
      assert elements[0].KeyValue? ==> ts[0].key == TreeWith(elements[0].key, g);
      MarkKeys(typ, elements[1..], g);
      assert ts[1..] == TreesWith(elements[1..], g);
    }

    method MarkTypesAll(nodes: seq<Syntax>, ghost g: Names)
      requires Knows(g, IdentsAll(nodes))
      modifies this`excluded, this`ambiguity
      ensures excluded == old(excluded) + TypedAll(nodes)
      ensures ambiguity == (old(ambiguity) || AnyKeysAreAmbiguous(m, TreesWith(nodes, g)))
      decreases nodes, 0
    {
      if nodes != [] {
        MarkTypes(nodes[0], g);
        MarkTypesAll(nodes[1..], g);
        assert TreesWith(nodes, g)[1..] == TreesWith(nodes[1..], g);
      }
    }

    // Excludes the names after a dot and the packages before one, and refuses a package that is a dependency too.
    method MarkSelectors(node: Syntax, ghost g: Names)
      requires Knows(g, Idents(node))
      modifies this`excluded, this`ambiguity
      ensures excluded == old(excluded) + Selected(m, node, g)
      ensures ambiguity == (old(ambiguity) || BasesAreAmbiguous(m, TreeWith(node, g)))
      decreases node, 1
    {
      match node {
        case Ident(_) =>
        case Lit(_) =>
        case Selector(_, _) => MarkSelector(node, g);
        case Composite(_, _, _) => MarkLiteralSelectors(node, g);
        case KeyValue(k, v) => MarkSelectors(k, g); MarkSelectors(v, g);
        case TypeNode(_, _, parts) => MarkSelectorsAll(parts, g);
        case FuncLit(parts) => MarkSelectorsAll(parts, g);
        case Call(f, args) => MarkSelectors(f, g); MarkSelectorsAll(args, g);
        case Other(_, parts) => MarkSelectorsAll(parts, g);
      }
    }

    method MarkLiteralSelectors(node: Syntax, ghost g: Names)
      requires node.Composite? && Knows(g, Idents(node))
      modifies this`excluded, this`ambiguity
      ensures excluded == old(excluded) + Selected(m, node, g)
      ensures ambiguity == (old(ambiguity) || BasesAreAmbiguous(m, TreeWith(node, g)))
      decreases node, 0
    {
      if node.typ.Some? { MarkSelectors(node.typ.value, g); }
      MarkSelectorsAll(node.elements, g);
    }

    method MarkSelector(node: Syntax, ghost g: Names)
      requires node.Selector? && Knows(g, Idents(node))
      modifies this`excluded, this`ambiguity
      ensures excluded == old(excluded) + Selected(m, node, g)
      ensures ambiguity == (old(ambiguity) || BasesAreAmbiguous(m, TreeWith(node, g)))
      decreases node, 0
    {
      var x := node.x;
      excluded := excluded + {node.sel};
      if x.Ident? {
        assert x.id in Idents(x);
        if IsPackage(m, x.id.name) {
          excluded := excluded + {x.id};
          if Renames(m.values, x.id.name) && x.id.name in m.declared { ambiguity := true; }
        }
      }
      MarkSelectors(x, g);
    }

    method MarkSelectorsAll(nodes: seq<Syntax>, ghost g: Names)
      requires Knows(g, IdentsAll(nodes))
      modifies this`excluded, this`ambiguity
      ensures excluded == old(excluded) + SelectedAll(m, nodes, g)
      ensures ambiguity == (old(ambiguity) || AnyBasesAreAmbiguous(m, TreesWith(nodes, g)))
      decreases nodes, 0
    {
      if nodes != [] {
        MarkSelectors(nodes[0], g);
        MarkSelectorsAll(nodes[1..], g);
        assert TreesWith(nodes, g)[1..] == TreesWith(nodes[1..], g);
      }
    }

    // Renames the values among the identifiers that are not excluded.
    method RenameValues(node: Syntax, ghost g: Names)
      requires Distinct(node) && Knows(g, Idents(node))
      modifies Idents(node), this`observed
      ensures forall id | id in Idents(node) :: id.name == if id in excluded then g[id] else New(m.values, g[id])
      ensures forall n :: n in observed <==>
        n in old(observed) || (Renames(m.values, n) && exists id :: id in Idents(node) - excluded && g[id] == n)
    {
      IdentSeqHasIdents(node);
      DistinctMeetsOnce(node);
      RenameEach(IdentSeq(node), g);
    }

    method RenameEach(ids: seq<Name>, ghost g: Names)
      requires NoDuplicates(ids) && Knows(g, SetOf(ids))
      modifies SetOf(ids), this`observed
      ensures forall id | id in SetOf(ids) :: id.name == if id in excluded then g[id] else New(m.values, g[id])
      ensures forall n :: n in observed <==>
        n in old(observed) || (Renames(m.values, n) && exists id :: id in SetOf(ids) - excluded && g[id] == n)
    {
      for i := 0 to |ids|
        invariant forall k | 0 <= k < i :: ids[k].name == if ids[k] in excluded then g[ids[k]] else New(m.values, g[ids[k]])
        invariant forall k | i <= k < |ids| :: ids[k].name == g[ids[k]]
        invariant forall n :: n in observed <==>
          n in old(observed) || (Renames(m.values, n) && exists id :: id in SetOf(ids[..i]) - excluded && g[id] == n)
      {
        var id := ids[i];
        assert id in SetOf(ids);
        SetOfNext(ids, i);
        if id !in excluded && Renames(m.values, id.name) {
          observed := observed + {id.name};
          id.name := m.values[id.name];
        }
      }
      assert ids[..|ids|] == ids;
    }

    // Renames the identifiers right before a dot that name a package.
    method RenamePackages(node: Syntax, ghost g: Names)
      requires Distinct(node) && Knows(g, Idents(node))
      modifies Idents(node)
      ensures forall id | id in Idents(node) :: id.name == if id in Bases(node) then New(m.packages, g[id]) else g[id]
    {
      IdentSeqHasIdents(node);
      DistinctMeetsOnce(node);
      RenameBases(IdentSeq(node), Bases(node), g);
    }

    method RenameBases(ids: seq<Name>, bases: set<Name>, ghost g: Names)
      requires NoDuplicates(ids) && Knows(g, SetOf(ids))
      modifies SetOf(ids)
      ensures forall id | id in SetOf(ids) :: id.name == if id in bases then New(m.packages, g[id]) else g[id]
    {
      for i := 0 to |ids|
        invariant forall k | 0 <= k < i :: ids[k].name == if ids[k] in bases then New(m.packages, g[ids[k]]) else g[ids[k]]
        invariant forall k | i <= k < |ids| :: ids[k].name == g[ids[k]]
      {
        var id := ids[i];
        assert id in SetOf(ids);
        if id in bases && Renames(m.packages, id.name) {
          id.name := m.packages[id.name];
        }
      }
    }
  }

  lemma {:induction false} SetOfNext(ids: seq<Name>, i: nat)
    requires i < |ids|
    ensures SetOf(ids[..i + 1]) == SetOf(ids[..i]) + {ids[i]}
  {
    assert ids[..i + 1] == ids[..i] + [ids[i]];
  }

  // ---- The whole call ----

  // The argument refers to the name as a value.
  ghost predicate Refers(m: Maps, node: Syntax, g: Names, n: string)
    requires Idents(node) <= g.Keys
  {
    exists id :: id in Idents(node) - Typed(node) - Selected(m, node, g) && g[id] == n
  }

  // One argument after its renaming.
  ghost predicate ArgumentDone(m: Maps, node: Syntax, g: Names)
    requires Idents(node) <= g.Keys
    reads Idents(node)
  {
    TreeOf(node) == PassOne(m, TreeWith(node, g))
  }

  method RenameArgument(walk: Renamer, node: Syntax, ghost g: Names)
    requires Distinct(node) && Knows(g, Idents(node))
    modifies walk`excluded, walk`ambiguity, walk`observed, Idents(node)
    ensures ArgumentDone(walk.m, node, g)
    ensures walk.ambiguity == (old(walk.ambiguity) || ArgumentRefused(walk.m, TreeWith(node, g)))
    ensures forall n :: n in walk.observed <==> n in old(walk.observed) || (Renames(walk.m.values, n) && Refers(walk.m, node, g, n))
  {
    walk.excluded := {};
    walk.MarkTypes(node, g);
    walk.MarkSelectors(node, g);
    assert walk.excluded == Typed(node) + Selected(walk.m, node, g);
    walk.RenameValues(node, g);
    ByIdentOne(walk.m, node, walk.excluded, g, NamesNow(Idents(node)));
  }

  lemma {:induction false} RefusedByArgument(m: Maps, call: Syntax, g: Names)
    requires call.Call? && Idents(call) <= g.Keys
    ensures Refused(m, TreeWith(call, g)) <==>
      ClosureMentions(m, TreeWith(call, g)) || SomeRefused(m, call.args, g, |call.args|)
  {
    var ts := TreesWith(call.args, g);
    assert TreeWith(call, g).args == ts;
    forall k | 0 <= k < |ts|
      ensures Idents(call.args[k]) <= g.Keys && ts[k] == TreeWith(call.args[k], g)
    {
      TreesAt(call.args, g, k);
    }
    if k :| 0 <= k < |ts| && ArgumentRefused(m, ts[k]) {
      assert ArgumentRefused(m, TreeWith(call.args[k], g));
    }
    if k :| 0 <= k < |ts| && Idents(call.args[k]) <= g.Keys && ArgumentRefused(m, TreeWith(call.args[k], g)) {
      assert ArgumentRefused(m, ts[k]);
    }
  }

  lemma {:induction false} ArgumentsDone(m: Maps, args: seq<Syntax>, g: Names, h: Names)
    requires IdentsAll(args) <= g.Keys && Knows(h, IdentsAll(args))
    requires forall k | 0 <= k < |args| :: Idents(args[k]) <= g.Keys && ArgumentDone(m, args[k], g)
    ensures TreesWith(args, h) == PassOneAll(m, TreesWith(args, g))
    decreases args
  {
    if args != [] {
      assert ArgumentDone(m, args[0], g);
      SameNames(args[0], NamesNow(Idents(args[0])), h);
      forall k | 0 <= k < |args[1..]|
        ensures Idents(args[1..][k]) <= g.Keys && ArgumentDone(m, args[1..][k], g)
      {
        assert args[1..][k] == args[k + 1];
      }
      ArgumentsDone(m, args[1..], g, h);
      assert TreesWith(args, g)[1..] == TreesWith(args[1..], g);
    }
  }

  method RenameAllPackages(walk: Renamer, expression: Syntax, ghost g: Names)
    requires Distinct(expression) && expression.Call? && Idents(expression) <= g.Keys
    requires Knows(g, Idents(expression.fun))
    requires forall k | 0 <= k < |expression.args| :: Idents(expression.args[k]) <= g.Keys && ArgumentDone(walk.m, expression.args[k], g)
    modifies Idents(expression)
    ensures TreeOf(expression) == TwoPassesOf(walk.m, TreeWith(expression, g))
  {
    ghost var h := NamesNow(Idents(expression));
    SameNames(expression.fun, g, h);
    ArgumentsDone(walk.m, expression.args, g, h);
    assert TreeWith(expression, h) == Call(TreeWith(expression.fun, g), PassOneAll(walk.m, TreesWith(expression.args, g)));
    walk.RenamePackages(expression, h);
    ByIdentTwo(walk.m, expression, Bases(expression), h, NamesNow(Idents(expression)));
  }

  datatype Transformed = NotACall | Ambiguous | Renamed

  // Some argument is refused, or refers to the name, among the first so many.
  ghost predicate SomeRefused(m: Maps, args: seq<Syntax>, g: Names, i: nat)
    requires i <= |args|
  {
    exists k :: 0 <= k < i && Idents(args[k]) <= g.Keys && ArgumentRefused(m, TreeWith(args[k], g))
  }

  ghost predicate SomeRefers(m: Maps, args: seq<Syntax>, g: Names, i: nat, n: string)
    requires i <= |args|
  {
    exists k :: 0 <= k < i && Idents(args[k]) <= g.Keys && Refers(m, args[k], g, n)
  }

  // The first so many arguments are done, and the others are as they were.
  ghost predicate DoneUpTo(m: Maps, args: seq<Syntax>, g: Names, i: nat)
    requires i <= |args|
    reads set k, id | 0 <= k < |args| && id in Idents(args[k]) :: id
  {
    && (forall k | i <= k < |args| :: Knows(g, Idents(args[k])))
    && (forall k | 0 <= k < i :: Idents(args[k]) <= g.Keys && ArgumentDone(m, args[k], g))
  }

  method RenameArguments(walk: Renamer, args: seq<Syntax>, ghost others: set<Name>, ghost g: Names)
    requires DistinctAll(args) && Knows(g, IdentsAll(args)) && Knows(g, others) && others !! IdentsAll(args)
    modifies walk`excluded, walk`ambiguity, walk`observed, IdentsAll(args)
    ensures Knows(g, others)
    ensures forall k | 0 <= k < |args| :: Idents(args[k]) <= g.Keys && ArgumentDone(walk.m, args[k], g)
    ensures walk.ambiguity == (old(walk.ambiguity) || SomeRefused(walk.m, args, g, |args|))
    ensures forall n :: n in walk.observed <==>
      n in old(walk.observed) || (Renames(walk.m.values, n) && SomeRefers(walk.m, args, g, |args|, n))
  {
    forall k | 0 <= k < |args|
      ensures Idents(args[k]) <= IdentsAll(args)
    {
      IdentsOfPart(args, k);
    }
    ghost var refused, seen := walk.ambiguity, walk.observed;
    for i := 0 to |args|
      invariant Knows(g, others)
      invariant DoneUpTo(walk.m, args, g, i)
      invariant walk.ambiguity == (refused || SomeRefused(walk.m, args, g, i))
      invariant Observed(walk.m, args, g, i, seen, walk.observed)
    {
      RenameNext(walk, args, i, others, g, refused, seen);
    }
  }

  // The names observed after the first so many arguments.
  ghost predicate Observed(m: Maps, args: seq<Syntax>, g: Names, i: nat, seen: set<string>, observed: set<string>)
    requires i <= |args|
  {
    forall n :: n in observed <==> n in seen || (Renames(m.values, n) && SomeRefers(m, args, g, i, n))
  }

  // Renames one more argument.
  method RenameNext(walk: Renamer, args: seq<Syntax>, i: nat, ghost others: set<Name>, ghost g: Names,
          ghost refused: bool, ghost seen: set<string>)
    requires DistinctAll(args) && i < |args| && Knows(g, others) && others !! IdentsAll(args)
    requires forall k | 0 <= k < |args| :: Idents(args[k]) <= IdentsAll(args)
    requires DoneUpTo(walk.m, args, g, i)
    requires walk.ambiguity == (refused || SomeRefused(walk.m, args, g, i))
    requires Observed(walk.m, args, g, i, seen, walk.observed)
    modifies walk`excluded, walk`ambiguity, walk`observed, Idents(args[i])
    ensures Knows(g, others)
    ensures DoneUpTo(walk.m, args, g, i + 1)
    ensures walk.ambiguity == (refused || SomeRefused(walk.m, args, g, i + 1))
    ensures Observed(walk.m, args, g, i + 1, seen, walk.observed)
  {
    PartIsDistinct(args, i);
    PartIsApart(args, i);
    ghost var before := walk.observed;
    RenameArgument(walk, args[i], g);
    ObservedNext(walk.m, args, g, i, seen, before, walk.observed);
  }

  lemma {:induction false} PartIsApart(args: seq<Syntax>, i: nat)
    requires DistinctAll(args) && i < |args|
    ensures forall k | 0 <= k < |args| && k != i :: Idents(args[k]) !! Idents(args[i])
  {
    forall k | 0 <= k < |args| && k != i
      ensures Idents(args[k]) !! Idents(args[i])
    {
      PartsAreDisjoint(args, if k < i then k else i, if k < i then i else k);
    }
  }

  lemma {:induction false} ObservedNext(m: Maps, args: seq<Syntax>, g: Names, i: nat, seen: set<string>,
          before: set<string>, observed: set<string>)
    requires i < |args| && Idents(args[i]) <= g.Keys && Observed(m, args, g, i, seen, before)
    requires forall n :: n in observed <==> n in before || (Renames(m.values, n) && Refers(m, args[i], g, n))
    ensures Observed(m, args, g, i + 1, seen, observed)
  {
  }

  // Renames the references of a constructor call: it refuses what is no call and what is ambiguous, and makes the
  // two passes over every other call.
  method Transform(expression: Syntax, m: Maps, ghost g: Names) returns (result: Transformed, observed: set<string>)
    requires Distinct(expression) && Knows(g, Idents(expression))
    modifies Idents(expression)
    ensures result == NotACall <==> !expression.Call?
    ensures expression.Call? ==> (result == Ambiguous <==> Refused(m, TreeWith(expression, g)))
    ensures result == Renamed ==> TreeOf(expression) == TwoPassesOf(m, TreeWith(expression, g))
    ensures expression.Call? ==> forall n :: n in observed <==>
      Renames(m.values, n) && SomeRefers(m, expression.args, g, |expression.args|, n)
  {
    if !expression.Call? { return NotACall, {}; }
    var walk := new Renamer(m);
    walk.CheckClosures(expression, g);
    RenameArguments(walk, expression.args, Idents(expression.fun), g);
    observed := walk.observed;
    RefusedByArgument(m, expression, g);
    if walk.ambiguity { return Ambiguous, observed; }
    RenameAllPackages(walk, expression, g);
    return Renamed, observed;
  }
}
