// The Go expressions of constructor calls, over any kind of identifier: names in a value, objects in a syntax tree.
module ConstructorSyntax {
  import opened Literals
  import opened Wrappers

  datatype TypeKind = ArrayType | MapType | StructType | InterfaceType | FuncType | ChanType

  datatype Node<I> =
    | Ident(id: I)
    | Lit(text: string)
    | Selector(x: Node<I>, sel: I)
    | Composite(typ: Option<Node<I>>, keys: Keys, elements: seq<Node<I>>)
    | KeyValue(key: Node<I>, value: Node<I>)
    | TypeNode(kind: TypeKind, labels: seq<I>, parts: seq<Node<I>>)
    | FuncLit(parts: seq<Node<I>>)
    | Call(fun: Node<I>, args: seq<Node<I>>)
    | Other(op: string, parts: seq<Node<I>>)

  predicate ExplicitMap<I>(typ: Option<Node<I>>) {
    typ.Some? && typ.value.TypeNode? && typ.value.kind.MapType?
  }

  predicate ExplicitStruct<I>(typ: Option<Node<I>>) {
    typ.Some? && typ.value.TypeNode? && typ.value.kind.StructType?
  }

  predicate Explicit<I>(typ: Option<Node<I>>) {
    ExplicitMap(typ) || ExplicitStruct(typ)
  }

  // ---- The identifiers of a tree ----

  function SetOf<I(==)>(ids: seq<I>): set<I> {
    set id | id in ids
  }

  function Idents<I(==)>(node: Node<I>): set<I>
    decreases node
  {
    match node
    case Ident(id) => {id}
    case Lit(_) => {}
    case Selector(x, sel) => Idents(x) + {sel}
    case Composite(typ, _, elements) => (if typ.Some? then Idents(typ.value) else {}) + IdentsAll(elements)
    case KeyValue(k, v) => Idents(k) + Idents(v)
    case TypeNode(_, labels, parts) => SetOf(labels) + IdentsAll(parts)
    case FuncLit(parts) => IdentsAll(parts)
    case Call(f, args) => Idents(f) + IdentsAll(args)
    case Other(_, parts) => IdentsAll(parts)
  }

  function IdentsAll<I(==)>(nodes: seq<Node<I>>): set<I>
    decreases nodes
  {
    if nodes == [] then {} else Idents(nodes[0]) + IdentsAll(nodes[1..])
  }

  lemma {:induction false} IdentsOfPart<I>(nodes: seq<Node<I>>, i: nat)
    requires i < |nodes|
    ensures Idents(nodes[i]) <= IdentsAll(nodes)
    decreases i
  {
    if i > 0 { IdentsOfPart(nodes[1..], i - 1); }
  }

  ghost predicate NoDuplicates<I>(ids: seq<I>) {
    forall i, j | 0 <= i < j < |ids| :: ids[i] != ids[j]
  }

  // Each identifier stands in one place, as the parser makes them.
  ghost predicate Distinct<I>(node: Node<I>)
    decreases node
  {
    match node
    case Ident(_) => true
    case Lit(_) => true
    case Selector(x, sel) => Distinct(x) && sel !in Idents(x)
    case Composite(typ, _, elements) =>
      && DistinctAll(elements)
      && (typ.Some? ==> Distinct(typ.value) && Idents(typ.value) !! IdentsAll(elements))
    case KeyValue(k, v) => Distinct(k) && Distinct(v) && Idents(k) !! Idents(v)
    case TypeNode(_, labels, parts) => NoDuplicates(labels) && DistinctAll(parts) && SetOf(labels) !! IdentsAll(parts)
    case FuncLit(parts) => DistinctAll(parts)
    case Call(f, args) => Distinct(f) && DistinctAll(args) && Idents(f) !! IdentsAll(args)
    case Other(_, parts) => DistinctAll(parts)
  }

  ghost predicate DistinctAll<I>(nodes: seq<Node<I>>)
    decreases nodes
  {
    nodes == [] || (Distinct(nodes[0]) && DistinctAll(nodes[1..]) && Idents(nodes[0]) !! IdentsAll(nodes[1..]))
  }

  // The identifiers in the order of a walk over the tree.
  function IdentSeq<I>(node: Node<I>): seq<I>
    decreases node
  {
    match node
    case Ident(id) => [id]
    case Lit(_) => []
    case Selector(x, sel) => IdentSeq(x) + [sel]
    case Composite(typ, _, elements) => (if typ.Some? then IdentSeq(typ.value) else []) + IdentSeqAll(elements)
    case KeyValue(k, v) => IdentSeq(k) + IdentSeq(v)
    case TypeNode(_, labels, parts) => labels + IdentSeqAll(parts)
    case FuncLit(parts) => IdentSeqAll(parts)
    case Call(f, args) => IdentSeq(f) + IdentSeqAll(args)
    case Other(_, parts) => IdentSeqAll(parts)
  }

  function IdentSeqAll<I>(nodes: seq<Node<I>>): seq<I>
    decreases nodes
  {
    if nodes == [] then [] else IdentSeq(nodes[0]) + IdentSeqAll(nodes[1..])
  }

  lemma {:induction false} IdentSeqHasIdents<I>(node: Node<I>)
    ensures SetOf(IdentSeq(node)) == Idents(node)
    decreases node
  {
    match node
    case Ident(_) =>
    case Lit(_) =>
    case Selector(x, _) => IdentSeqHasIdents(x);
    case Composite(typ, _, elements) =>
      if typ.Some? { IdentSeqHasIdents(typ.value); }
      IdentSeqAllHasIdents(elements);
    case KeyValue(k, v) => IdentSeqHasIdents(k); IdentSeqHasIdents(v);
    case TypeNode(_, _, parts) => IdentSeqAllHasIdents(parts);
    case FuncLit(parts) => IdentSeqAllHasIdents(parts);
    case Call(f, args) => IdentSeqHasIdents(f); IdentSeqAllHasIdents(args);
    case Other(_, parts) => IdentSeqAllHasIdents(parts);
  }

  lemma {:induction false} IdentSeqAllHasIdents<I>(nodes: seq<Node<I>>)
    ensures SetOf(IdentSeqAll(nodes)) == IdentsAll(nodes)
    decreases nodes
  {
    if nodes != [] {
      IdentSeqHasIdents(nodes[0]);
      IdentSeqAllHasIdents(nodes[1..]);
    }
  }

  lemma {:induction false} NoDuplicatesJoin<I>(a: seq<I>, b: seq<I>)
    requires NoDuplicates(a) && NoDuplicates(b) && SetOf(a) !! SetOf(b)
    ensures NoDuplicates(a + b)
  {
    forall i, j | 0 <= i < j < |a + b|
      ensures (a + b)[i] != (a + b)[j]
    {
      if i < |a| <= j {
        assert a[i] in SetOf(a) && b[j - |a|] in SetOf(b);
      }
    }
  }

  // A walk meets each identifier once.
  lemma {:induction false} DistinctMeetsOnce<I>(node: Node<I>)
    requires Distinct(node)
    ensures NoDuplicates(IdentSeq(node))
    decreases node, 0
  {
    match node
    case Ident(_) =>
    case Lit(_) =>
    case Selector(x, sel) =>
      DistinctMeetsOnce(x);
      IdentSeqHasIdents(x);
      NoDuplicatesJoin(IdentSeq(x), [sel]);
    case Composite(typ, _, elements) =>
      DistinctAllMeetOnce(elements);
      IdentSeqAllHasIdents(elements);
      if typ.Some? {
        DistinctMeetsOnce(typ.value);
        IdentSeqHasIdents(typ.value);
        NoDuplicatesJoin(IdentSeq(typ.value), IdentSeqAll(elements));
      } else {
        assert IdentSeq(node) == IdentSeqAll(elements);
      }
    case KeyValue(k, v) =>
      DistinctMeetsOnce(k);
      DistinctMeetsOnce(v);
      IdentSeqHasIdents(k);
      IdentSeqHasIdents(v);
      NoDuplicatesJoin(IdentSeq(k), IdentSeq(v));
    case TypeNode(_, labels, parts) =>
      DistinctAllMeetOnce(parts);
      IdentSeqAllHasIdents(parts);
      NoDuplicatesJoin(labels, IdentSeqAll(parts));
    case FuncLit(parts) => DistinctAllMeetOnce(parts);
    case Call(f, args) =>
      DistinctMeetsOnce(f);
      DistinctAllMeetOnce(args);
      IdentSeqHasIdents(f);
      IdentSeqAllHasIdents(args);
      NoDuplicatesJoin(IdentSeq(f), IdentSeqAll(args));
    case Other(_, parts) => DistinctAllMeetOnce(parts);
  }

  lemma {:induction false} DistinctAllMeetOnce<I>(nodes: seq<Node<I>>)
    requires DistinctAll(nodes)
    ensures NoDuplicates(IdentSeqAll(nodes))
    decreases nodes, 0
  {
    if nodes != [] {
      DistinctMeetsOnce(nodes[0]);
      DistinctAllMeetOnce(nodes[1..]);
      IdentSeqHasIdents(nodes[0]);
      IdentSeqAllHasIdents(nodes[1..]);
      NoDuplicatesJoin(IdentSeq(nodes[0]), IdentSeqAll(nodes[1..]));
    }
  }

  // Two parts share no identifier.
  lemma {:induction false} PartsAreDisjoint<I>(nodes: seq<Node<I>>, i: nat, j: nat)
    requires DistinctAll(nodes) && i < j < |nodes|
    ensures Idents(nodes[i]) !! Idents(nodes[j])
    ensures Distinct(nodes[i]) && Distinct(nodes[j])
    decreases i
  {
    if i > 0 {
      PartsAreDisjoint(nodes[1..], i - 1, j - 1);
    } else {
      IdentsOfPart(nodes[1..], j - 1);
      PartIsDistinct(nodes, j);
    }
  }

  lemma {:induction false} PartIsDistinct<I>(nodes: seq<Node<I>>, i: nat)
    requires DistinctAll(nodes) && i < |nodes|
    ensures Distinct(nodes[i])
    decreases i
  {
    if i > 0 { PartIsDistinct(nodes[1..], i - 1); }
  }
}
