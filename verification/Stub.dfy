// internal/assure/code_standard.go: functions that are stubs, for they read none of their inputs or compute nothing.
module Stub {
  import opened GoSyntax
  import opened Literals
  import opened Wrappers

  // ---- What counts as reading an input ----

  // Some identifier in the expression is spelled like an input, where selectors are looked into on their left only and
  // the keys of a literal only when its map type is spelled out with it.
  predicate Reads(e: Expr, inputs: set<string>)
    decreases e, 0
  {
    match e
    case Ident(n) => n in inputs
    case Lit(_) => false
    case Selector(x, _) => Reads(x, inputs)
    case Paren(x) => Reads(x, inputs)
    case Unary(_, x) => Reads(x, inputs)
    case Binary(_, x, y) => Reads(x, inputs) || Reads(y, inputs)
    case KeyValue(k, v) => Reads(k, inputs) || Reads(v, inputs)
    case MapType(k, v) => Reads(k, inputs) || Reads(v, inputs)
    case Composite(typ, _, elements) =>
      || (typ.Some? && Reads(typ.value, inputs))
      || if typ.Some? && typ.value.MapType? then ReadsAll(elements, inputs) else ReadsElements(elements, inputs)
    case Call(f, args) => Reads(f, inputs) || ReadsAll(args, inputs)
    case FuncLit(params, body) => ReadsNames(params, inputs) || ReadsStmts(body, inputs)
    case Other(_, parts) => ReadsAll(parts, inputs)
  }

  predicate ReadsNames(names: seq<string>, inputs: set<string>) {
    exists n :: n in names && n in inputs
  }

  predicate ReadsAll(es: seq<Expr>, inputs: set<string>)
    decreases es, 0
  {
    es != [] && (Reads(es[0], inputs) || ReadsAll(es[1..], inputs))
  }

  // An element whose key, if it is an identifier, is passed over.
  predicate ReadsElement(e: Expr, inputs: set<string>)
    decreases e, 1
  {
    match e
    case KeyValue(k, v) => (!k.Ident? && Reads(k, inputs)) || Reads(v, inputs)
    case _ => Reads(e, inputs)
  }

  predicate ReadsElements(es: seq<Expr>, inputs: set<string>)
    decreases es, 0
  {
    es != [] && (ReadsElement(es[0], inputs) || ReadsElements(es[1..], inputs))
  }

  predicate ReadsStmt(stmt: Stmt, inputs: set<string>)
    decreases stmt, 0
  {
    match stmt
    case ExprStmt(x) => Reads(x, inputs)
    case Assign(targets, values) => ReadsAll(targets, inputs) || ReadsAll(values, inputs)
    case Define(names, values) => ReadsNames(names, inputs) || ReadsAll(values, inputs)
    case Return(values) => ReadsAll(values, inputs)
    case If(c, yes, no) => Reads(c, inputs) || ReadsStmts(yes, inputs) || ReadsStmts(no, inputs)
    case For(c, post, body) => Reads(c, inputs) || ReadsStmts(post, inputs) || ReadsStmts(body, inputs)
    case Range(k, v, x, body) => ReadsNames([k, v], inputs) || Reads(x, inputs) || ReadsStmts(body, inputs)
    case Block(body) => ReadsStmts(body, inputs)
    case Break => false
    case Continue => false
    case Switch(bound, tag, clauses) =>
      || (bound.Some? && bound.value in inputs) || (tag.Some? && Reads(tag.value, inputs)) || ReadsClauses(clauses, inputs)
    case Select(comms) => ReadsComms(comms, inputs)
    case Go(f, args) => Reads(f, inputs) || ReadsAll(args, inputs)
    case Defer(f, args) => Reads(f, inputs) || ReadsAll(args, inputs)
  }

  predicate ReadsClauses(clauses: seq<Clause>, inputs: set<string>)
    decreases clauses, 0
  {
    clauses != [] &&
    (ReadsAll(clauses[0].labels, inputs) || ReadsStmts(clauses[0].body, inputs) || ReadsClauses(clauses[1..], inputs))
  }

  predicate ReadsComms(comms: seq<Comm>, inputs: set<string>)
    decreases comms, 0
  {
    comms != [] &&
    (|| ReadsNames(comms[0].names, inputs) || ReadsAll(comms[0].parts, inputs) || ReadsStmts(comms[0].body, inputs)
     || ReadsComms(comms[1..], inputs))
  }

  predicate ReadsStmts(stmts: seq<Stmt>, inputs: set<string>)
    decreases stmts, 0
  {
    stmts != [] && (ReadsStmt(stmts[0], inputs) || ReadsStmts(stmts[1..], inputs))
  }

  // The walk over the body: what it has found so far, and it goes no deeper once it has found something.
  class Inspector {
    const inputs: set<string>
    var found: bool

    constructor (inputs: set<string>)
      ensures this.inputs == inputs && !found
    {
      this.inputs, found := inputs, false;
    }

    method Names(names: seq<string>)
      modifies this
      ensures found == (old(found) || ReadsNames(names, inputs))
    {
      for i := 0 to |names|
        invariant found == (old(found) || ReadsNames(names[..i], inputs))
      {
        if names[i] in inputs { found := true; }
        assert forall n :: n in names[..i + 1] <==> n in names[..i] || n == names[i];
      }
      assert names[..|names|] == names;
    }

    method Visit(e: Expr)
      modifies this
      ensures found == (old(found) || Reads(e, inputs))
      decreases e, 0
    {
      if found { return; }
      match e {
        case Ident(n) => if n in inputs { found := true; }
        case Lit(_) =>
        case Selector(x, _) => Visit(x);
        case Paren(x) => Visit(x);
        case Unary(_, x) => Visit(x);
        case Binary(_, x, y) => Visit(x); Visit(y);
        case KeyValue(k, v) => Visit(k); Visit(v);
        case MapType(k, v) => Visit(k); Visit(v);
        case Composite(typ, _, elements) =>
          if typ.Some? { Visit(typ.value); }
          if typ.Some? && typ.value.MapType? { VisitAll(elements); } else { VisitElements(elements); }
        case Call(f, args) => Visit(f); VisitAll(args);
        case FuncLit(params, body) => Names(params); VisitStmts(body);
        case Other(_, parts) => VisitAll(parts);
      }
    }

    method VisitAll(es: seq<Expr>)
      modifies this
      ensures found == (old(found) || ReadsAll(es, inputs))
      decreases es, 0
    {
      if es != [] { Visit(es[0]); VisitAll(es[1..]); }
    }

    method VisitElements(es: seq<Expr>)
      modifies this
      ensures found == (old(found) || ReadsElements(es, inputs))
      decreases es, 0
    {
      if es == [] { return; }
      match es[0] {
        case KeyValue(k, v) =>
          if !k.Ident? { Visit(k); }
          Visit(v);
        case _ => Visit(es[0]);
      }
      VisitElements(es[1..]);
    }

    method VisitStmt(stmt: Stmt)
      modifies this
      ensures found == (old(found) || ReadsStmt(stmt, inputs))
      decreases stmt, 0
    {
      if found { return; }
      match stmt {
        case ExprStmt(x) => Visit(x);
        case Assign(targets, values) => VisitAll(targets); VisitAll(values);
        case Define(names, values) => Names(names); VisitAll(values);
        case Return(values) => VisitAll(values);
        case If(c, yes, no) => Visit(c); VisitStmts(yes); VisitStmts(no);
        case For(c, post, body) => Visit(c); VisitStmts(post); VisitStmts(body);
        case Range(k, v, x, body) => Names([k, v]); Visit(x); VisitStmts(body);
        case Block(body) => VisitStmts(body);
        case Break =>
        case Continue =>
        case Switch(bound, tag, clauses) =>
          if bound.Some? && bound.value in inputs { found := true; }
          if tag.Some? { Visit(tag.value); }
          VisitClauses(clauses);
        case Select(comms) => VisitComms(comms);
        case Go(f, args) => Visit(f); VisitAll(args);
        case Defer(f, args) => Visit(f); VisitAll(args);
      }
    }

    method VisitClauses(clauses: seq<Clause>)
      modifies this
      ensures found == (old(found) || ReadsClauses(clauses, inputs))
      decreases clauses, 0
    {
      if clauses != [] {
        VisitAll(clauses[0].labels);
        VisitStmts(clauses[0].body);
        VisitClauses(clauses[1..]);
      }
    }

    method VisitComms(comms: seq<Comm>)
      modifies this
      ensures found == (old(found) || ReadsComms(comms, inputs))
      decreases comms, 0
    {
      if comms != [] {
        Names(comms[0].names);
        VisitAll(comms[0].parts);
        VisitStmts(comms[0].body);
        VisitComms(comms[1..]);
      }
    }

    method VisitStmts(stmts: seq<Stmt>)
      modifies this
      ensures found == (old(found) || ReadsStmts(stmts, inputs))
      decreases stmts, 0
    {
      if stmts != [] { VisitStmt(stmts[0]); VisitStmts(stmts[1..]); }
    }
  }

  // ---- Constants ----

  predicate IsIdent(e: Expr, name: string) {
    e == Ident(name)
  }

  // errors.New or fmt.Errorf, by name.
  predicate MakesError(f: Expr) {
    f.Selector? && ((IsIdent(f.x, "errors") && f.field == "New") || (IsIdent(f.x, "fmt") && f.field == "Errorf"))
  }

  predicate Constant(e: Expr)
    decreases e
  {
    match e
    case Ident(_) => true
    case Lit(_) => true
    case Selector(x, _) => Constant(x)
    case Paren(x) => Constant(x)
    case Unary(_, x) => Constant(x)
    case Binary(_, x, y) => Constant(x) && Constant(y)
    case KeyValue(k, v) => Constant(k) && Constant(v)
    case Composite(_, _, elements) => AllConstant(elements)
    case Call(f, args) => MakesError(f) && AllConstant(args)
    case _ => false
  }

  predicate AllConstant(es: seq<Expr>)
    decreases es
  {
    forall i | 0 <= i < |es| :: Constant(es[i])
  }

  predicate IsPanic(stmt: Stmt) {
    stmt.ExprStmt? && stmt.x.Call? && IsIdent(stmt.x.fun, "panic")
  }

  // The two kinds of statement that make no use of an input: a return, if each value is constant, and any panic.
  predicate ReturnsConstantsOrPanics(stmt: Stmt) {
    (stmt.Return? && AllConstant(stmt.values)) || IsPanic(stmt)
  }

  method OnlyConstantsOrPanics(body: seq<Stmt>) returns (only: bool)
    ensures only <==> forall i | 0 <= i < |body| :: ReturnsConstantsOrPanics(body[i])
  {
    for i := 0 to |body|
      invariant forall k | 0 <= k < i :: ReturnsConstantsOrPanics(body[k])
    {
      match body[i] {
        case Return(values) =>
          for k := 0 to |values|
            invariant forall j | 0 <= j < k :: Constant(values[j])
          {
            if !Constant(values[k]) { return false; }
          }
        case ExprStmt(x) =>
          if !x.Call? || !IsIdent(x.fun, "panic") { return false; }
        case _ => return false;
      }
    }
    return true;
  }

  // ---- Stubs ----

  // One field of a receiver or parameter list: the names that share a type, none when it is unnamed.
  type Group = seq<string>

  // A function, with the names of its results when they have names.
  datatype Function = Function(receiver: seq<Group>, params: seq<Group>, results: seq<string>, body: seq<Stmt>)

  function GroupsOf(f: Function): seq<Group> {
    f.receiver + f.params
  }

  // The inputs that can be read: those with a name that is not blank.
  ghost function Inputs(groups: seq<Group>): set<string> {
    set g, n | g in groups && n in g && n != "_" :: n
  }

  datatype Why = NoStub | ReadsNoInput | ComputesNothing

  method InputsOf(f: Function) returns (inputs: set<string>, count: nat)
    ensures inputs == Inputs(GroupsOf(f))
    ensures count == 0 <==> GroupsOf(f) == []
  {
    var groups := f.receiver + f.params;
    inputs, count := {}, 0;
    for i := 0 to |groups|
      invariant inputs == Inputs(groups[..i])
      invariant count >= i
      invariant i == 0 ==> count == 0
    {
      assert groups[..i + 1] == groups[..i] + [groups[i]];
      var names := groups[i];
      if names == [] { count := count + 1; }
      ghost var before := count;
      for k := 0 to |names|
        invariant count == before + k
        invariant inputs == Inputs(groups[..i]) + set n | n in names[..k] && n != "_"
      {
        assert names[..k + 1] == names[..k] + [names[k]];
        count := count + 1;
        if names[k] != "_" { inputs := inputs + {names[k]}; }
      }
      assert names[..|names|] == names;
    }
    assert groups[..|groups|] == groups;
  }

  predicate ReadsNoInputOf(f: Function, inputs: set<string>) {
    GroupsOf(f) != [] && !ReadsStmts(f.body, inputs)
  }

  predicate ComputesNothingIn(f: Function) {
    GroupsOf(f) == [] && forall i | 0 <= i < |f.body| :: ReturnsConstantsOrPanics(f.body[i])
  }

  method StubOf(f: Function) returns (why: Why)
    ensures why == if ReadsNoInputOf(f, Inputs(GroupsOf(f))) then ReadsNoInput
                   else if ComputesNothingIn(f) then ComputesNothing else NoStub
  {
    var inputs, count := InputsOf(f);
    var walk := new Inspector(inputs);
    walk.VisitStmts(f.body);
    if count > 0 && !walk.found { return ReadsNoInput; }
    var only := OnlyConstantsOrPanics(f.body);
    if count == 0 && only { return ComputesNothing; }
    return NoStub;
  }
}
