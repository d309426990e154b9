// What the stub analysis promises: code that reads none of its inputs comes out the same whatever they are.
module StubMeaning {
  import opened GoSyntax
  import opened Literals
  import opened Stub
  import opened Wrappers

  // ---- The one place where the analysis takes a name for a field ----

  // Each identifier key that names an input, in a literal of a type that is no map type written out, is a field name.
  predicate KeysAreFields(e: Expr, inputs: set<string>)
    decreases e, 0
  {
    match e
    case Ident(_) => true
    case Lit(_) => true
    case Selector(x, _) => KeysAreFields(x, inputs)
    case Paren(x) => KeysAreFields(x, inputs)
    case Unary(_, x) => KeysAreFields(x, inputs)
    case Binary(_, x, y) => KeysAreFields(x, inputs) && KeysAreFields(y, inputs)
    case KeyValue(k, v) => KeysAreFields(k, inputs) && KeysAreFields(v, inputs)
    case MapType(k, v) => KeysAreFields(k, inputs) && KeysAreFields(v, inputs)
    case Composite(typ, keys, elements) =>
      && (typ.Some? ==> KeysAreFields(typ.value, inputs))
      && if typ.Some? && typ.value.MapType? then KeysAreFieldsAll(elements, inputs) else KeysAreFieldsIn(keys, elements, inputs)
    case Call(f, args) => KeysAreFields(f, inputs) && KeysAreFieldsAll(args, inputs)
    case FuncLit(_, body) => KeysAreFieldsStmts(body, inputs)
    case Other(_, parts) => KeysAreFieldsAll(parts, inputs)
  }

  predicate KeysAreFieldsAll(es: seq<Expr>, inputs: set<string>)
    decreases es, 0
  {
    es == [] || (KeysAreFields(es[0], inputs) && KeysAreFieldsAll(es[1..], inputs))
  }

  predicate KeysAreFieldsIn(keys: Keys, es: seq<Expr>, inputs: set<string>)
    decreases es, 0
  {
    es == [] ||
    (&& (match es[0]
         case KeyValue(k, v) =>
           && (if k.Ident? then k.name in inputs ==> keys.Fields? else KeysAreFields(k, inputs))
           && KeysAreFields(v, inputs)
         case e => KeysAreFields(e, inputs))
     && KeysAreFieldsIn(keys, es[1..], inputs))
  }

  predicate KeysAreFieldsStmt(stmt: Stmt, inputs: set<string>)
    decreases stmt, 0
  {
    match stmt
    case ExprStmt(x) => KeysAreFields(x, inputs)
    case Assign(targets, values) => KeysAreFieldsAll(targets, inputs) && KeysAreFieldsAll(values, inputs)
    case Define(_, values) => KeysAreFieldsAll(values, inputs)
    case Return(values) => KeysAreFieldsAll(values, inputs)
    case If(c, yes, no) => KeysAreFields(c, inputs) && KeysAreFieldsStmts(yes, inputs) && KeysAreFieldsStmts(no, inputs)
    case For(c, post, body) => KeysAreFields(c, inputs) && KeysAreFieldsStmts(post, inputs) && KeysAreFieldsStmts(body, inputs)
    case Range(_, _, x, body) => KeysAreFields(x, inputs) && KeysAreFieldsStmts(body, inputs)
    case Block(body) => KeysAreFieldsStmts(body, inputs)
    case Break => true
    case Continue => true
    case Switch(_, tag, clauses) => (tag.Some? ==> KeysAreFields(tag.value, inputs)) && KeysAreFieldsClauses(clauses, inputs)
    case Select(comms) => KeysAreFieldsComms(comms, inputs)
    case Go(f, args) => KeysAreFields(f, inputs) && KeysAreFieldsAll(args, inputs)
    case Defer(f, args) => KeysAreFields(f, inputs) && KeysAreFieldsAll(args, inputs)
  }

  predicate KeysAreFieldsClauses(clauses: seq<Clause>, inputs: set<string>)
    decreases clauses, 0
  {
    clauses == [] ||
    (&& KeysAreFieldsAll(clauses[0].labels, inputs) && KeysAreFieldsStmts(clauses[0].body, inputs)
     && KeysAreFieldsClauses(clauses[1..], inputs))
  }

  predicate KeysAreFieldsComms(comms: seq<Comm>, inputs: set<string>)
    decreases comms, 0
  {
    comms == [] ||
    (&& KeysAreFieldsAll(comms[0].parts, inputs) && KeysAreFieldsStmts(comms[0].body, inputs)
     && KeysAreFieldsComms(comms[1..], inputs))
  }

  predicate KeysAreFieldsStmts(stmts: seq<Stmt>, inputs: set<string>)
    decreases stmts, 0
  {
    stmts == [] || (KeysAreFieldsStmt(stmts[0], inputs) && KeysAreFieldsStmts(stmts[1..], inputs))
  }

  // ---- Where no read is found, the code looks up no input exactly when such keys are field names ----

  lemma {:induction false} ReadsCovers(e: Expr, inputs: set<string>)
    requires !Reads(e, inputs)
    ensures NamesOf(e) !! inputs <==> KeysAreFields(e, inputs)
    decreases e, 0
  {
    match e
    case Ident(_) =>
    case Lit(_) =>
    case Selector(x, _) => ReadsCovers(x, inputs);
    case Paren(x) => ReadsCovers(x, inputs);
    case Unary(_, x) => ReadsCovers(x, inputs);
    case Binary(_, x, y) => ReadsCovers(x, inputs); ReadsCovers(y, inputs);
    case KeyValue(k, v) => ReadsCovers(k, inputs); ReadsCovers(v, inputs);
    case MapType(k, v) => ReadsCovers(k, inputs); ReadsCovers(v, inputs);
    case Composite(typ, keys, elements) =>
      if typ.Some? { ReadsCovers(typ.value, inputs); }
      if typ.Some? && typ.value.MapType? {
        ReadsCoversMap(keys, elements, inputs);
      } else {
        ReadsCoversElements(keys, elements, inputs);
      }
    case Call(f, args) => ReadsCovers(f, inputs); ReadsCoversAll(args, inputs);
    case FuncLit(_, body) => ReadsCoversStmts(body, inputs);
    case Other(_, parts) => ReadsCoversAll(parts, inputs);
  }

  lemma {:induction false} ReadsCoversAll(es: seq<Expr>, inputs: set<string>)
    requires !ReadsAll(es, inputs)
    ensures NamesOfAll(es) !! inputs <==> KeysAreFieldsAll(es, inputs)
    decreases es, 0
  {
    if es != [] {
      ReadsCovers(es[0], inputs);
      ReadsCoversAll(es[1..], inputs);
    }
  }

  // In a literal of a written-out map type an identifier key is read like any other.
  lemma {:induction false} ReadsCoversMap(keys: Keys, es: seq<Expr>, inputs: set<string>)
    requires !ReadsAll(es, inputs)
    ensures NamesOfElements(keys, es) !! inputs <==> KeysAreFieldsAll(es, inputs)
    decreases es, 0
  {
    if es != [] {
      match es[0] {
        case KeyValue(k, v) => ReadsCovers(k, inputs); ReadsCovers(v, inputs);
        case e => ReadsCovers(e, inputs);
      }
      ReadsCoversMap(keys, es[1..], inputs);
    }
  }

  lemma {:induction false} ReadsCoversElements(keys: Keys, es: seq<Expr>, inputs: set<string>)
    requires !ReadsElements(es, inputs)
    ensures NamesOfElements(keys, es) !! inputs <==> KeysAreFieldsIn(keys, es, inputs)
    decreases es, 0
  {
    if es != [] {
      match es[0] {
        case KeyValue(k, v) =>
          if !k.Ident? { ReadsCovers(k, inputs); }
          ReadsCovers(v, inputs);
        case e => ReadsCovers(e, inputs);
      }
      ReadsCoversElements(keys, es[1..], inputs);
    }
  }

  lemma {:induction false} ReadsCoversStmt(stmt: Stmt, inputs: set<string>)
    requires !ReadsStmt(stmt, inputs)
    ensures NamesOfStmt(stmt) !! inputs <==> KeysAreFieldsStmt(stmt, inputs)
    decreases stmt, 0
  {
    match stmt
    case ExprStmt(x) => ReadsCovers(x, inputs);
    case Assign(targets, values) => ReadsCoversAll(targets, inputs); ReadsCoversAll(values, inputs);
    case Define(_, values) => ReadsCoversAll(values, inputs);
    case Return(values) => ReadsCoversAll(values, inputs);
    case If(c, yes, no) => ReadsCovers(c, inputs); ReadsCoversStmts(yes, inputs); ReadsCoversStmts(no, inputs);
    case For(c, post, body) => ReadsCovers(c, inputs); ReadsCoversStmts(post, inputs); ReadsCoversStmts(body, inputs);
    case Range(_, _, x, body) => ReadsCovers(x, inputs); ReadsCoversStmts(body, inputs);
    case Block(body) => ReadsCoversStmts(body, inputs);
    case Break =>
    case Continue =>
    case Switch(_, tag, clauses) =>
      if tag.Some? { ReadsCovers(tag.value, inputs); }
      ReadsCoversClauses(clauses, inputs);
    case Select(comms) => ReadsCoversComms(comms, inputs);
    case Go(f, args) => ReadsCovers(f, inputs); ReadsCoversAll(args, inputs);
    case Defer(f, args) => ReadsCovers(f, inputs); ReadsCoversAll(args, inputs);
  }

  lemma {:induction false} ReadsCoversClauses(clauses: seq<Clause>, inputs: set<string>)
    requires !ReadsClauses(clauses, inputs)
    ensures NamesOfClauses(clauses) !! inputs <==> KeysAreFieldsClauses(clauses, inputs)
    decreases clauses, 0
  {
    if clauses != [] {
      ReadsCoversAll(clauses[0].labels, inputs);
      ReadsCoversStmts(clauses[0].body, inputs);
      ReadsCoversClauses(clauses[1..], inputs);
    }
  }

  lemma {:induction false} ReadsCoversComms(comms: seq<Comm>, inputs: set<string>)
    requires !ReadsComms(comms, inputs)
    ensures NamesOfComms(comms) !! inputs <==> KeysAreFieldsComms(comms, inputs)
    decreases comms, 0
  {
    if comms != [] {
      ReadsCoversAll(comms[0].parts, inputs);
      ReadsCoversStmts(comms[0].body, inputs);
      ReadsCoversComms(comms[1..], inputs);
    }
  }

  lemma {:induction false} ReadsCoversStmts(stmts: seq<Stmt>, inputs: set<string>)
    requires !ReadsStmts(stmts, inputs)
    ensures NamesOfStmts(stmts) !! inputs <==> KeysAreFieldsStmts(stmts, inputs)
    decreases stmts, 0
  {
    if stmts != [] {
      ReadsCoversStmt(stmts[0], inputs);
      ReadsCoversStmts(stmts[1..], inputs);
    }
  }

  // ---- Two environments that differ on the inputs alone ----

  ghost predicate SameScope<V>(a: map<string, V>, b: map<string, V>, inputs: set<string>) {
    forall n | n !in inputs :: (n in a <==> n in b) && (n in a ==> a[n] == b[n])
  }

  ghost predicate Same<V>(a: Env<V>, b: Env<V>, inputs: set<string>) {
    |a| == |b| && forall i | 0 <= i < |a| :: SameScope(a[i], b[i], inputs)
  }

  lemma {:induction false} SameFind<V>(a: Env<V>, b: Env<V>, inputs: set<string>, n: string)
    requires Same(a, b, inputs) && n !in inputs
    ensures Find(a, n) == Find(b, n)
    decreases a
  {
    if a != [] {
      assert SameScope(a[0], b[0], inputs);
      SameFind(a[1..], b[1..], inputs, n);
    }
  }

  lemma {:induction false} SameCaptured<V>(a: Env<V>, b: Env<V>, inputs: set<string>, names: set<string>)
    requires Same(a, b, inputs) && names !! inputs
    ensures Captured(a, names) == Captured(b, names)
  {
    forall n | n in names
      ensures Find(a, n) == Find(b, n)
    {
      SameFind(a, b, inputs, n);
    }
  }

  lemma {:induction false} SameUpdate<V>(a: Env<V>, b: Env<V>, inputs: set<string>, n: string, v: V)
    requires Same(a, b, inputs) && n !in inputs
    ensures Same(Update(a, n, v), Update(b, n, v), inputs)
    decreases a
  {
    if a != [] {
      assert SameScope(a[0], b[0], inputs);
      SameUpdate(a[1..], b[1..], inputs, n, v);
    }
  }

  lemma {:induction false} SameDeclareAll<V>(a: Env<V>, b: Env<V>, inputs: set<string>, names: seq<string>, vs: seq<V>)
    requires Same(a, b, inputs)
    ensures Same(DeclareAll(a, names, vs), DeclareAll(b, names, vs), inputs)
    decreases names
  {
    if names != [] && vs != [] {
      SameDeclare(a, b, inputs, names[0], vs[0]);
      SameDeclareAll(Declare(a, names[0], vs[0]), Declare(b, names[0], vs[0]), inputs, names[1..], vs[1..]);
    }
  }

  lemma {:induction false} SameScopeDeclare<V>(a: map<string, V>, b: map<string, V>, inputs: set<string>, name: string,
          v: V)
    requires SameScope(a, b, inputs)
    ensures SameScope(a[name := v], b[name := v], inputs)
  {
  }

  lemma {:induction false} SameFirst<V>(x: map<string, V>, y: map<string, V>, a: Env<V>, b: Env<V>, inputs: set<string>)
    requires SameScope(x, y, inputs) && Same(a, b, inputs)
    ensures Same([x] + a, [y] + b, inputs)
  {
    var p, q := [x] + a, [y] + b;
    forall i | 0 <= i < |p|
      ensures SameScope(p[i], q[i], inputs)
    {
      if i > 0 { assert p[i] == a[i - 1] && q[i] == b[i - 1]; }
    }
  }

  lemma {:induction false} SameDeclare<V>(a: Env<V>, b: Env<V>, inputs: set<string>, name: string, v: V)
    requires Same(a, b, inputs)
    ensures Same(Declare(a, name, v), Declare(b, name, v), inputs)
  {
    if a != [] && name != "_" {
      assert SameScope(a[0], b[0], inputs);
      SameScopeDeclare(a[0], b[0], inputs, name, v);
      SameFirst(a[0][name := v], b[0][name := v], a[1..], b[1..], inputs);
    }
  }

  lemma {:induction false} SameEval<V, S>(w: World<V, S>, a: Env<V>, b: Env<V>, inputs: set<string>, s: S, e: Expr)
    requires Same(a, b, inputs) && NamesOf(e) !! inputs
    ensures Eval(w, a, s, e) == Eval(w, b, s, e)
    decreases e, 0
  {
    match e
    case Ident(n) => SameFind(a, b, inputs, n);
    case Lit(_) =>
    case Selector(x, _) => SameEval(w, a, b, inputs, s, x);
    case Paren(x) => SameEval(w, a, b, inputs, s, x);
    case Unary(_, x) => SameEval(w, a, b, inputs, s, x);
    case Binary(_, x, y) =>
      SameEval(w, a, b, inputs, s, x);
      SameEval(w, a, b, inputs, Eval(w, a, s, x).state, y);
    case KeyValue(k, v) =>
      SameEval(w, a, b, inputs, s, k);
      SameEval(w, a, b, inputs, Eval(w, a, s, k).state, v);
    case MapType(_, _) => SameCaptured(a, b, inputs, NamesOf(e));
    case Composite(typ, keys, elements) =>
      if typ.Some? { SameCaptured(a, b, inputs, NamesOf(typ.value)); }
      SameElements(w, a, b, inputs, s, keys, elements);
    case Call(f, args) =>
      SameEval(w, a, b, inputs, s, f);
      SameAll(w, a, b, inputs, Eval(w, a, s, f).state, args);
    case FuncLit(_, body) => SameCaptured(a, b, inputs, NamesOfStmts(body));
    case Other(_, parts) => SameAll(w, a, b, inputs, s, parts);
  }

  lemma {:induction false} SameAll<V, S>(w: World<V, S>, a: Env<V>, b: Env<V>, inputs: set<string>, s: S, es: seq<Expr>)
    requires Same(a, b, inputs) && NamesOfAll(es) !! inputs
    ensures EvalAll(w, a, s, es) == EvalAll(w, b, s, es)
    decreases es, 0
  {
    if es != [] {
      SameEval(w, a, b, inputs, s, es[0]);
      SameAll(w, a, b, inputs, Eval(w, a, s, es[0]).state, es[1..]);
    }
  }

  lemma {:induction false} SameElements<V, S>(w: World<V, S>, a: Env<V>, b: Env<V>, inputs: set<string>, s: S,
          keys: Keys, es: seq<Expr>)
    requires Same(a, b, inputs) && NamesOfElements(keys, es) !! inputs
    ensures EvalElements(w, a, s, keys, es) == EvalElements(w, b, s, keys, es)
    decreases es, 0
  {
    if es != [] {
      match es[0] {
        case KeyValue(k, v) =>
          if k.Ident? && keys.Fields? {
            SameEval(w, a, b, inputs, s, v);
          } else {
            SameEval(w, a, b, inputs, s, k);
            SameEval(w, a, b, inputs, Eval(w, a, s, k).state, v);
          }
        case e => SameEval(w, a, b, inputs, s, e);
      }
      SameElements(w, a, b, inputs, EvalElement(w, a, s, keys, es[0]).state, keys, es[1..]);
    }
  }

  // No place is an input, and the places are the same.
  ghost predicate SamePlaces<S, V>(x: Outcomes<S, Place<V>, V>, y: Outcomes<S, Place<V>, V>, inputs: set<string>) {
    x == y && (x.All? ==> forall p | p in x.values :: p.Name? ==> p.name !in inputs)
  }

  lemma {:induction false} SamePlace<V, S>(w: World<V, S>, a: Env<V>, b: Env<V>, inputs: set<string>, s: S, e: Expr)
    requires Same(a, b, inputs) && NamesOf(e) !! inputs
    ensures SamePlaces(EvalPlace(w, a, s, e), EvalPlace(w, b, s, e), inputs)
    decreases e
  {
    match e
    case Ident(_) =>
    case Paren(x) => SamePlace(w, a, b, inputs, s, x);
    case Selector(x, _) => SameEval(w, a, b, inputs, s, x);
    case Other(_, parts) => SameAll(w, a, b, inputs, s, parts);
    case _ => SameEval(w, a, b, inputs, s, e);
  }

  lemma {:induction false} SameTargets<V, S>(w: World<V, S>, a: Env<V>, b: Env<V>, inputs: set<string>, s: S,
          es: seq<Expr>)
    requires Same(a, b, inputs) && NamesOfAll(es) !! inputs
    ensures SamePlaces(EvalPlaces(w, a, s, es), EvalPlaces(w, b, s, es), inputs)
    decreases es
  {
    if es != [] {
      SamePlace(w, a, b, inputs, s, es[0]);
      SameTargets(w, a, b, inputs, EvalPlace(w, a, s, es[0]).state, es[1..]);
    }
  }

  // Two runs that end alike, in environments that differ on the inputs alone.
  ghost predicate SameRun<S, V>(x: Run<S, V>, y: Run<S, V>, inputs: set<string>) {
    match x
    case Next(env, s) => y.Next? && y.state == s && Same(env, y.env, inputs)
    case Broke(env, s) => y.Broke? && y.state == s && Same(env, y.env, inputs)
    case Continued(env, s) => y.Continued? && y.state == s && Same(env, y.env, inputs)
    case Bare(env, s) => y.Bare? && y.state == s && Same(env, y.env, inputs)
    case _ => x == y
  }

  lemma {:induction false} SameAssign<V, S>(w: World<V, S>, a: Env<V>, b: Env<V>, inputs: set<string>, s: S,
          places: seq<Place<V>>, vs: seq<V>)
    requires Same(a, b, inputs)
    requires forall p | p in places :: p.Name? ==> p.name !in inputs
    ensures SameRun(AssignAll(w, a, s, places, vs), AssignAll(w, b, s, places, vs), inputs)
    decreases places
  {
    if places != [] && vs != [] {
      if places[0].Name? {
        assert places[0] in places;
        SameUpdate(a, b, inputs, places[0].name, vs[0]);
        SameAssign(w, Update(a, places[0].name, vs[0]), Update(b, places[0].name, vs[0]), inputs, s, places[1..], vs[1..]);
      } else {
        SameAssign(w, a, b, inputs, w.store(s, places[0], vs[0]).state, places[1..], vs[1..]);
      }
    }
  }

  lemma {:induction false} SameLeave<S, V>(x: Run<S, V>, y: Run<S, V>, inputs: set<string>)
    requires SameRun(x, y, inputs)
    ensures SameRun(Leave(x), Leave(y), inputs)
  {
  }

  lemma {:induction false} SameBlock<V, S>(w: World<V, S>, a: Env<V>, b: Env<V>, inputs: set<string>, s: S, fuel: nat,
          stmts: seq<Stmt>)
    requires Same(a, b, inputs) && NamesOfStmts(stmts) !! inputs
    ensures SameRun(ExecBlock(w, a, s, fuel, stmts), ExecBlock(w, b, s, fuel, stmts), inputs)
    decreases fuel, stmts, 1
  {
    var inner: map<string, V> := map[];
    SameExecAll(w, [inner] + a, [inner] + b, inputs, s, fuel, stmts);
    SameLeave(ExecAll(w, [inner] + a, s, fuel, stmts), ExecAll(w, [inner] + b, s, fuel, stmts), inputs);
  }

  lemma {:induction false} SameExecAll<V, S>(w: World<V, S>, a: Env<V>, b: Env<V>, inputs: set<string>, s: S,
          fuel: nat, stmts: seq<Stmt>)
    requires Same(a, b, inputs) && NamesOfStmts(stmts) !! inputs
    ensures SameRun(ExecAll(w, a, s, fuel, stmts), ExecAll(w, b, s, fuel, stmts), inputs)
    decreases fuel, stmts, 0
  {
    if stmts != [] {
      SameExec(w, a, b, inputs, s, fuel, stmts[0]);
      var x, y := Exec(w, a, s, fuel, stmts[0]), Exec(w, b, s, fuel, stmts[0]);
      if x.Next? {
        SameExecAll(w, x.env, y.env, inputs, x.state, fuel, stmts[1..]);
      }
    }
  }

  lemma {:induction false} SameExec<V, S>(w: World<V, S>, a: Env<V>, b: Env<V>, inputs: set<string>, s: S, fuel: nat,
          stmt: Stmt)
    requires Same(a, b, inputs) && NamesOfStmt(stmt) !! inputs
    ensures SameRun(Exec(w, a, s, fuel, stmt), Exec(w, b, s, fuel, stmt), inputs)
    decreases fuel, stmt, 1
  {
    match stmt
    case ExprStmt(x) => SameEval(w, a, b, inputs, s, x);
    case Assign(targets, values) =>
      SameTargets(w, a, b, inputs, s, targets);
      var places := EvalPlaces(w, a, s, targets);
      SameAll(w, a, b, inputs, places.state, values);
      var vs := EvalAll(w, a, places.state, values);
      if places.All? && vs.All? {
        SameAssign(w, a, b, inputs, vs.state, places.values, Spread(w, vs.values, |targets|));
      }
    case Define(names, values) =>
      SameAll(w, a, b, inputs, s, values);
      var vs := EvalAll(w, a, s, values);
      if vs.All? {
        SameDeclareAll(a, b, inputs, names, Spread(w, vs.values, |names|));
      }
    case Return(values) => SameAll(w, a, b, inputs, s, values);
    case If(c, yes, no) =>
      SameEval(w, a, b, inputs, s, c);
      SameBlock(w, a, b, inputs, Eval(w, a, s, c).state, fuel, yes);
      SameBlock(w, a, b, inputs, Eval(w, a, s, c).state, fuel, no);
    case For(c, post, body) => SameLoop(w, a, b, inputs, s, fuel, c, post, body);
    case Range(k, v, x, body) =>
      SameEval(w, a, b, inputs, s, x);
      var items := Eval(w, a, s, x);
      SameItems(w, a, b, inputs, items.state, fuel, k, v, w.items(items.state, items.value), body);
    case Block(body) => SameBlock(w, a, b, inputs, s, fuel, body);
    case Break =>
    case Continue =>
    case Switch(bound, tag, clauses) => SameSwitch(w, a, b, inputs, s, fuel, bound, tag, clauses);
    case Select(comms) =>
      SameComms(w, a, b, inputs, s, comms);
      var parts := EvalComms(w, a, s, comms);
      if parts.All? {
        var chosen := w.wait(parts.state, parts.values);
        if chosen.k < |comms| {
          NamesOfOneComm(comms, chosen.k);
          SameClause(w, a, b, inputs, chosen.state, fuel, comms[chosen.k].names, chosen.received, comms[chosen.k].body);
        }
      }
    case Go(f, args) => SameCall(w, a, b, inputs, s, f, args);
    case Defer(f, args) => SameCall(w, a, b, inputs, s, f, args);
  }

  lemma {:induction false} SameSwitch<V, S>(w: World<V, S>, a: Env<V>, b: Env<V>, inputs: set<string>, s: S, fuel: nat,
          bound: Option<string>, tag: Option<Expr>, clauses: seq<Clause>)
    requires Same(a, b, inputs) && NamesOfStmt(Switch(bound, tag, clauses)) !! inputs
    ensures SameRun(Exec(w, a, s, fuel, Switch(bound, tag, clauses)), Exec(w, b, s, fuel, Switch(bound, tag, clauses)), inputs)
    decreases fuel, Switch(bound, tag, clauses), 0
  {
    if tag.Some? { SameEval(w, a, b, inputs, s, tag.value); }
    var t := EvalTag(w, a, s, tag);
    if t.All? {
      SamePick(w, a, b, inputs, t.state, bound.Some?, t.values, clauses);
      var picked := Pick(w, a, t.state, bound.Some?, t.values, clauses);
      if picked.Picked? {
        var k := if picked.k < |clauses| then picked.k else DefaultOf(clauses);
        SameClauses(w, a, b, inputs, picked.state, fuel, if bound.Some? then [bound.value] else [], t.values, clauses, k);
      }
    }
  }

  lemma {:induction false} SameCall<V, S>(w: World<V, S>, a: Env<V>, b: Env<V>, inputs: set<string>, s: S, f: Expr,
          args: seq<Expr>)
    requires Same(a, b, inputs) && NamesOf(f) + NamesOfAll(args) !! inputs
    ensures EvalCall(w, a, s, f, args) == EvalCall(w, b, s, f, args)
  {
    SameEval(w, a, b, inputs, s, f);
    SameAll(w, a, b, inputs, Eval(w, a, s, f).state, args);
  }

  lemma {:induction false} SameAnyFits<V, S>(w: World<V, S>, a: Env<V>, b: Env<V>, inputs: set<string>, s: S,
          typed: bool, tag: seq<V>, labels: seq<Expr>)
    requires Same(a, b, inputs) && NamesOfAll(labels) !! inputs
    ensures AnyFits(w, a, s, typed, tag, labels) == AnyFits(w, b, s, typed, tag, labels)
    decreases labels
  {
    if labels != [] {
      SameEval(w, a, b, inputs, s, labels[0]);
      SameCaptured(a, b, inputs, NamesOf(labels[0]));
      SameAnyFits(w, a, b, inputs, Fits(w, a, s, typed, tag, labels[0]).state, typed, tag, labels[1..]);
    }
  }

  lemma {:induction false} SamePick<V, S>(w: World<V, S>, a: Env<V>, b: Env<V>, inputs: set<string>, s: S, typed: bool,
          tag: seq<V>, clauses: seq<Clause>)
    requires Same(a, b, inputs) && NamesOfClauses(clauses) !! inputs
    ensures Pick(w, a, s, typed, tag, clauses) == Pick(w, b, s, typed, tag, clauses)
    decreases clauses
  {
    if clauses != [] {
      SameAnyFits(w, a, b, inputs, s, typed, tag, clauses[0].labels);
      SamePick(w, a, b, inputs, AnyFits(w, a, s, typed, tag, clauses[0].labels).state, typed, tag, clauses[1..]);
    }
  }

  lemma {:induction false} SameComms<V, S>(w: World<V, S>, a: Env<V>, b: Env<V>, inputs: set<string>, s: S,
          comms: seq<Comm>)
    requires Same(a, b, inputs) && NamesOfComms(comms) !! inputs
    ensures EvalComms(w, a, s, comms) == EvalComms(w, b, s, comms)
    decreases comms
  {
    if comms != [] {
      SameAll(w, a, b, inputs, s, comms[0].parts);
      SameComms(w, a, b, inputs, EvalAll(w, a, s, comms[0].parts).state, comms[1..]);
    }
  }

  lemma {:induction false} NamesOfOneComm(comms: seq<Comm>, k: nat)
    requires k < |comms|
    ensures NamesOfStmts(comms[k].body) <= NamesOfComms(comms)
  {
    if k > 0 { NamesOfOneComm(comms[1..], k - 1); }
  }

  // The body of a clause, in a scope of its own.
  lemma {:induction false} SameScoped<V, S>(w: World<V, S>, a: Env<V>, b: Env<V>, inputs: set<string>, s: S, fuel: nat,
          names: seq<string>, vs: seq<V>, body: seq<Stmt>)
    requires Same(a, b, inputs) && NamesOfStmts(body) !! inputs
    ensures
      var x := Leave(ExecAll(w, DeclareAll([map[]] + a, names, vs), s, fuel, body));
      var y := Leave(ExecAll(w, DeclareAll([map[]] + b, names, vs), s, fuel, body));
      SameRun(x, y, inputs)
    decreases fuel, body, 2
  {
    var inner: map<string, V> := map[];
    SameFirst(inner, inner, a, b, inputs);
    SameDeclareAll([inner] + a, [inner] + b, inputs, names, vs);
    var scopeA, scopeB := DeclareAll([inner] + a, names, vs), DeclareAll([inner] + b, names, vs);
    SameExecAll(w, scopeA, scopeB, inputs, s, fuel, body);
    SameLeave(ExecAll(w, scopeA, s, fuel, body), ExecAll(w, scopeB, s, fuel, body), inputs);
  }

  lemma {:induction false} SameClause<V, S>(w: World<V, S>, a: Env<V>, b: Env<V>, inputs: set<string>, s: S, fuel: nat,
          names: seq<string>, vs: seq<V>, body: seq<Stmt>)
    requires Same(a, b, inputs) && NamesOfStmts(body) !! inputs
    ensures SameRun(ExecClause(w, a, s, fuel, names, vs, body), ExecClause(w, b, s, fuel, names, vs, body), inputs)
    decreases fuel, body, 3
  {
    SameScoped(w, a, b, inputs, s, fuel, names, vs, body);
  }

  lemma {:induction false} SameClauses<V, S>(w: World<V, S>, a: Env<V>, b: Env<V>, inputs: set<string>, s: S,
          fuel: nat, names: seq<string>, vs: seq<V>, clauses: seq<Clause>, k: nat)
    requires Same(a, b, inputs) && NamesOfClauses(clauses) !! inputs
    ensures SameRun(ExecClauses(w, a, s, fuel, names, vs, clauses, k), ExecClauses(w, b, s, fuel, names, vs, clauses, k), inputs)
    decreases fuel, clauses, 3
  {
    if clauses != [] {
      if k > 0 {
        SameClauses(w, a, b, inputs, s, fuel, names, vs, clauses[1..], k - 1);
      } else {
        SameScoped(w, a, b, inputs, s, fuel, names, vs, clauses[0].body);
        var x := Leave(ExecAll(w, DeclareAll([map[]] + a, names, vs), s, fuel, clauses[0].body));
        var y := Leave(ExecAll(w, DeclareAll([map[]] + b, names, vs), s, fuel, clauses[0].body));
        if x.Next? && clauses[0].falls {
          SameClauses(w, x.env, y.env, inputs, x.state, fuel, names, vs, clauses[1..], 0);
        }
      }
    }
  }

  lemma {:induction false} SameLoop<V, S>(w: World<V, S>, a: Env<V>, b: Env<V>, inputs: set<string>, s: S, fuel: nat,
          c: Expr, post: seq<Stmt>, body: seq<Stmt>)
    requires Same(a, b, inputs) && NamesOfStmt(For(c, post, body)) !! inputs
    ensures SameRun(Exec(w, a, s, fuel, For(c, post, body)), Exec(w, b, s, fuel, For(c, post, body)), inputs)
    decreases fuel, For(c, post, body), 0
  {
    SameEval(w, a, b, inputs, s, c);
    var t := Eval(w, a, s, c);
    SameBlock(w, a, b, inputs, t.state, fuel, body);
    var x, y := ExecBlock(w, a, t.state, fuel, body), ExecBlock(w, b, t.state, fuel, body);
    if x.Next? || x.Continued? {
      SameBlock(w, x.env, y.env, inputs, x.state, fuel, post);
      var p, q := ExecBlock(w, x.env, x.state, fuel, post), ExecBlock(w, y.env, y.state, fuel, post);
      if p.Next? && fuel > 0 {
        SameExec(w, p.env, q.env, inputs, p.state, fuel - 1, For(c, post, body));
      }
    }
  }

  lemma {:induction false} SameItems<V, S>(w: World<V, S>, a: Env<V>, b: Env<V>, inputs: set<string>, s: S, fuel: nat,
          k: string, v: string, items: seq<(V, V)>, body: seq<Stmt>)
    requires Same(a, b, inputs) && NamesOfStmts(body) !! inputs
    ensures SameRun(ExecItems(w, a, s, fuel, k, v, items, body), ExecItems(w, b, s, fuel, k, v, items, body), inputs)
    decreases fuel, body, 2, items
  {
    if items != [] {
      var inner: map<string, V> := map[];
      SameDeclare([inner] + a, [inner] + b, inputs, k, items[0].0);
      SameDeclare(Declare([inner] + a, k, items[0].0), Declare([inner] + b, k, items[0].0), inputs, v, items[0].1);
      var scopeA := Declare(Declare([inner] + a, k, items[0].0), v, items[0].1);
      var scopeB := Declare(Declare([inner] + b, k, items[0].0), v, items[0].1);
      SameExecAll(w, scopeA, scopeB, inputs, s, fuel, body);
      SameLeave(ExecAll(w, scopeA, s, fuel, body), ExecAll(w, scopeB, s, fuel, body), inputs);
      var x, y := Leave(ExecAll(w, scopeA, s, fuel, body)), Leave(ExecAll(w, scopeB, s, fuel, body));
      if x.Next? || x.Continued? {
        SameItems(w, x.env, y.env, inputs, x.state, fuel, k, v, items[1..], body);
      }
    }
  }

  // ---- A function that reads none of its inputs ----

  function LookupAll<V, S>(w: World<V, S>, env: Env<V>, names: seq<string>): seq<V> {
    if names == [] then [] else [Lookup(w, env, names[0])] + LookupAll(w, env, names[1..])
  }

  // How the body of a function ends: a return without values gives what the named results are then.
  function EndingOf<S, V>(w: World<V, S>, results: seq<string>, run: Run<S, V>): Ending<S, V> {
    match run
    case Returned(s, vs) => Results(s, vs)
    case Bare(env, s) => Results(s, LookupAll(w, env, results))
    case Crashed(s, v) => Panic(s, v)
    case OutOfFuel => Unfinished
    case Next(_, s) => Results(s, [])
    case Broke(_, s) => Results(s, [])
    case Continued(_, s) => Results(s, [])
  }

  function Zeros<V, S>(w: World<V, S>, names: seq<string>): seq<V> {
    seq(|names|, i requires 0 <= i < |names| => w.zero(names[i]))
  }

  // The scope of the function: its inputs, and its named results before anything is assigned to them.
  function ScopeOf<V, S>(w: World<V, S>, f: Function, inputs: map<string, V>, outer: Env<V>): Env<V> {
    DeclareAll([inputs] + outer, f.results, Zeros(w, f.results))
  }

  // Runs the body where the inputs have these values, in the scopes of its package.
  function BodyOf<V, S>(w: World<V, S>, f: Function, inputs: map<string, V>, outer: Env<V>, s: S,
          fuel: nat): Ending<S, V> {
    EndingOf(w, f.results, ExecAll(w, ScopeOf(w, f, inputs, outer), s, fuel, f.body))
  }

  // Calls the function: runs its body, and then the calls that it deferred.
  function CallOf<V, S>(w: World<V, S>, f: Function, inputs: map<string, V>, outer: Env<V>, s: S,
          fuel: nat): Ending<S, V> {
    w.unwind(BodyOf(w, f, inputs, outer, s, fuel))
  }

  lemma {:induction false} SameLookups<V, S>(w: World<V, S>, a: Env<V>, b: Env<V>, inputs: set<string>,
          names: seq<string>)
    requires Same(a, b, inputs) && forall n | n in names :: n !in inputs
    ensures LookupAll(w, a, names) == LookupAll(w, b, names)
  {
    if names != [] {
      SameFind(a, b, inputs, names[0]);
      SameLookups(w, a, b, inputs, names[1..]);
    }
  }

  // A function flagged for reading none of its inputs gives the same results, the same effects and the same panic
  // whatever they are, if each key that is taken for a field name is one. No result has the name of an input: the
  // language refuses that.
  lemma {:induction false} StubIgnoresItsInputs<V, S>(w: World<V, S>, f: Function, a: map<string, V>,
          b: map<string, V>, outer: Env<V>, s: S, fuel: nat)
    requires ReadsNoInputOf(f, Inputs(GroupsOf(f)))
    requires a.Keys <= Inputs(GroupsOf(f)) && b.Keys <= Inputs(GroupsOf(f))
    requires forall n | n in f.results :: n !in Inputs(GroupsOf(f))
    requires KeysAreFieldsStmts(f.body, Inputs(GroupsOf(f)))
    ensures CallOf(w, f, a, outer, s, fuel) == CallOf(w, f, b, outer, s, fuel)
  {
    var inputs := Inputs(GroupsOf(f));
    ReadsCoversStmts(f.body, inputs);
    assert SameScope(a, b, inputs);
    SameFirst(a, b, outer, outer, inputs);
    SameDeclareAll([a] + outer, [b] + outer, inputs, f.results, Zeros(w, f.results));
    var x, y := ScopeOf(w, f, a, outer), ScopeOf(w, f, b, outer);
    SameExecAll(w, x, y, inputs, s, fuel, f.body);
    var p, q := ExecAll(w, x, s, fuel, f.body), ExecAll(w, y, s, fuel, f.body);
    if p.Bare? { SameLookups(w, p.env, q.env, inputs, f.results); }
  }

  // The condition is exact: a flagged function looks up none of its inputs if and only if those keys are field names.
  lemma {:induction false} LooksUpNoInputExactly(f: Function)
    requires ReadsNoInputOf(f, Inputs(GroupsOf(f)))
    ensures NamesOfStmts(f.body) !! Inputs(GroupsOf(f)) <==> KeysAreFieldsStmts(f.body, Inputs(GroupsOf(f)))
  {
    ReadsCoversStmts(f.body, Inputs(GroupsOf(f)));
  }

  // func(key) { return typ{key: text} }, where typ is the name of a map type.
  function KeyedByInput(key: string, typ: string, text: string): Function {
    Function([], [[key]], [], [Return([Composite(Some(Ident(typ)), Entries, [KeyValue(Ident(key), Lit(text))])])])
  }

  // Such a function is flagged, and yet its result tells any two keys apart that a map literal tells apart.
  lemma {:induction false} NamedMapKeyIsMissed<V, S>(w: World<V, S>, key: string, typ: string, text: string, a: V,
          b: V, s: S, fuel: nat)
    requires key != "_" && key != typ
    requires w.literal(s, Some(w.typed(Ident(typ), map[])), [Entry(a, w.lit(text))]).Done?
    requires w.literal(s, Some(w.typed(Ident(typ), map[])), [Entry(b, w.lit(text))]).Done?
    requires w.literal(s, Some(w.typed(Ident(typ), map[])), [Entry(a, w.lit(text))]).value !=
             w.literal(s, Some(w.typed(Ident(typ), map[])), [Entry(b, w.lit(text))]).value
    ensures ReadsNoInputOf(KeyedByInput(key, typ, text), Inputs(GroupsOf(KeyedByInput(key, typ, text))))
    ensures BodyOf(w, KeyedByInput(key, typ, text), map[key := a], [], s, fuel) !=
            BodyOf(w, KeyedByInput(key, typ, text), map[key := b], [], s, fuel)
  {
    KeyedByInputIsFlagged(key, typ, text);
    KeyedByInputGives(w, key, typ, text, a, s, fuel);
    KeyedByInputGives(w, key, typ, text, b, s, fuel);
  }

  lemma {:induction false} OneInput(key: string)
    requires key != "_"
    ensures Inputs([[key]]) == {key}
  {
    assert [key] in [[key]] && key in [key];
  }

  lemma {:induction false} KeyedByInputIsFlagged(key: string, typ: string, text: string)
    requires key != "_" && key != typ
    ensures ReadsNoInputOf(KeyedByInput(key, typ, text), Inputs(GroupsOf(KeyedByInput(key, typ, text))))
  {
    var f := KeyedByInput(key, typ, text);
    assert GroupsOf(f) == [[key]];
    OneInput(key);
    var inputs := {key};
    var pair := KeyValue(Ident(key), Lit(text));
    var literal := Composite(Some(Ident(typ)), Entries, [pair]);
    assert [pair][1..] == [] && !ReadsElement(pair, inputs) && !ReadsElements([], inputs);
    assert !ReadsElements([pair], inputs);
    assert !Reads(literal, inputs);
    assert [literal][1..] == [] && !ReadsAll([], inputs);
    assert !ReadsAll([literal], inputs);
    assert f.body == [Return([literal])] && f.body[1..] == [];
    assert !ReadsStmts(f.body, inputs);
  }

  lemma {:induction false} KeyedByInputGives<V, S>(w: World<V, S>, key: string, typ: string, text: string, v: V, s: S,
          fuel: nat)
    requires key != typ
    requires w.literal(s, Some(w.typed(Ident(typ), map[])), [Entry(v, w.lit(text))]).Done?
    ensures var made := w.literal(s, Some(w.typed(Ident(typ), map[])), [Entry(v, w.lit(text))]);
      BodyOf(w, KeyedByInput(key, typ, text), map[key := v], [], s, fuel) == Results(made.state, [made.value])
  {
    var f := KeyedByInput(key, typ, text);
    var env: Env<V> := [map[key := v]];
    assert [map[key := v]] + [] == env && ScopeOf(w, f, map[key := v], []) == env;
    var literal := f.body[0].values[0];
    var element := literal.elements[0];
    assert Find(env[1..], typ) == None;
    assert Captured(env, {typ}) == map[];
    assert EvalElement(w, env, s, Entries, element) == All(s, [Entry(v, w.lit(text))]);
    assert literal.elements[0] == element && literal.elements[1..] == [];
    assert EvalElements(w, env, s, Entries, []) == All(s, []);
    assert [Entry(v, w.lit(text))] + [] == [Entry(v, w.lit(text))];
    assert EvalElements(w, env, s, Entries, literal.elements) == All(s, [Entry(v, w.lit(text))]);
    var made := Eval(w, env, s, literal);
    assert made == w.literal(s, Some(w.typed(Ident(typ), map[])), [Entry(v, w.lit(text))]);
    assert [literal][1..] == [];
    assert EvalAll(w, env, s, [literal]) == All(made.state, [made.value]);
    assert Exec(w, env, s, fuel, f.body[0]) == Returned(made.state, [made.value]);
  }

  // ---- Constant results and panics ----

  // The value is what errors.New or fmt.Errorf stands for.
  ghost predicate IsMaker<V, S(!new)>(w: World<V, S>, env: Env<V>, f: V) {
    || (exists s :: w.select(s, Lookup(w, env, "errors"), "New").Done? && w.select(s, Lookup(w, env, "errors"), "New").value == f)
    || (exists s :: w.select(s, Lookup(w, env, "fmt"), "Errorf").Done? && w.select(s, Lookup(w, env, "fmt"), "Errorf").value == f)
  }

  // The two worlds differ in what calls do, except in how errors are made.
  ghost predicate DifferInCalls<V(!new), S(!new)>(w: World<V, S>, u: World<V, S>, env: Env<V>) {
    && u == w.(call := u.call)
    && forall f, s, vs | IsMaker(w, env, f) :: w.call(s, f, vs) == u.call(s, f, vs)
  }

  lemma {:induction false} ConstantMakesNoCall<V(!new), S(!new)>(w: World<V, S>, u: World<V, S>, env: Env<V>, s: S,
          e: Expr)
    requires DifferInCalls(w, u, env) && Constant(e)
    ensures Eval(w, env, s, e) == Eval(u, env, s, e)
    decreases e, 0
  {
    match e
    case Ident(_) =>
    case Lit(_) =>
    case Selector(x, _) => ConstantMakesNoCall(w, u, env, s, x);
    case Paren(x) => ConstantMakesNoCall(w, u, env, s, x);
    case Unary(_, x) => ConstantMakesNoCall(w, u, env, s, x);
    case Binary(_, x, y) =>
      ConstantMakesNoCall(w, u, env, s, x);
      ConstantMakesNoCall(w, u, env, Eval(w, env, s, x).state, y);
    case KeyValue(k, v) =>
      ConstantMakesNoCall(w, u, env, s, k);
      ConstantMakesNoCall(w, u, env, Eval(w, env, s, k).state, v);
    case Composite(_, keys, elements) => ConstantElementsMakeNoCall(w, u, env, s, keys, elements);
    case Call(f, args) =>
      assert f.x.Ident? && Eval(w, env, s, f.x) == Eval(u, env, s, f.x) == Done(s, Lookup(w, env, f.x.name));
      var made := Eval(w, env, s, f);
      assert made == w.select(s, Lookup(w, env, f.x.name), f.field) == Eval(u, env, s, f);
      if made.Done? {
        ConstantsMakeNoCall(w, u, env, made.state, args);
        assert IsMaker(w, env, made.value);
      }
  }

  lemma {:induction false} ConstantsMakeNoCall<V(!new), S(!new)>(w: World<V, S>, u: World<V, S>, env: Env<V>, s: S,
          es: seq<Expr>)
    requires DifferInCalls(w, u, env) && AllConstant(es)
    ensures EvalAll(w, env, s, es) == EvalAll(u, env, s, es)
    decreases es, 0
  {
    if es != [] {
      ConstantMakesNoCall(w, u, env, s, es[0]);
      ConstantsMakeNoCall(w, u, env, Eval(w, env, s, es[0]).state, es[1..]);
    }
  }

  lemma {:induction false} ConstantElementsMakeNoCall<V(!new), S(!new)>(w: World<V, S>, u: World<V, S>, env: Env<V>,
          s: S, keys: Keys, es: seq<Expr>)
    requires DifferInCalls(w, u, env) && AllConstant(es)
    ensures EvalElements(w, env, s, keys, es) == EvalElements(u, env, s, keys, es)
    decreases es, 0
  {
    if es != [] {
      ConstantElementMakesNoCall(w, u, env, s, keys, es[0]);
      ConstantElementsMakeNoCall(w, u, env, EvalElement(w, env, s, keys, es[0]).state, keys, es[1..]);
    }
  }

  lemma {:induction false} ConstantElementMakesNoCall<V(!new), S(!new)>(w: World<V, S>, u: World<V, S>, env: Env<V>,
          s: S, keys: Keys, e: Expr)
    requires DifferInCalls(w, u, env) && Constant(e)
    ensures EvalElement(w, env, s, keys, e) == EvalElement(u, env, s, keys, e)
    decreases e, 1
  {
    if e.KeyValue? {
      ConstantMakesNoCall(w, u, env, s, e.value);
      if !e.key.Ident? || !keys.Fields? {
        ConstantMakesNoCall(w, u, env, s, e.key);
        ConstantMakesNoCall(w, u, env, Eval(w, env, s, e.key).state, e.value);
      }
    } else {
      ConstantMakesNoCall(w, u, env, s, e);
    }
  }

  // In the world panic panics.
  ghost predicate PanicPanics<V(!new), S(!new)>(w: World<V, S>, env: Env<V>) {
    forall s, vs :: w.call(s, Lookup(w, env, "panic"), vs).Panicked?
  }

  lemma {:induction false} LookupsMakeNoCall<V(!new), S(!new)>(w: World<V, S>, u: World<V, S>, env: Env<V>,
          names: seq<string>)
    requires u == w.(call := u.call)
    ensures LookupAll(w, env, names) == LookupAll(u, env, names)
  {
    if names != [] { LookupsMakeNoCall(w, u, env, names[1..]); }
  }

  // A function flagged for computing nothing ends alike whatever the functions it could call do: its body panics in
  // every such world, or in every one the function leaves the same state and the same results.
  lemma {:induction false} StubComputesNothing<V(!new), S(!new)>(w: World<V, S>, u: World<V, S>, f: Function,
          outer: Env<V>, s: S, fuel: nat)
    requires ComputesNothingIn(f)
    requires
      var env := ScopeOf(w, f, map[], outer);
      DifferInCalls(w, u, env) && PanicPanics(w, env) && PanicPanics(u, env)
    ensures var x, y := BodyOf(w, f, map[], outer, s, fuel), BodyOf(u, f, map[], outer, s, fuel);
      (x.Panic? && y.Panic?) || (x.Results? && x == y)
    ensures BodyOf(w, f, map[], outer, s, fuel).Results? ==> CallOf(w, f, map[], outer, s, fuel) == CallOf(u, f, map[], outer, s, fuel)
  {
    var env := ScopeOf(w, f, map[], outer);
    assert env == ScopeOf(u, f, map[], outer);
    LookupsMakeNoCall(w, u, env, f.results);
    if f.body != [] {
      assert ReturnsConstantsOrPanics(f.body[0]);
      match f.body[0] {
        case Return(values) =>
          ConstantsMakeNoCall(w, u, env, s, values);
          assert Exec(w, env, s, fuel, f.body[0]) == Exec(u, env, s, fuel, f.body[0]);
        case ExprStmt(x) =>
          PanicStatement(w, env, s, fuel, f.body[0]);
          PanicStatement(u, env, s, fuel, f.body[0]);
      }
    }
  }

  lemma {:induction false} PanicStatement<V(!new), S(!new)>(w: World<V, S>, env: Env<V>, s: S, fuel: nat, stmt: Stmt)
    requires IsPanic(stmt) && PanicPanics(w, env)
    ensures Exec(w, env, s, fuel, stmt).Crashed?
  {
    var vs := EvalAll(w, env, s, stmt.x.args);
    assert Eval(w, env, s, stmt.x).Panicked?;
  }
}
