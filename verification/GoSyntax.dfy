// The Go syntax that the stub analysis reads, and what running it means. Whatever the language and the libraries
// decide (operators, calls, literals, stores) is a world of functions, so what is proved holds for every such world.
module GoSyntax {
  import opened Literals
  import opened Wrappers

  datatype Expr =
    | Ident(name: string)
    | Lit(text: string)
    | Selector(x: Expr, field: string)
    | Paren(x: Expr)
    | Unary(op: string, x: Expr)
    | Binary(op: string, x: Expr, y: Expr)
    | KeyValue(key: Expr, value: Expr)
    | MapType(key: Expr, value: Expr)
    | Composite(typ: Option<Expr>, keys: Keys, elements: seq<Expr>)
    | Call(fun: Expr, args: seq<Expr>)
    | FuncLit(params: seq<string>, body: seq<Stmt>)
    | Other(kind: string, parts: seq<Expr>)

  datatype Stmt =
    | ExprStmt(x: Expr)
    | Assign(targets: seq<Expr>, values: seq<Expr>)
    | Define(names: seq<string>, values: seq<Expr>)
    | Return(values: seq<Expr>)
    | If(cond: Expr, yes: seq<Stmt>, no: seq<Stmt>)
    | For(cond: Expr, post: seq<Stmt>, body: seq<Stmt>)
    | Range(keyName: string, valueName: string, x: Expr, body: seq<Stmt>)
    | Block(body: seq<Stmt>)
    | Break
    | Continue
    | Switch(bound: Option<string>, tag: Option<Expr>, clauses: seq<Clause>)
    | Select(comms: seq<Comm>)
    | Go(fun: Expr, args: seq<Expr>)
    | Defer(fun: Expr, args: seq<Expr>)

  // A case of a switch; it may fall through to the next. A switch on types has a bound name, blank when it has none.
  datatype Clause = Clause(labels: seq<Expr>, isDefault: bool, body: seq<Stmt>, falls: bool)

  // A case of a select: what it sends or receives on, and the names it receives into.
  datatype Comm = Comm(names: seq<string>, parts: seq<Expr>, body: seq<Stmt>)

  // ---- The names that running a piece of code may look up ----

  function NamesOf(e: Expr): set<string>
    decreases e
  {
    match e
    case Ident(n) => {n}
    case Lit(_) => {}
    case Selector(x, _) => NamesOf(x)
    case Paren(x) => NamesOf(x)
    case Unary(_, x) => NamesOf(x)
    case Binary(_, x, y) => NamesOf(x) + NamesOf(y)
    case KeyValue(k, v) => NamesOf(k) + NamesOf(v)
    case MapType(k, v) => NamesOf(k) + NamesOf(v)
    case Composite(typ, keys, elements) => (if typ.Some? then NamesOf(typ.value) else {}) + NamesOfElements(keys, elements)
    case Call(f, args) => NamesOf(f) + NamesOfAll(args)
    case FuncLit(_, body) => NamesOfStmts(body)
    case Other(_, parts) => NamesOfAll(parts)
  }

  function NamesOfAll(es: seq<Expr>): set<string>
    decreases es
  {
    if es == [] then {} else NamesOf(es[0]) + NamesOfAll(es[1..])
  }

  function NamesOfElements(keys: Keys, es: seq<Expr>): set<string>
    decreases es
  {
    if es == [] then {}
    else (match es[0]
          case KeyValue(k, v) => (if k.Ident? && keys.Fields? then {} else NamesOf(k)) + NamesOf(v)
          case e => NamesOf(e)) + NamesOfElements(keys, es[1..])
  }

  function NamesOfStmt(stmt: Stmt): set<string>
    decreases stmt
  {
    match stmt
    case ExprStmt(x) => NamesOf(x)
    case Assign(targets, values) => NamesOfAll(targets) + NamesOfAll(values)
    case Define(_, values) => NamesOfAll(values)
    case Return(values) => NamesOfAll(values)
    case If(c, yes, no) => NamesOf(c) + NamesOfStmts(yes) + NamesOfStmts(no)
    case For(c, post, body) => NamesOf(c) + NamesOfStmts(post) + NamesOfStmts(body)
    case Range(_, _, x, body) => NamesOf(x) + NamesOfStmts(body)
    case Block(body) => NamesOfStmts(body)
    case Break => {}
    case Continue => {}
    case Switch(_, tag, clauses) => (if tag.Some? then NamesOf(tag.value) else {}) + NamesOfClauses(clauses)
    case Select(comms) => NamesOfComms(comms)
    case Go(f, args) => NamesOf(f) + NamesOfAll(args)
    case Defer(f, args) => NamesOf(f) + NamesOfAll(args)
  }

  function NamesOfClauses(clauses: seq<Clause>): set<string>
    decreases clauses
  {
    if clauses == [] then {}
    else NamesOfAll(clauses[0].labels) + NamesOfStmts(clauses[0].body) + NamesOfClauses(clauses[1..])
  }

  function NamesOfComms(comms: seq<Comm>): set<string>
    decreases comms
  {
    if comms == [] then {}
    else NamesOfAll(comms[0].parts) + NamesOfStmts(comms[0].body) + NamesOfComms(comms[1..])
  }

  function NamesOfStmts(stmts: seq<Stmt>): set<string>
    decreases stmts
  {
    if stmts == [] then {} else NamesOfStmt(stmts[0]) + NamesOfStmts(stmts[1..])
  }

  // ---- Environments: a stack of scopes, innermost first ----

  type Env<V> = seq<map<string, V>>

  function Find<V>(env: Env<V>, name: string): Option<V> {
    if env == [] then None
    else if name in env[0] then Some(env[0][name])
    else Find(env[1..], name)
  }

  // Assigns to the innermost scope that declares the name.
  function Update<V>(env: Env<V>, name: string, v: V): (r: Env<V>)
    ensures |r| == |env|
  {
    if env == [] then []
    else if name in env[0] then [env[0][name := v]] + env[1..]
    else [env[0]] + Update(env[1..], name, v)
  }

  function Declare<V>(env: Env<V>, name: string, v: V): (r: Env<V>)
    ensures |r| == |env|
  {
    if env == [] || name == "_" then env else [env[0][name := v]] + env[1..]
  }

  function DeclareAll<V>(env: Env<V>, names: seq<string>, vs: seq<V>): (r: Env<V>)
    ensures |r| == |env|
    decreases names
  {
    if names == [] || vs == [] then env else DeclareAll(Declare(env, names[0], vs[0]), names[1..], vs[1..])
  }

  // What a function literal or a type captures: the values of the names it uses.
  function Captured<V>(env: Env<V>, names: set<string>): map<string, V> {
    map n | n in names && Find(env, n).Some? :: Find(env, n).value
  }

  // ---- Running ----

  datatype Outcome<S, V> = Done(state: S, value: V) | Panicked(state: S, value: V)
  datatype Outcomes<S, T, V> = All(state: S, values: seq<T>) | Failed(state: S, value: V)

  // One element of a composite literal.
  datatype Slot<V> = Field(name: string, value: V) | Entry(key: V, value: V) | Item(value: V)

  // What an assignment writes to.
  datatype Place<V> = Name(name: string) | FieldOf(base: V, name: string) | Part(kind: string, parts: seq<V>)

  datatype World<!V, !S> = World(
    lit: string -> V,
    universe: string -> V,
    select: (S, V, string) -> Outcome<S, V>,
    unary: (S, string, V) -> Outcome<S, V>,
    short: (string, V) -> Option<V>,
    binary: (S, string, V, V) -> Outcome<S, V>,
    other: (S, string, seq<V>) -> Outcome<S, V>,
    typed: (Expr, map<string, V>) -> V,
    literal: (S, Option<V>, seq<Slot<V>>) -> Outcome<S, V>,
    closure: (seq<string>, seq<Stmt>, map<string, V>) -> V,
    call: (S, V, seq<V>) -> Outcome<S, V>,
    spread: (seq<V>, nat) -> seq<V>,
    holds: V -> bool,
    items: (S, V) -> seq<(V, V)>,
    store: (S, Place<V>, V) -> Outcome<S, V>,
    zero: string -> V,
    wait: (S, seq<seq<V>>) -> Chosen<S, V>,
    spawn: (S, V, seq<V>) -> S,
    later: (S, V, seq<V>) -> S,
    unwind: Ending<S, V> -> Ending<S, V>)

  // Which communication of a select goes on, and what it receives. A number beyond the cases is for none, ever.
  datatype Chosen<S, V> = Chosen(state: S, k: nat, received: seq<V>)

  // How a call of a function ends: with results, none when it runs off its end; with a panic; or not in time.
  datatype Ending<S, V> = Results(state: S, values: seq<V>) | Panic(state: S, value: V) | Unfinished

  function Lookup<V, S>(w: World<V, S>, env: Env<V>, name: string): V {
    var found := Find(env, name);
    if found.Some? then found.value else w.universe(name)
  }

  function Eval<V, S>(w: World<V, S>, env: Env<V>, s: S, e: Expr): Outcome<S, V>
    decreases e, 0
  {
    match e
    case Ident(n) => Done(s, Lookup(w, env, n))
    case Lit(text) => Done(s, w.lit(text))
    case Selector(x, field) =>
      var a := Eval(w, env, s, x);
      if a.Panicked? then a else w.select(a.state, a.value, field)
    case Paren(x) => Eval(w, env, s, x)
    case Unary(op, x) =>
      var a := Eval(w, env, s, x);
      if a.Panicked? then a else w.unary(a.state, op, a.value)
    case Binary(op, x, y) =>
      var a := Eval(w, env, s, x);
      if a.Panicked? then a
      else if w.short(op, a.value).Some? then Done(a.state, w.short(op, a.value).value)
      else
        var b := Eval(w, env, a.state, y);
        if b.Panicked? then b else w.binary(b.state, op, a.value, b.value)
    case KeyValue(k, v) =>
      var a := Eval(w, env, s, k);
      if a.Panicked? then a
      else
        var b := Eval(w, env, a.state, v);
        if b.Panicked? then b else w.other(b.state, "pair", [a.value, b.value])
    case MapType(_, _) => Done(s, w.typed(e, Captured(env, NamesOf(e))))
    case Composite(typ, keys, elements) =>
      var t := if typ.Some? then Some(w.typed(typ.value, Captured(env, NamesOf(typ.value)))) else None;
      var slots := EvalElements(w, env, s, keys, elements);
      if slots.Failed? then Panicked(slots.state, slots.value) else w.literal(slots.state, t, slots.values)
    case Call(f, args) =>
      var a := Eval(w, env, s, f);
      if a.Panicked? then a
      else
        var vs := EvalAll(w, env, a.state, args);
        if vs.Failed? then Panicked(vs.state, vs.value) else w.call(vs.state, a.value, vs.values)
    case FuncLit(params, body) => Done(s, w.closure(params, body, Captured(env, NamesOfStmts(body))))
    case Other(kind, parts) =>
      var vs := EvalAll(w, env, s, parts);
      if vs.Failed? then Panicked(vs.state, vs.value) else w.other(vs.state, kind, vs.values)
  }

  function EvalAll<V, S>(w: World<V, S>, env: Env<V>, s: S, es: seq<Expr>): Outcomes<S, V, V>
    decreases es
  {
    if es == [] then All(s, [])
    else
      var a := Eval(w, env, s, es[0]);
      if a.Panicked? then Failed(a.state, a.value)
      else
        var rest := EvalAll(w, env, a.state, es[1..]);
        if rest.Failed? then rest else All(rest.state, [a.value] + rest.values)
  }

  function EvalElement<V, S>(w: World<V, S>, env: Env<V>, s: S, keys: Keys, e: Expr): Outcomes<S, Slot<V>, V>
    decreases e, 1
  {
    match e
    case KeyValue(k, v) =>
      if k.Ident? && keys.Fields? then
        var b := Eval(w, env, s, v);
        if b.Panicked? then Failed(b.state, b.value) else All(b.state, [Field(k.name, b.value)])
      else
        var a := Eval(w, env, s, k);
        if a.Panicked? then Failed(a.state, a.value)
        else
          var b := Eval(w, env, a.state, v);
          if b.Panicked? then Failed(b.state, b.value) else All(b.state, [Entry(a.value, b.value)])
    case _ =>
      var b := Eval(w, env, s, e);
      if b.Panicked? then Failed(b.state, b.value) else All(b.state, [Item(b.value)])
  }

  function EvalElements<V, S>(w: World<V, S>, env: Env<V>, s: S, keys: Keys, es: seq<Expr>): Outcomes<S, Slot<V>, V>
    decreases es
  {
    if es == [] then All(s, [])
    else
      var a := EvalElement(w, env, s, keys, es[0]);
      if a.Failed? then a
      else
        var rest := EvalElements(w, env, a.state, keys, es[1..]);
        if rest.Failed? then rest else All(rest.state, a.values + rest.values)
  }

  function EvalPlace<V, S>(w: World<V, S>, env: Env<V>, s: S, e: Expr): Outcomes<S, Place<V>, V>
    decreases e
  {
    match e
    case Ident(n) => All(s, [Name(n)])
    case Paren(x) => EvalPlace(w, env, s, x)
    case Selector(x, field) =>
      var a := Eval(w, env, s, x);
      if a.Panicked? then Failed(a.state, a.value) else All(a.state, [FieldOf(a.value, field)])
    case Other(kind, parts) =>
      var vs := EvalAll(w, env, s, parts);
      if vs.Failed? then Failed(vs.state, vs.value) else All(vs.state, [Part(kind, vs.values)])
    case _ =>
      var a := Eval(w, env, s, e);
      if a.Panicked? then Failed(a.state, a.value) else All(a.state, [Part("", [a.value])])
  }

  function EvalPlaces<V, S>(w: World<V, S>, env: Env<V>, s: S, es: seq<Expr>): Outcomes<S, Place<V>, V>
    decreases es
  {
    if es == [] then All(s, [])
    else
      var a := EvalPlace(w, env, s, es[0]);
      if a.Failed? then a
      else
        var rest := EvalPlaces(w, env, a.state, es[1..]);
        if rest.Failed? then rest else All(rest.state, a.values + rest.values)
  }

  // How a run of statements ends.
  datatype Run<S, V> =
    | Next(env: Env<V>, state: S)
    | Broke(env: Env<V>, state: S)
    | Continued(env: Env<V>, state: S)
    | Returned(state: S, values: seq<V>)
    | Bare(env: Env<V>, state: S)
    | Crashed(state: S, value: V)
    | OutOfFuel

  function AssignAll<V, S>(w: World<V, S>, env: Env<V>, s: S, places: seq<Place<V>>, vs: seq<V>): Run<S, V>
    decreases places
  {
    if places == [] || vs == [] then Next(env, s)
    else if places[0].Name? then AssignAll(w, Update(env, places[0].name, vs[0]), s, places[1..], vs[1..])
    else
      var a := w.store(s, places[0], vs[0]);
      if a.Panicked? then Crashed(a.state, a.value) else AssignAll(w, env, a.state, places[1..], vs[1..])
  }

  // The values for so many targets: one each, or those one expression gives.
  function Spread<V, S>(w: World<V, S>, vs: seq<V>, n: nat): seq<V> {
    if |vs| == n then vs else w.spread(vs, n)
  }

  // Leaves the innermost scope.
  function Leave<S, V>(run: Run<S, V>): Run<S, V> {
    match run
    case Next(env, s) => Next(env[if env == [] then 0 else 1..], s)
    case Broke(env, s) => Broke(env[if env == [] then 0 else 1..], s)
    case Continued(env, s) => Continued(env[if env == [] then 0 else 1..], s)
    case Bare(env, s) => Bare(env[if env == [] then 0 else 1..], s)
    case _ => run
  }

  function ExecBlock<V, S>(w: World<V, S>, env: Env<V>, s: S, fuel: nat, stmts: seq<Stmt>): Run<S, V>
    decreases fuel, stmts, 1
  {
    Leave(ExecAll(w, [map[]] + env, s, fuel, stmts))
  }

  function ExecAll<V, S>(w: World<V, S>, env: Env<V>, s: S, fuel: nat, stmts: seq<Stmt>): Run<S, V>
    decreases fuel, stmts, 0
  {
    if stmts == [] then Next(env, s)
    else
      var r := Exec(w, env, s, fuel, stmts[0]);
      if r.Next? then ExecAll(w, r.env, r.state, fuel, stmts[1..]) else r
  }

  function Exec<V, S>(w: World<V, S>, env: Env<V>, s: S, fuel: nat, stmt: Stmt): Run<S, V>
    decreases fuel, stmt, 0
  {
    match stmt
    case ExprStmt(x) =>
      var a := Eval(w, env, s, x);
      if a.Panicked? then Crashed(a.state, a.value) else Next(env, a.state)
    case Assign(targets, values) =>
      var places := EvalPlaces(w, env, s, targets);
      if places.Failed? then Crashed(places.state, places.value)
      else
        var vs := EvalAll(w, env, places.state, values);
        if vs.Failed? then Crashed(vs.state, vs.value)
        else AssignAll(w, env, vs.state, places.values, Spread(w, vs.values, |targets|))
    case Define(names, values) =>
      var vs := EvalAll(w, env, s, values);
      if vs.Failed? then Crashed(vs.state, vs.value)
      else Next(DeclareAll(env, names, Spread(w, vs.values, |names|)), vs.state)
    case Return(values) =>
      if values == [] then Bare(env, s)
      else
        var vs := EvalAll(w, env, s, values);
        if vs.Failed? then Crashed(vs.state, vs.value) else Returned(vs.state, vs.values)
    case If(c, yes, no) =>
      var a := Eval(w, env, s, c);
      if a.Panicked? then Crashed(a.state, a.value)
      else if w.holds(a.value) then ExecBlock(w, env, a.state, fuel, yes)
      else ExecBlock(w, env, a.state, fuel, no)
    case For(c, post, body) =>
      var a := Eval(w, env, s, c);
      if a.Panicked? then Crashed(a.state, a.value)
      else if !w.holds(a.value) then Next(env, a.state)
      else
        var r := ExecBlock(w, env, a.state, fuel, body);
        if r.Broke? then Next(r.env, r.state)
        else if !r.Next? && !r.Continued? then r
        else
          var p := ExecBlock(w, r.env, r.state, fuel, post);
          if !p.Next? then p
          else if fuel == 0 then OutOfFuel
          else Exec(w, p.env, p.state, fuel - 1, stmt)
    case Range(k, v, x, body) =>
      var a := Eval(w, env, s, x);
      if a.Panicked? then Crashed(a.state, a.value)
      else ExecItems(w, env, a.state, fuel, k, v, w.items(a.state, a.value), body)
    case Block(body) => ExecBlock(w, env, s, fuel, body)
    case Break => Broke(env, s)
    case Continue => Continued(env, s)
    case Switch(bound, tag, clauses) =>
      var a := EvalTag(w, env, s, tag);
      if a.Failed? then Crashed(a.state, a.value)
      else
        var picked := Pick(w, env, a.state, bound.Some?, a.values, clauses);
        if picked.PickFailed? then Crashed(picked.state, picked.value)
        else
          var k := if picked.k < |clauses| then picked.k else DefaultOf(clauses);
          ExecClauses(w, env, picked.state, fuel, if bound.Some? then [bound.value] else [], a.values, clauses, k)
    case Select(comms) =>
      var parts := EvalComms(w, env, s, comms);
      if parts.Failed? then Crashed(parts.state, parts.value)
      else
        var chosen := w.wait(parts.state, parts.values);
        if chosen.k >= |comms| then OutOfFuel
        else ExecClause(w, env, chosen.state, fuel, comms[chosen.k].names, chosen.received, comms[chosen.k].body)
    case Go(f, args) =>
      var vs := EvalCall(w, env, s, f, args);
      if vs.Failed? then Crashed(vs.state, vs.value) else Next(env, w.spawn(vs.state, vs.values[0], vs.values[1..]))
    case Defer(f, args) =>
      var vs := EvalCall(w, env, s, f, args);
      if vs.Failed? then Crashed(vs.state, vs.value) else Next(env, w.later(vs.state, vs.values[0], vs.values[1..]))
  }

  // The function of a call and then its arguments.
  function EvalCall<V, S>(w: World<V, S>, env: Env<V>, s: S, f: Expr, args: seq<Expr>): (r: Outcomes<S, V, V>)
    ensures r.All? ==> r.values != []
  {
    var a := Eval(w, env, s, f);
    if a.Panicked? then Failed(a.state, a.value)
    else
      var rest := EvalAll(w, env, a.state, args);
      if rest.Failed? then rest else All(rest.state, [a.value] + rest.values)
  }

  // The value that a switch is on, if it is on one.
  function EvalTag<V, S>(w: World<V, S>, env: Env<V>, s: S, tag: Option<Expr>): Outcomes<S, V, V> {
    if tag.None? then All(s, [])
    else
      var a := Eval(w, env, s, tag.value);
      if a.Panicked? then Failed(a.state, a.value) else All(a.state, [a.value])
  }

  // The first clause, from the front, with a label that fits; beyond the clauses when none does.
  datatype Picked<S, V> = Picked(state: S, k: nat) | PickFailed(state: S, value: V)

  // Whether a label fits: it is the type of the value, or equals it, or holds where there is no value.
  function Fits<V, S>(w: World<V, S>, env: Env<V>, s: S, typed: bool, tag: seq<V>, fit: Expr): Outcome<S, V> {
    var a := if typed then Done(s, w.typed(fit, Captured(env, NamesOf(fit)))) else Eval(w, env, s, fit);
    if a.Panicked? || tag == [] then a else w.binary(a.state, if typed then "is" else "==", tag[0], a.value)
  }

  // Zero when some label fits, and one when none does.
  function AnyFits<V, S>(w: World<V, S>, env: Env<V>, s: S, typed: bool, tag: seq<V>, labels: seq<Expr>): Picked<S, V>
    decreases labels
  {
    if labels == [] then Picked(s, 1)
    else
      var a := Fits(w, env, s, typed, tag, labels[0]);
      if a.Panicked? then PickFailed(a.state, a.value)
      else if w.holds(a.value) then Picked(a.state, 0)
      else AnyFits(w, env, a.state, typed, tag, labels[1..])
  }

  function Pick<V, S>(w: World<V, S>, env: Env<V>, s: S, typed: bool, tag: seq<V>, clauses: seq<Clause>): Picked<S, V>
    decreases clauses
  {
    if clauses == [] then Picked(s, 0)
    else
      var first := AnyFits(w, env, s, typed, tag, clauses[0].labels);
      if first.PickFailed? || first.k == 0 then first
      else
        var rest := Pick(w, env, first.state, typed, tag, clauses[1..]);
        if rest.PickFailed? then rest else Picked(rest.state, rest.k + 1)
  }

  // The default clause, or beyond the clauses.
  function DefaultOf(clauses: seq<Clause>): nat {
    if clauses == [] || clauses[0].isDefault then 0 else 1 + DefaultOf(clauses[1..])
  }

  // A clause is a scope of its own, with the names it binds.
  function ExecClause<V, S>(w: World<V, S>, env: Env<V>, s: S, fuel: nat, names: seq<string>, vs: seq<V>,
          body: seq<Stmt>): Run<S, V>
    decreases fuel, body, 2
  {
    var r := Leave(ExecAll(w, DeclareAll([map[]] + env, names, vs), s, fuel, body));
    if r.Broke? then Next(r.env, r.state) else r
  }

  // Runs the k-th clause, and the next while a clause falls through.
  function ExecClauses<V, S>(w: World<V, S>, env: Env<V>, s: S, fuel: nat, names: seq<string>, vs: seq<V>,
          clauses: seq<Clause>, k: nat): Run<S, V>
    decreases fuel, clauses, 3
  {
    if clauses == [] then Next(env, s)
    else if k > 0 then ExecClauses(w, env, s, fuel, names, vs, clauses[1..], k - 1)
    else
      var r := Leave(ExecAll(w, DeclareAll([map[]] + env, names, vs), s, fuel, clauses[0].body));
      if r.Broke? then Next(r.env, r.state)
      else if r.Next? && clauses[0].falls then ExecClauses(w, r.env, r.state, fuel, names, vs, clauses[1..], 0)
      else r
  }

  // What each case of a select sends or receives on.
  function EvalComms<V, S>(w: World<V, S>, env: Env<V>, s: S, comms: seq<Comm>): Outcomes<S, seq<V>, V>
    decreases comms
  {
    if comms == [] then All(s, [])
    else
      var a := EvalAll(w, env, s, comms[0].parts);
      if a.Failed? then Failed(a.state, a.value)
      else
        var rest := EvalComms(w, env, a.state, comms[1..]);
        if rest.Failed? then rest else All(rest.state, [a.values] + rest.values)
  }

  function ExecItems<V, S>(w: World<V, S>, env: Env<V>, s: S, fuel: nat, k: string, v: string, items: seq<(V, V)>,
          body: seq<Stmt>): Run<S, V>
    decreases fuel, body, 2, items
  {
    if items == [] then Next(env, s)
    else
      var scope := Declare(Declare([map[]] + env, k, items[0].0), v, items[0].1);
      var r := Leave(ExecAll(w, scope, s, fuel, body));
      if r.Broke? then Next(r.env, r.state)
      else if !r.Next? && !r.Continued? then r
      else ExecItems(w, r.env, r.state, fuel, k, v, items[1..], body)
  }
}
