// The other half of what the stub analysis promises: where a run uses the value of an input, some world tells it.
module StubWatch {
  import opened GoSyntax
  import opened Literals
  import opened Stub
  import opened StubMeaning
  import opened Wrappers

  // ---- A world that watches marked values ----

  // A value, and whether it is an input's or holds one: a closure or a type that captures it.
  datatype Marked<V> = Marked(v: V, mark: bool)

  // A state, and whether anything was done with a marked value so far.
  datatype Seen<S> = Seen(s: S, noted: bool)

  function Strip<V>(vs: seq<Marked<V>>): seq<V> {
    seq(|vs|, i requires 0 <= i < |vs| => vs[i].v)
  }

  function Clean<V>(vs: seq<V>): seq<Marked<V>> {
    seq(|vs|, i requires 0 <= i < |vs| => Marked(vs[i], false))
  }

  predicate AnyMarked<V>(vs: seq<Marked<V>>) {
    exists i :: 0 <= i < |vs| && vs[i].mark
  }

  function StripMap<V>(m: map<string, Marked<V>>): map<string, V> {
    map n | n in m :: m[n].v
  }

  predicate MarkedMap<V>(m: map<string, Marked<V>>) {
    exists n :: n in m && m[n].mark
  }

  function StripSlot<V>(slot: Slot<Marked<V>>): Slot<V> {
    match slot
    case Field(name, v) => Field(name, v.v)
    case Entry(k, v) => Entry(k.v, v.v)
    case Item(v) => Item(v.v)
  }

  predicate MarkedSlot<V>(slot: Slot<Marked<V>>) {
    match slot
    case Field(_, v) => v.mark
    case Entry(k, v) => k.mark || v.mark
    case Item(v) => v.mark
  }

  predicate AnyMarkedSlot<V>(slots: seq<Slot<Marked<V>>>) {
    exists i :: 0 <= i < |slots| && MarkedSlot(slots[i])
  }

  function StripPlace<V>(p: Place<Marked<V>>): Place<V> {
    match p
    case Name(n) => Name(n)
    case FieldOf(base, n) => FieldOf(base.v, n)
    case Part(kind, parts) => Part(kind, Strip(parts))
  }

  predicate MarkedPlace<V>(p: Place<Marked<V>>) {
    match p
    case Name(_) => false
    case FieldOf(base, _) => base.mark
    case Part(_, parts) => AnyMarked(parts)
  }

  // The outcome, with a note when a marked value had a part in it.
  function Note<V, S>(noted: bool, o: Outcome<S, V>): Outcome<Seen<S>, Marked<V>> {
    match o
    case Done(s, v) => Done(Seen(s, noted), Marked(v, false))
    case Panicked(s, v) => Panicked(Seen(s, noted), Marked(v, false))
  }

  function StripEnding<V, S>(e: Ending<Seen<S>, Marked<V>>): Ending<S, V> {
    match e
    case Results(s, vs) => Results(s.s, Strip(vs))
    case Panic(s, v) => Panic(s.s, v.v)
    case Unfinished => Unfinished
  }

  // The ending shows that a marked value was used, or gives one.
  predicate Tells<V, S>(e: Ending<Seen<S>, Marked<V>>) {
    match e
    case Results(s, vs) => s.noted || AnyMarked(vs)
    case Panic(s, v) => s.noted || v.mark
    case Unfinished => false
  }

  function NoteEnding<V, S>(noted: bool, e: Ending<S, V>): Ending<Seen<S>, Marked<V>> {
    match e
    case Results(s, vs) => Results(Seen(s, noted), Clean(vs))
    case Panic(s, v) => Panic(Seen(s, noted), Marked(v, false))
    case Unfinished => Unfinished
  }

  function Made<V, S>(w: World<V, S>, s: S, t: Option<Marked<V>>, slots: seq<Slot<Marked<V>>>): Outcome<S, V> {
    w.literal(s, if t.Some? then Some(t.value.v) else None, seq(|slots|, i requires 0 <= i < |slots| => StripSlot(slots[i])))
  }

  // Does what the world does, whatever is marked, and notes what is done with marked values.
  function Watch<V, S>(w: World<V, S>): World<Marked<V>, Seen<S>> {
    World(
      (text: string) => Marked(w.lit(text), false),
      (name: string) => Marked(w.universe(name), false),
      (s: Seen<S>, x: Marked<V>, field: string) => Note(s.noted || x.mark, w.select(s.s, x.v, field)),
      (s: Seen<S>, op: string, x: Marked<V>) => Note(s.noted || x.mark, w.unary(s.s, op, x.v)),
      (op: string, x: Marked<V>) => match w.short(op, x.v) case None => None case Some(v) => Some(Marked(v, x.mark)),
      (s: Seen<S>, op: string, x: Marked<V>, y: Marked<V>) => Note(s.noted || x.mark || y.mark, w.binary(s.s, op, x.v, y.v)),
      (s: Seen<S>, kind: string, vs: seq<Marked<V>>) => Note(s.noted || AnyMarked(vs), w.other(s.s, kind, Strip(vs))),
      (e: Expr, m: map<string, Marked<V>>) => Marked(w.typed(e, StripMap(m)), MarkedMap(m)),
      (s: Seen<S>, t: Option<Marked<V>>, slots: seq<Slot<Marked<V>>>) =>
        Note(s.noted || (t.Some? && t.value.mark) || AnyMarkedSlot(slots), Made(w, s.s, t, slots)),
      (params: seq<string>, body: seq<Stmt>, m: map<string, Marked<V>>) =>
        Marked(w.closure(params, body, StripMap(m)), MarkedMap(m)),
      (s: Seen<S>, f: Marked<V>, vs: seq<Marked<V>>) => Note(s.noted || f.mark || AnyMarked(vs), w.call(s.s, f.v, Strip(vs))),
      (vs: seq<Marked<V>>, n: nat) => Respread(w, vs, n),
      (x: Marked<V>) => w.holds(x.v),
      (s: Seen<S>, x: Marked<V>) => Remark(x.mark, w.items(s.s, x.v)),
      (s: Seen<S>, p: Place<Marked<V>>, v: Marked<V>) =>
        Note(s.noted || MarkedPlace(p) || v.mark, w.store(s.s, StripPlace(p), v.v)),
      (name: string) => Marked(w.zero(name), false),
      (s: Seen<S>, cases: seq<seq<Marked<V>>>) => Rechosen(s, cases, w.wait(s.s, StripAll(cases))),
      (s: Seen<S>, f: Marked<V>, vs: seq<Marked<V>>) =>
        Seen(w.spawn(s.s, f.v, Strip(vs)), s.noted || f.mark || AnyMarked(vs)),
      (s: Seen<S>, f: Marked<V>, vs: seq<Marked<V>>) =>
        Seen(w.later(s.s, f.v, Strip(vs)), s.noted || f.mark || AnyMarked(vs)),
      (e: Ending<Seen<S>, Marked<V>>) => NoteEnding(Tells(e), w.unwind(StripEnding(e))))
  }

  function Respread<V, S>(w: World<V, S>, vs: seq<Marked<V>>, n: nat): seq<Marked<V>> {
    var spread := w.spread(Strip(vs), n);
    seq(|spread|, i requires 0 <= i < |spread| => Marked(spread[i], AnyMarked(vs)))
  }

  function Remark<V>(mark: bool, items: seq<(V, V)>): seq<(Marked<V>, Marked<V>)> {
    seq(|items|, i requires 0 <= i < |items| => (Marked(items[i].0, mark), Marked(items[i].1, mark)))
  }

  function StripAll<V>(cases: seq<seq<Marked<V>>>): seq<seq<V>> {
    seq(|cases|, i requires 0 <= i < |cases| => Strip(cases[i]))
  }

  predicate AnyMarkedCase<V>(cases: seq<seq<Marked<V>>>) {
    exists i :: 0 <= i < |cases| && AnyMarked(cases[i])
  }

  function Rechosen<V, S>(s: Seen<S>, cases: seq<seq<Marked<V>>>, chosen: Chosen<S, V>): Chosen<Seen<S>, Marked<V>> {
    Chosen(Seen(chosen.state, s.noted || AnyMarkedCase(cases)), chosen.k, Clean(chosen.received))
  }

  // ---- Without marks there is no note ----

  ghost predicate CleanScope<V>(scope: map<string, Marked<V>>) {
    forall n | n in scope :: !scope[n].mark
  }

  ghost predicate CleanEnv<V>(env: Env<Marked<V>>) {
    forall i | 0 <= i < |env| :: CleanScope(env[i])
  }

  // What was noted stays noted, and from a clean start nothing is noted and nothing marked comes out.
  ghost predicate Quiet<S>(clean: bool, s: Seen<S>, t: Seen<S>, cleanly: bool) {
    (s.noted ==> t.noted) && (clean && !s.noted ==> !t.noted && cleanly)
  }

  ghost predicate QuietOutcome<S, V>(clean: bool, s: Seen<S>, o: Outcome<Seen<S>, Marked<V>>) {
    Quiet(clean, s, o.state, !o.value.mark)
  }

  // A world that notes what is done with marked values, and marks nothing by itself.
  ghost predicate Watches<V(!new), S(!new)>(w: World<Marked<V>, Seen<S>>) {
    WatchesValues(w) && WatchesOperators(w) && WatchesCalls(w) && WatchesStores(w)
  }

  ghost predicate WatchesValues<V(!new), S(!new)>(w: World<Marked<V>, Seen<S>>) {
    && (forall text :: !w.lit(text).mark) && (forall n :: !w.universe(n).mark) && (forall n :: !w.zero(n).mark)
    && (forall op, x: Marked<V> | w.short(op, x).Some? :: w.short(op, x).value.mark ==> x.mark)
    && (forall e, m: map<string, Marked<V>> :: w.typed(e, m).mark ==> MarkedMap(m))
    && (forall params, body, m: map<string, Marked<V>> :: w.closure(params, body, m).mark ==> MarkedMap(m))
    && (forall vs: seq<Marked<V>>, n :: AnyMarked(w.spread(vs, n)) ==> AnyMarked(vs))
    && (forall s: Seen<S>, x: Marked<V> :: !x.mark ==> CleanItems(w.items(s, x)))
  }

  ghost predicate WatchesOperators<V(!new), S(!new)>(w: World<Marked<V>, Seen<S>>) {
    && (forall s: Seen<S>, x: Marked<V>, field :: QuietOutcome(!x.mark, s, w.select(s, x, field)))
    && (forall s: Seen<S>, op, x: Marked<V> :: QuietOutcome(!x.mark, s, w.unary(s, op, x)))
    && (forall s: Seen<S>, op, x: Marked<V>, y: Marked<V> :: QuietOutcome(!x.mark && !y.mark, s, w.binary(s, op, x, y)))
    && (forall s: Seen<S>, kind, vs: seq<Marked<V>> :: QuietOutcome(!AnyMarked(vs), s, w.other(s, kind, vs)))
  }

  ghost predicate WatchesCalls<V(!new), S(!new)>(w: World<Marked<V>, Seen<S>>) {
    && (forall s: Seen<S>, f: Marked<V>, vs: seq<Marked<V>> ::
          QuietOutcome(!f.mark && !AnyMarked(vs), s, w.call(s, f, vs)))
    && (forall s: Seen<S>, f: Marked<V>, vs: seq<Marked<V>> :: Quiet(!f.mark && !AnyMarked(vs), s, w.spawn(s, f, vs), true))
    && (forall s: Seen<S>, f: Marked<V>, vs: seq<Marked<V>> :: Quiet(!f.mark && !AnyMarked(vs), s, w.later(s, f, vs), true))
  }

  ghost predicate WatchesStores<V(!new), S(!new)>(w: World<Marked<V>, Seen<S>>) {
    && (forall s: Seen<S>, t: Option<Marked<V>>, slots: seq<Slot<Marked<V>>> ::
          QuietOutcome(!(t.Some? && t.value.mark) && !AnyMarkedSlot(slots), s, w.literal(s, t, slots)))
    && (forall s: Seen<S>, place: Place<Marked<V>>, v: Marked<V> ::
          QuietOutcome(!MarkedPlace(place) && !v.mark, s, w.store(s, place, v)))
    && (forall s: Seen<S>, cases: seq<seq<Marked<V>>> ::
          Quiet(!AnyMarkedCase(cases), s, w.wait(s, cases).state, !AnyMarked(w.wait(s, cases).received)))
  }

  ghost predicate CleanItems<V>(items: seq<(Marked<V>, Marked<V>)>) {
    forall i | 0 <= i < |items| :: !items[i].0.mark && !items[i].1.mark
  }

  lemma {:induction false} NoteIsQuiet<V, S>(s: Seen<S>, marked: bool, o: Outcome<S, V>)
    ensures QuietOutcome(!marked, s, Note(s.noted || marked, o))
  {
  }

  lemma {:induction false} WatchWatches<V(!new), S(!new)>(w: World<V, S>)
    ensures Watches(Watch(w))
  {
    WatchValues(w);
    WatchOperators(w);
    WatchCalls(w);
    WatchStores(w);
  }

  lemma {:induction false} WatchValues<V(!new), S(!new)>(w: World<V, S>)
    ensures WatchesValues(Watch(w))
  {
    forall vs: seq<Marked<V>>, n
      ensures AnyMarked(Watch(w).spread(vs, n)) ==> AnyMarked(vs)
    {
      assert Watch(w).spread(vs, n) == Respread(w, vs, n);
    }
    forall s: Seen<S>, x: Marked<V>
      ensures !x.mark ==> CleanItems(Watch(w).items(s, x))
    {
      assert Watch(w).items(s, x) == Remark(x.mark, w.items(s.s, x.v));
    }
  }

  lemma {:induction false} WatchOperators<V(!new), S(!new)>(w: World<V, S>)
    ensures WatchesOperators(Watch(w))
  {
    forall s: Seen<S>, x: Marked<V>, field
      ensures QuietOutcome(!x.mark, s, Watch(w).select(s, x, field))
    {
      NoteIsQuiet(s, x.mark, w.select(s.s, x.v, field));
    }
    forall s: Seen<S>, op, x: Marked<V>
      ensures QuietOutcome(!x.mark, s, Watch(w).unary(s, op, x))
    {
      NoteIsQuiet(s, x.mark, w.unary(s.s, op, x.v));
    }
    forall s: Seen<S>, op, x: Marked<V>, y: Marked<V>
      ensures QuietOutcome(!x.mark && !y.mark, s, Watch(w).binary(s, op, x, y))
    {
      NoteIsQuiet(s, x.mark || y.mark, w.binary(s.s, op, x.v, y.v));
    }
    forall s: Seen<S>, kind, vs: seq<Marked<V>>
      ensures QuietOutcome(!AnyMarked(vs), s, Watch(w).other(s, kind, vs))
    {
      NoteIsQuiet(s, AnyMarked(vs), w.other(s.s, kind, Strip(vs)));
    }
  }

  lemma {:induction false} WatchCalls<V(!new), S(!new)>(w: World<V, S>)
    ensures WatchesCalls(Watch(w))
  {
    forall s: Seen<S>, f: Marked<V>, vs: seq<Marked<V>>
      ensures QuietOutcome(!f.mark && !AnyMarked(vs), s, Watch(w).call(s, f, vs))
    {
      NoteIsQuiet(s, f.mark || AnyMarked(vs), w.call(s.s, f.v, Strip(vs)));
    }
  }

  lemma {:induction false} WatchStores<V(!new), S(!new)>(w: World<V, S>)
    ensures WatchesStores(Watch(w))
  {
    forall s: Seen<S>, place: Place<Marked<V>>, v: Marked<V>
      ensures QuietOutcome(!MarkedPlace(place) && !v.mark, s, Watch(w).store(s, place, v))
    {
      NoteIsQuiet(s, MarkedPlace(place) || v.mark, w.store(s.s, StripPlace(place), v.v));
    }
    forall s: Seen<S>, cases: seq<seq<Marked<V>>>
      ensures Quiet(!AnyMarkedCase(cases), s, Watch(w).wait(s, cases).state, !AnyMarked(Watch(w).wait(s, cases).received))
    {
      assert Watch(w).wait(s, cases) == Rechosen(s, cases, w.wait(s.s, StripAll(cases)));
    }
    forall s: Seen<S>, t: Option<Marked<V>>, slots: seq<Slot<Marked<V>>>
      ensures QuietOutcome(!(t.Some? && t.value.mark) && !AnyMarkedSlot(slots), s, Watch(w).literal(s, t, slots))
    {
      NoteIsQuiet(s, (t.Some? && t.value.mark) || AnyMarkedSlot(slots), Made(w, s.s, t, slots));
    }
  }

  lemma {:induction false} TailIsClean<V>(vs: seq<Marked<V>>)
    requires vs != [] && !AnyMarked(vs)
    ensures !vs[0].mark && !AnyMarked(vs[1..])
  {
    assert forall i | 0 <= i < |vs[1..]| :: vs[1..][i] == vs[i + 1];
  }

  ghost predicate CleanValues<S, V>(o: Outcomes<Seen<S>, Marked<V>, Marked<V>>) {
    if o.All? then !AnyMarked(o.values) else !o.value.mark
  }

  ghost predicate CleanSlots<S, V>(o: Outcomes<Seen<S>, Slot<Marked<V>>, Marked<V>>) {
    if o.All? then !AnyMarkedSlot(o.values) else !o.value.mark
  }

  lemma {:induction false} CleanFind<V>(env: Env<Marked<V>>, n: string)
    requires CleanEnv(env)
    ensures Find(env, n).Some? ==> !Find(env, n).value.mark
    decreases env
  {
    if env != [] {
      assert CleanScope(env[0]);
      CleanFind(env[1..], n);
    }
  }

  lemma {:induction false} CleanCaptured<V>(env: Env<Marked<V>>, names: set<string>)
    requires CleanEnv(env)
    ensures !MarkedMap(Captured(env, names))
  {
    forall n | n in names
      ensures Find(env, n).Some? ==> !Find(env, n).value.mark
    {
      CleanFind(env, n);
    }
  }

  lemma {:induction false} QuietEval<V(!new), S(!new)>(w: World<Marked<V>, Seen<S>>, env: Env<Marked<V>>, s: Seen<S>,
          e: Expr)
    requires Watches(w)
    ensures var o := Eval(w, env, s, e); Quiet(CleanEnv(env), s, o.state, !o.value.mark)
    decreases e, 0
  {
    match e
    case Ident(n) => if CleanEnv(env) { CleanFind(env, n); }
    case Lit(_) =>
    case Selector(x, _) => QuietEval(w, env, s, x);
    case Paren(x) => QuietEval(w, env, s, x);
    case Unary(_, x) => QuietEval(w, env, s, x);
    case Binary(_, x, y) =>
      QuietEval(w, env, s, x);
      QuietEval(w, env, Eval(w, env, s, x).state, y);
    case KeyValue(k, v) =>
      QuietEval(w, env, s, k);
      QuietEval(w, env, Eval(w, env, s, k).state, v);
    case MapType(_, _) => if CleanEnv(env) { CleanCaptured(env, NamesOf(e)); }
    case Composite(typ, keys, elements) =>
      if typ.Some? && CleanEnv(env) { CleanCaptured(env, NamesOf(typ.value)); }
      QuietElements(w, env, s, keys, elements);
    case Call(f, args) =>
      QuietEval(w, env, s, f);
      QuietAll(w, env, Eval(w, env, s, f).state, args);
    case FuncLit(_, body) => if CleanEnv(env) { CleanCaptured(env, NamesOfStmts(body)); }
    case Other(_, parts) => QuietAll(w, env, s, parts);
  }

  lemma {:induction false} QuietAll<V(!new), S(!new)>(w: World<Marked<V>, Seen<S>>, env: Env<Marked<V>>, s: Seen<S>,
          es: seq<Expr>)
    requires Watches(w)
    ensures var o := EvalAll(w, env, s, es); Quiet(CleanEnv(env), s, o.state, CleanValues(o))
    decreases es, 0
  {
    if es != [] {
      QuietEval(w, env, s, es[0]);
      QuietAll(w, env, Eval(w, env, s, es[0]).state, es[1..]);
    }
  }

  lemma {:induction false} OneSlot<V>(slot: Slot<Marked<V>>)
    ensures AnyMarkedSlot([slot]) <==> MarkedSlot(slot)
  {
    assert [slot][0] == slot;
  }

  lemma {:induction false} QuietElement<V(!new), S(!new)>(w: World<Marked<V>, Seen<S>>, env: Env<Marked<V>>,
          s: Seen<S>, keys: Keys, e: Expr)
    requires Watches(w)
    ensures var o := EvalElement(w, env, s, keys, e); Quiet(CleanEnv(env), s, o.state, CleanSlots(o))
    decreases e, 1
  {
    var o := EvalElement(w, env, s, keys, e);
    match e
    case KeyValue(k, v) =>
      if k.Ident? && keys.Fields? {
        QuietEval(w, env, s, v);
      } else {
        QuietEval(w, env, s, k);
        QuietEval(w, env, Eval(w, env, s, k).state, v);
      }
      if o.All? { OneSlot(o.values[0]); }
    case _ =>
      QuietEval(w, env, s, e);
      if o.All? { OneSlot(o.values[0]); }
  }

  lemma {:induction false} QuietElements<V(!new), S(!new)>(w: World<Marked<V>, Seen<S>>, env: Env<Marked<V>>,
          s: Seen<S>, keys: Keys, es: seq<Expr>)
    requires Watches(w)
    ensures var o := EvalElements(w, env, s, keys, es); Quiet(CleanEnv(env), s, o.state, CleanSlots(o))
    decreases es, 0
  {
    if es != [] {
      QuietElement(w, env, s, keys, es[0]);
      QuietElements(w, env, EvalElement(w, env, s, keys, es[0]).state, keys, es[1..]);
    }
  }

  ghost predicate CleanPlaces<S, V>(o: Outcomes<Seen<S>, Place<Marked<V>>, Marked<V>>) {
    if o.All? then NoneMarked(o.values) else !o.value.mark
  }

  lemma {:induction false} QuietPlace<V(!new), S(!new)>(w: World<Marked<V>, Seen<S>>, env: Env<Marked<V>>, s: Seen<S>,
          e: Expr)
    requires Watches(w)
    ensures var o := EvalPlace(w, env, s, e); Quiet(CleanEnv(env), s, o.state, CleanPlaces(o))
    decreases e
  {
    match e
    case Ident(_) =>
    case Paren(x) => QuietPlace(w, env, s, x);
    case Selector(x, _) => QuietEval(w, env, s, x);
    case Other(_, parts) => QuietAll(w, env, s, parts);
    case _ => QuietEval(w, env, s, e);
  }

  lemma {:induction false} QuietPlaces<V(!new), S(!new)>(w: World<Marked<V>, Seen<S>>, env: Env<Marked<V>>, s: Seen<S>,
          es: seq<Expr>)
    requires Watches(w)
    ensures var o := EvalPlaces(w, env, s, es); Quiet(CleanEnv(env), s, o.state, CleanPlaces(o))
    decreases es
  {
    if es != [] {
      QuietPlace(w, env, s, es[0]);
      QuietPlaces(w, env, EvalPlace(w, env, s, es[0]).state, es[1..]);
    }
  }

  lemma {:induction false} CleanUpdate<V>(env: Env<Marked<V>>, n: string, v: Marked<V>)
    requires CleanEnv(env) && !v.mark
    ensures CleanEnv(Update(env, n, v))
    decreases env
  {
    if env != [] {
      assert CleanScope(env[0]);
      CleanUpdate(env[1..], n, v);
    }
  }

  lemma {:induction false} CleanFirst<V>(scope: map<string, Marked<V>>, env: Env<Marked<V>>)
    requires CleanScope(scope) && CleanEnv(env)
    ensures CleanEnv([scope] + env)
  {
  }

  lemma {:induction false} CleanDeclare<V>(env: Env<Marked<V>>, name: string, v: Marked<V>)
    requires CleanEnv(env) && !v.mark
    ensures CleanEnv(Declare(env, name, v))
  {
    assert env != [] ==> CleanScope(env[0]);
  }

  lemma {:induction false} CleanDeclareAll<V>(env: Env<Marked<V>>, names: seq<string>, vs: seq<Marked<V>>)
    requires CleanEnv(env) && !AnyMarked(vs)
    ensures CleanEnv(DeclareAll(env, names, vs))
    decreases names
  {
    if names != [] && vs != [] {
      TailIsClean(vs);
      CleanDeclare(env, names[0], vs[0]);
      CleanDeclareAll(Declare(env, names[0], vs[0]), names[1..], vs[1..]);
    }
  }

  // ---- Statements ----

  // How the run leaves the state, and the environment or what it gives.
  ghost predicate QuietRun<S, V>(clean: bool, s: Seen<S>, r: Run<Seen<S>, Marked<V>>) {
    match r
    case Next(env, t) => Quiet(clean, s, t, CleanEnv(env))
    case Broke(env, t) => Quiet(clean, s, t, CleanEnv(env))
    case Continued(env, t) => Quiet(clean, s, t, CleanEnv(env))
    case Bare(env, t) => Quiet(clean, s, t, CleanEnv(env))
    case Returned(t, vs) => Quiet(clean, s, t, !AnyMarked(vs))
    case Crashed(t, v) => Quiet(clean, s, t, !v.mark)
    case OutOfFuel => true
  }

  ghost predicate NoneMarked<V>(places: seq<Place<Marked<V>>>) {
    forall i | 0 <= i < |places| :: !MarkedPlace(places[i])
  }

  lemma {:induction false} QuietAssign<V(!new), S(!new)>(w: World<Marked<V>, Seen<S>>, env: Env<Marked<V>>, s: Seen<S>,
          places: seq<Place<Marked<V>>>, vs: seq<Marked<V>>)
    requires Watches(w)
    ensures QuietRun(CleanEnv(env) && NoneMarked(places) && !AnyMarked(vs), s, AssignAll(w, env, s, places, vs))
    decreases places
  {
    if places != [] && vs != [] {
      if !AnyMarked(vs) { TailIsClean(vs); }
      if places[0].Name? {
        if CleanEnv(env) && !AnyMarked(vs) { CleanUpdate(env, places[0].name, vs[0]); }
        QuietAssign(w, Update(env, places[0].name, vs[0]), s, places[1..], vs[1..]);
      } else {
        QuietAssign(w, env, w.store(s, places[0], vs[0]).state, places[1..], vs[1..]);
      }
    }
  }

  lemma {:induction false} QuietLeave<S, V>(clean: bool, s: Seen<S>, r: Run<Seen<S>, Marked<V>>)
    requires QuietRun(clean, s, r)
    ensures QuietRun(clean, s, Leave(r))
  {
  }

  lemma {:induction false} QuietBlock<V(!new), S(!new)>(w: World<Marked<V>, Seen<S>>, env: Env<Marked<V>>, s: Seen<S>,
          fuel: nat, stmts: seq<Stmt>)
    requires Watches(w)
    ensures QuietRun(CleanEnv(env), s, ExecBlock(w, env, s, fuel, stmts))
    decreases fuel, stmts, 1
  {
    var inner: map<string, Marked<V>> := map[];
    if CleanEnv(env) { CleanFirst(inner, env); }
    QuietExecAll(w, [inner] + env, s, fuel, stmts);
    QuietLeave(CleanEnv([inner] + env), s, ExecAll(w, [inner] + env, s, fuel, stmts));
  }

  lemma {:induction false} QuietExecAll<V(!new), S(!new)>(w: World<Marked<V>, Seen<S>>, env: Env<Marked<V>>,
          s: Seen<S>, fuel: nat, stmts: seq<Stmt>)
    requires Watches(w)
    ensures QuietRun(CleanEnv(env), s, ExecAll(w, env, s, fuel, stmts))
    decreases fuel, stmts, 0
  {
    if stmts != [] {
      QuietExec(w, env, s, fuel, stmts[0]);
      var r := Exec(w, env, s, fuel, stmts[0]);
      if r.Next? {
        QuietExecAll(w, r.env, r.state, fuel, stmts[1..]);
      }
    }
  }

  lemma {:induction false} QuietExec<V(!new), S(!new)>(w: World<Marked<V>, Seen<S>>, env: Env<Marked<V>>, s: Seen<S>,
          fuel: nat, stmt: Stmt)
    requires Watches(w)
    ensures QuietRun(CleanEnv(env), s, Exec(w, env, s, fuel, stmt))
    decreases fuel, stmt, 1
  {
    match stmt
    case ExprStmt(x) => QuietEval(w, env, s, x);
    case Assign(targets, values) => QuietAssigned(w, env, s, fuel, targets, values);
    case Define(names, values) => QuietDefined(w, env, s, fuel, names, values);
    case Return(values) => QuietAll(w, env, s, values);
    case If(c, yes, no) => QuietIf(w, env, s, fuel, c, yes, no);
    case For(c, post, body) => QuietLoop(w, env, s, fuel, c, post, body);
    case Range(k, v, x, body) => QuietRange(w, env, s, fuel, k, v, x, body);
    case Block(body) => QuietBlock(w, env, s, fuel, body);
    case Break =>
    case Continue =>
    case Switch(bound, tag, clauses) => QuietSwitch(w, env, s, fuel, bound, tag, clauses);
    case Select(comms) => QuietSelect(w, env, s, fuel, comms);
    case Go(f, args) => QuietCall(w, env, s, f, args);
    case Defer(f, args) => QuietCall(w, env, s, f, args);
  }

  lemma {:induction false} QuietIf<V(!new), S(!new)>(w: World<Marked<V>, Seen<S>>, env: Env<Marked<V>>, s: Seen<S>,
          fuel: nat, c: Expr, yes: seq<Stmt>, no: seq<Stmt>)
    requires Watches(w)
    ensures QuietRun(CleanEnv(env), s, Exec(w, env, s, fuel, If(c, yes, no)))
    decreases fuel, If(c, yes, no), 0
  {
    QuietEval(w, env, s, c);
    QuietBlock(w, env, Eval(w, env, s, c).state, fuel, yes);
    QuietBlock(w, env, Eval(w, env, s, c).state, fuel, no);
  }

  lemma {:induction false} QuietRange<V(!new), S(!new)>(w: World<Marked<V>, Seen<S>>, env: Env<Marked<V>>, s: Seen<S>,
          fuel: nat, k: string, v: string, x: Expr, body: seq<Stmt>)
    requires Watches(w)
    ensures QuietRun(CleanEnv(env), s, Exec(w, env, s, fuel, Range(k, v, x, body)))
    decreases fuel, Range(k, v, x, body), 0
  {
    QuietEval(w, env, s, x);
    var a := Eval(w, env, s, x);
    QuietItems(w, env, a.state, fuel, k, v, w.items(a.state, a.value), body);
  }

  lemma {:induction false} QuietAssigned<V(!new), S(!new)>(w: World<Marked<V>, Seen<S>>, env: Env<Marked<V>>,
          s: Seen<S>, fuel: nat, targets: seq<Expr>, values: seq<Expr>)
    requires Watches(w)
    ensures QuietRun(CleanEnv(env), s, Exec(w, env, s, fuel, Assign(targets, values)))
    decreases fuel, Assign(targets, values), 0
  {
    QuietPlaces(w, env, s, targets);
    var places := EvalPlaces(w, env, s, targets);
    QuietAll(w, env, places.state, values);
    var vs := EvalAll(w, env, places.state, values);
    if places.All? && vs.All? {
      QuietAssign(w, env, vs.state, places.values, Spread(w, vs.values, |targets|));
    }
  }

  lemma {:induction false} QuietDefined<V(!new), S(!new)>(w: World<Marked<V>, Seen<S>>, env: Env<Marked<V>>,
          s: Seen<S>, fuel: nat, names: seq<string>, values: seq<Expr>)
    requires Watches(w)
    ensures QuietRun(CleanEnv(env), s, Exec(w, env, s, fuel, Define(names, values)))
    decreases fuel, Define(names, values), 0
  {
    QuietAll(w, env, s, values);
    var vs := EvalAll(w, env, s, values);
    if vs.All? && CleanEnv(env) && !AnyMarked(vs.values) {
      CleanDeclareAll(env, names, Spread(w, vs.values, |names|));
    }
  }

  lemma {:induction false} QuietCall<V(!new), S(!new)>(w: World<Marked<V>, Seen<S>>, env: Env<Marked<V>>, s: Seen<S>,
          f: Expr, args: seq<Expr>)
    requires Watches(w)
    ensures var o := EvalCall(w, env, s, f, args); Quiet(CleanEnv(env), s, o.state, CleanValues(o))
  {
    QuietEval(w, env, s, f);
    QuietAll(w, env, Eval(w, env, s, f).state, args);
  }

  lemma {:induction false} QuietFits<V(!new), S(!new)>(w: World<Marked<V>, Seen<S>>, env: Env<Marked<V>>, s: Seen<S>,
          typed: bool, tag: seq<Marked<V>>, fit: Expr)
    requires Watches(w)
    ensures var o := Fits(w, env, s, typed, tag, fit); Quiet(CleanEnv(env) && !AnyMarked(tag), s, o.state, !o.value.mark)
  {
    if typed {
      if CleanEnv(env) { CleanCaptured(env, NamesOf(fit)); }
    } else {
      QuietEval(w, env, s, fit);
    }
  }

  ghost predicate CleanPicked<S, V>(o: Picked<Seen<S>, Marked<V>>) {
    o.PickFailed? ==> !o.value.mark
  }

  lemma {:induction false} QuietAnyFits<V(!new), S(!new)>(w: World<Marked<V>, Seen<S>>, env: Env<Marked<V>>,
          s: Seen<S>, typed: bool, tag: seq<Marked<V>>, labels: seq<Expr>)
    requires Watches(w)
    ensures var o := AnyFits(w, env, s, typed, tag, labels);
      Quiet(CleanEnv(env) && !AnyMarked(tag), s, o.state, CleanPicked(o))
    decreases labels
  {
    if labels != [] {
      QuietFits(w, env, s, typed, tag, labels[0]);
      QuietAnyFits(w, env, Fits(w, env, s, typed, tag, labels[0]).state, typed, tag, labels[1..]);
    }
  }

  lemma {:induction false} QuietPick<V(!new), S(!new)>(w: World<Marked<V>, Seen<S>>, env: Env<Marked<V>>, s: Seen<S>,
          typed: bool, tag: seq<Marked<V>>, clauses: seq<Clause>)
    requires Watches(w)
    ensures var o := Pick(w, env, s, typed, tag, clauses);
      Quiet(CleanEnv(env) && !AnyMarked(tag), s, o.state, CleanPicked(o))
    decreases clauses
  {
    if clauses != [] {
      QuietAnyFits(w, env, s, typed, tag, clauses[0].labels);
      QuietPick(w, env, AnyFits(w, env, s, typed, tag, clauses[0].labels).state, typed, tag, clauses[1..]);
    }
  }

  lemma {:induction false} QuietSwitch<V(!new), S(!new)>(w: World<Marked<V>, Seen<S>>, env: Env<Marked<V>>, s: Seen<S>,
          fuel: nat, bound: Option<string>, tag: Option<Expr>, clauses: seq<Clause>)
    requires Watches(w)
    ensures QuietRun(CleanEnv(env), s, Exec(w, env, s, fuel, Switch(bound, tag, clauses)))
    decreases fuel, Switch(bound, tag, clauses), 0
  {
    if tag.Some? { QuietEval(w, env, s, tag.value); }
    var t := EvalTag(w, env, s, tag);
    if t.All? {
      QuietPick(w, env, t.state, bound.Some?, t.values, clauses);
      var picked := Pick(w, env, t.state, bound.Some?, t.values, clauses);
      if picked.Picked? {
        var k := if picked.k < |clauses| then picked.k else DefaultOf(clauses);
        QuietClauses(w, env, picked.state, fuel, if bound.Some? then [bound.value] else [], t.values, clauses, k);
      }
    }
  }

  // The body of a clause, in a scope of its own.
  lemma {:induction false} QuietScoped<V(!new), S(!new)>(w: World<Marked<V>, Seen<S>>, env: Env<Marked<V>>, s: Seen<S>,
          fuel: nat, names: seq<string>, vs: seq<Marked<V>>, body: seq<Stmt>)
    requires Watches(w)
    ensures QuietRun(CleanEnv(env) && !AnyMarked(vs), s,
      Leave(ExecAll(w, DeclareAll([map[]] + env, names, vs), s, fuel, body)))
    decreases fuel, body, 2
  {
    var inner: map<string, Marked<V>> := map[];
    var scope := DeclareAll([inner] + env, names, vs);
    if CleanEnv(env) && !AnyMarked(vs) {
      CleanFirst(inner, env);
      CleanDeclareAll([inner] + env, names, vs);
    }
    QuietExecAll(w, scope, s, fuel, body);
    QuietLeave(CleanEnv(scope), s, ExecAll(w, scope, s, fuel, body));
  }

  lemma {:induction false} QuietClauses<V(!new), S(!new)>(w: World<Marked<V>, Seen<S>>, env: Env<Marked<V>>,
          s: Seen<S>, fuel: nat, names: seq<string>, vs: seq<Marked<V>>, clauses: seq<Clause>, k: nat)
    requires Watches(w)
    ensures QuietRun(CleanEnv(env) && !AnyMarked(vs), s, ExecClauses(w, env, s, fuel, names, vs, clauses, k))
    decreases fuel, clauses, 3
  {
    if clauses != [] {
      if k > 0 {
        QuietClauses(w, env, s, fuel, names, vs, clauses[1..], k - 1);
      } else {
        QuietScoped(w, env, s, fuel, names, vs, clauses[0].body);
        var r := Leave(ExecAll(w, DeclareAll([map[]] + env, names, vs), s, fuel, clauses[0].body));
        if r.Next? && clauses[0].falls {
          QuietClauses(w, r.env, r.state, fuel, names, vs, clauses[1..], 0);
        }
      }
    }
  }

  ghost predicate CleanCases<S, V>(o: Outcomes<Seen<S>, seq<Marked<V>>, Marked<V>>) {
    if o.All? then !AnyMarkedCase(o.values) else !o.value.mark
  }

  lemma {:induction false} QuietComms<V(!new), S(!new)>(w: World<Marked<V>, Seen<S>>, env: Env<Marked<V>>, s: Seen<S>,
          comms: seq<Comm>)
    requires Watches(w)
    ensures var o := EvalComms(w, env, s, comms); Quiet(CleanEnv(env), s, o.state, CleanCases(o))
    decreases comms
  {
    if comms != [] {
      QuietAll(w, env, s, comms[0].parts);
      QuietComms(w, env, EvalAll(w, env, s, comms[0].parts).state, comms[1..]);
    }
  }

  lemma {:induction false} QuietSelect<V(!new), S(!new)>(w: World<Marked<V>, Seen<S>>, env: Env<Marked<V>>, s: Seen<S>,
          fuel: nat, comms: seq<Comm>)
    requires Watches(w)
    ensures QuietRun(CleanEnv(env), s, Exec(w, env, s, fuel, Select(comms)))
    decreases fuel, Select(comms), 0
  {
    QuietComms(w, env, s, comms);
    var parts := EvalComms(w, env, s, comms);
    if parts.All? {
      var chosen := w.wait(parts.state, parts.values);
      if chosen.k < |comms| {
        QuietScoped(w, env, chosen.state, fuel, comms[chosen.k].names, chosen.received, comms[chosen.k].body);
      }
    }
  }

  lemma {:induction false} QuietLoop<V(!new), S(!new)>(w: World<Marked<V>, Seen<S>>, env: Env<Marked<V>>, s: Seen<S>,
          fuel: nat, c: Expr, post: seq<Stmt>, body: seq<Stmt>)
    requires Watches(w)
    ensures QuietRun(CleanEnv(env), s, Exec(w, env, s, fuel, For(c, post, body)))
    decreases fuel, For(c, post, body), 0
  {
    QuietEval(w, env, s, c);
    var t := Eval(w, env, s, c);
    QuietBlock(w, env, t.state, fuel, body);
    var r := ExecBlock(w, env, t.state, fuel, body);
    if r.Next? || r.Continued? {
      QuietBlock(w, r.env, r.state, fuel, post);
      var p := ExecBlock(w, r.env, r.state, fuel, post);
      if p.Next? && fuel > 0 {
        QuietExec(w, p.env, p.state, fuel - 1, For(c, post, body));
      }
    }
  }

  lemma {:induction false} QuietItems<V(!new), S(!new)>(w: World<Marked<V>, Seen<S>>, env: Env<Marked<V>>, s: Seen<S>,
          fuel: nat, k: string, v: string, items: seq<(Marked<V>, Marked<V>)>, body: seq<Stmt>)
    requires Watches(w)
    ensures QuietRun(CleanEnv(env) && CleanItems(items), s, ExecItems(w, env, s, fuel, k, v, items, body))
    decreases fuel, body, 2, items
  {
    if items != [] {
      var inner: map<string, Marked<V>> := map[];
      var scope := Declare(Declare([inner] + env, k, items[0].0), v, items[0].1);
      if CleanEnv(env) && CleanItems(items) {
        CleanFirst(inner, env);
        CleanDeclare([inner] + env, k, items[0].0);
        CleanDeclare(Declare([inner] + env, k, items[0].0), v, items[0].1);
      }
      QuietExecAll(w, scope, s, fuel, body);
      QuietLeave(CleanEnv(scope), s, ExecAll(w, scope, s, fuel, body));
      var r := Leave(ExecAll(w, scope, s, fuel, body));
      if r.Next? || r.Continued? {
        QuietItems(w, r.env, r.state, fuel, k, v, items[1..], body);
      }
    }
  }

  // ---- A function whose run uses an input ----

  // The values of the inputs, marked or not.
  function Mark<V>(inputs: map<string, V>, mark: bool): map<string, Marked<V>> {
    map n | n in inputs :: Marked(inputs[n], mark)
  }

  // The scopes of the package, with nothing marked.
  function Around<V>(outer: Env<V>): Env<Marked<V>> {
    seq(|outer|, i requires 0 <= i < |outer| => Mark(outer[i], false))
  }

  // How a watched call ends.
  function Watched<V, S>(w: World<V, S>, f: Function, inputs: map<string, Marked<V>>, outer: Env<V>, s: S, fuel: nat)
    : Ending<Seen<S>, Marked<V>>
  {
    CallOf(Watch(w), f, inputs, Around(outer), Seen(s, false), fuel)
  }

  // The run uses an input: in the watched world, where the inputs are marked, it tells.
  ghost predicate Uses<V, S>(w: World<V, S>, f: Function, inputs: map<string, V>, outer: Env<V>, s: S, fuel: nat) {
    Tells(Watched(w, f, Mark(inputs, true), outer, s, fuel))
  }

  lemma {:induction false} CleanLookups<V(!new), S(!new)>(w: World<Marked<V>, Seen<S>>, env: Env<Marked<V>>,
          names: seq<string>)
    requires Watches(w) && CleanEnv(env)
    ensures !AnyMarked(LookupAll(w, env, names))
  {
    if names != [] {
      CleanFind(env, names[0]);
      CleanLookups(w, env, names[1..]);
      var all := LookupAll(w, env, names);
      assert forall i | 0 < i < |all| :: all[i] == all[1..][i - 1];
    }
  }

  lemma {:induction false} UnmarkedIsClean<V(!new), S(!new)>(w: World<Marked<V>, Seen<S>>, f: Function,
          inputs: map<string, V>, outer: Env<V>)
    requires Watches(w)
    ensures CleanEnv(ScopeOf(w, f, Mark(inputs, false), Around(outer)))
  {
    assert !AnyMarked(Zeros(w, f.results));
    assert forall i | 0 <= i < |outer| :: CleanScope(Mark(outer[i], false));
    CleanFirst(Mark(inputs, false), Around(outer));
    CleanDeclareAll([Mark(inputs, false)] + Around(outer), f.results, Zeros(w, f.results));
  }

  lemma {:induction false} NothingToTell<V, S>(e: Ending<S, V>)
    ensures !Tells(NoteEnding(false, e))
  {
  }

  // Where nothing is marked, nothing tells.
  lemma {:induction false} UnmarkedTellNothing<V(!new), S(!new)>(w: World<V, S>, f: Function, inputs: map<string, V>,
          outer: Env<V>, s: S, fuel: nat)
    ensures !Tells(Watched(w, f, Mark(inputs, false), outer, s, fuel))
  {
    var u := Watch(w);
    WatchWatches(w);
    var env := ScopeOf(u, f, Mark(inputs, false), Around(outer));
    UnmarkedIsClean(u, f, inputs, outer);
    QuietExecAll(u, env, Seen(s, false), fuel, f.body);
    var run := ExecAll(u, env, Seen(s, false), fuel, f.body);
    if run.Bare? { CleanLookups(u, run.env, f.results); }
    var body := BodyOf(u, f, Mark(inputs, false), Around(outer), Seen(s, false), fuel);
    assert !Tells(body);
    NothingToTell(w.unwind(StripEnding(body)));
    assert u.unwind(body) == NoteEnding(false, w.unwind(StripEnding(body)));
  }

  // A function some run of which uses an input does not ignore its inputs: there are a world and two inputs, which
  // differ in the marks alone, that end differently.
  lemma {:induction false} UsedInputsTell<V(!new), S(!new)>(w: World<V, S>, f: Function, inputs: map<string, V>,
          outer: Env<V>, s: S, fuel: nat)
    requires Uses(w, f, inputs, outer, s, fuel)
    ensures Watched(w, f, Mark(inputs, true), outer, s, fuel) != Watched(w, f, Mark(inputs, false), outer, s, fuel)
  {
    UnmarkedTellNothing(w, f, inputs, outer, s, fuel);
  }

  // A flagged function can use an input only by a key that is taken for a field name and is none.
  lemma {:induction false} StubUsesOnlyKeys<V(!new), S(!new)>(w: World<V, S>, f: Function, inputs: map<string, V>,
          outer: Env<V>, s: S, fuel: nat)
    requires ReadsNoInputOf(f, Inputs(GroupsOf(f))) && inputs.Keys <= Inputs(GroupsOf(f))
    requires forall n | n in f.results :: n !in Inputs(GroupsOf(f))
    requires Uses(w, f, inputs, outer, s, fuel)
    ensures !KeysAreFieldsStmts(f.body, Inputs(GroupsOf(f)))
  {
    UsedInputsTell(w, f, inputs, outer, s, fuel);
    if KeysAreFieldsStmts(f.body, Inputs(GroupsOf(f))) {
      StubIgnoresItsInputs(Watch(w), f, Mark(inputs, true), Mark(inputs, false), Around(outer), Seen(s, false), fuel);
    }
  }

  // Such a key is used as soon as its literal is made: the state is noted from then on.
  lemma {:induction false} EvaluatedKeyIsNoted<V(!new), S(!new)>(w: World<V, S>, env: Env<Marked<V>>, s: Seen<S>,
          typ: Option<Expr>, elements: seq<Expr>, i: nat)
    requires i < |elements| && elements[i].KeyValue? && elements[i].key.Ident?
    requires Find(env, elements[i].key.name).Some? && Find(env, elements[i].key.name).value.mark
    requires EvalElements(Watch(w), env, s, Entries, elements).All?
    ensures Eval(Watch(w), env, s, Composite(typ, Entries, elements)).state.noted
  {
    MarkedEntry(Watch(w), env, s, elements, i);
  }

  lemma {:induction false} MarkedEntry<V, S>(w: World<Marked<V>, Seen<S>>, env: Env<Marked<V>>, s: Seen<S>,
          elements: seq<Expr>, i: nat)
    requires i < |elements| && elements[i].KeyValue? && elements[i].key.Ident?
    requires Find(env, elements[i].key.name).Some? && Find(env, elements[i].key.name).value.mark
    requires EvalElements(w, env, s, Entries, elements).All?
    ensures AnyMarkedSlot(EvalElements(w, env, s, Entries, elements).values)
    decreases elements
  {
    var first := EvalElement(w, env, s, Entries, elements[0]);
    var rest := EvalElements(w, env, first.state, Entries, elements[1..]);
    var all := EvalElements(w, env, s, Entries, elements);
    assert all.values == first.values + rest.values;
    if i == 0 {
      var key := elements[0].key;
      assert key == Ident(key.name) && Eval(w, env, s, key) == Done(s, Lookup(w, env, key.name));
      assert all.values[0] == first.values[0] && MarkedSlot(first.values[0]);
    } else {
      MarkedEntry(w, env, first.state, elements[1..], i - 1);
      var j :| 0 <= j < |rest.values| && MarkedSlot(rest.values[j]);
      assert (first.values + rest.values)[|first.values| + j] == rest.values[j];
    }
  }

  // What is noted after some statements is told in the end, if there is one.
  lemma {:induction false} NotedIsTold<V(!new), S(!new)>(w: World<V, S>, f: Function, inputs: map<string, V>,
          outer: Env<V>, s: S, fuel: nat, before: seq<Stmt>, after: seq<Stmt>)
    requires f.body == before + after
    requires
      var r := ExecAll(Watch(w), ScopeOf(Watch(w), f, Mark(inputs, true), Around(outer)), Seen(s, false), fuel, before);
      r.Next? && r.state.noted
    requires !BodyOf(Watch(w), f, Mark(inputs, true), Around(outer), Seen(s, false), fuel).Unfinished?
    requires !Watched(w, f, Mark(inputs, true), outer, s, fuel).Unfinished?
    ensures Uses(w, f, inputs, outer, s, fuel)
  {
    var u := Watch(w);
    WatchWatches(w);
    var env := ScopeOf(u, f, Mark(inputs, true), Around(outer));
    ExecInParts(u, env, Seen(s, false), fuel, before, after);
    var r := ExecAll(u, env, Seen(s, false), fuel, before);
    QuietExecAll(u, r.env, r.state, fuel, after);
    EndingTells(u, f.results, CleanEnv(r.env), r.state, ExecAll(u, r.env, r.state, fuel, after));
    var body := BodyOf(u, f, Mark(inputs, true), Around(outer), Seen(s, false), fuel);
    UnwindKeepsTelling(w, body);
  }

  lemma {:induction false} EndingTells<V, S>(w: World<Marked<V>, Seen<S>>, results: seq<string>, clean: bool,
          s: Seen<S>, run: Run<Seen<S>, Marked<V>>)
    requires QuietRun(clean, s, run) && s.noted
    ensures EndingOf(w, results, run).Unfinished? || Tells(EndingOf(w, results, run))
  {
  }

  lemma {:induction false} UnwindKeepsTelling<V, S>(w: World<V, S>, body: Ending<Seen<S>, Marked<V>>)
    requires Tells(body)
    ensures Watch(w).unwind(body).Unfinished? || Tells(Watch(w).unwind(body))
  {
    assert Watch(w).unwind(body) == NoteEnding(true, w.unwind(StripEnding(body)));
  }

  lemma {:induction false} ExecInParts<V, S>(w: World<V, S>, env: Env<V>, s: S, fuel: nat, before: seq<Stmt>,
          after: seq<Stmt>)
    requires ExecAll(w, env, s, fuel, before).Next?
    ensures var r := ExecAll(w, env, s, fuel, before);
      ExecAll(w, env, s, fuel, before + after) == ExecAll(w, r.env, r.state, fuel, after)
    decreases before
  {
    if before == [] {
      assert before + after == after;
    } else {
      var r := Exec(w, env, s, fuel, before[0]);
      ExecInParts(w, r.env, r.state, fuel, before[1..], after);
      assert (before + after)[0] == before[0] && (before + after)[1..] == before[1..] + after;
    }
  }

  // The function that gives a literal of a named map type with an input as the key uses it.
  lemma {:induction false} KeyedByInputIsUsed<V(!new), S(!new)>(w: World<V, S>, key: string, typ: string, text: string,
          a: V, s: S, fuel: nat)
    requires key != typ
    requires w.literal(s, Some(w.typed(Ident(typ), map[])), [Entry(a, w.lit(text))]).Done?
    requires !Watched(w, KeyedByInput(key, typ, text), map[key := Marked(a, true)], [], s, fuel).Unfinished?
    ensures Uses(w, KeyedByInput(key, typ, text), map[key := a], [], s, fuel)
  {
    var u, f := Watch(w), KeyedByInput(key, typ, text);
    assert Mark(map[key := a], true) == map[key := Marked(a, true)];
    var none: Env<V> := [];
    assert Around(none) == [];
    assert StripMap<V>(map[]) == map[];
    var slots := [Entry(Marked(a, true), u.lit(text))];
    assert MarkedSlot(slots[0]);
    assert seq(|slots|, i requires 0 <= i < |slots| => StripSlot(slots[i])) == [Entry(a, w.lit(text))];
    KeyedByInputGives(u, key, typ, text, Marked(a, true), Seen(s, false), fuel);
    var body := BodyOf(u, f, map[key := Marked(a, true)], [], Seen(s, false), fuel);
    assert Tells(body);
    UnwindKeepsTelling(w, body);
  }
}
