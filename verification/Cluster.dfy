// scripts/check-allocation-account-identity.py: the cluster that the account check works against. It answers when it
// likes, it may lose a reply, and it may carry out a request after the client has given up on it.
module Cluster {
  import opened Documents
  import opened Wrappers

  type Path = string

  // The annotation value that marks one create: no two creates share one.
  type Mark = string

  // An object in the cluster; maker is the mark of the create that made it, none when it is not the check's.
  datatype Stored = Stored(uid: nat, body: Doc, maker: Option<Mark>)

  datatype Request = Post(path: Path, body: Doc, mark: Mark) | Delete(path: Path, uid: nat)

  // In flight are the requests that the cluster may still carry out.
  datatype Server = Server(store: map<Path, Stored>, flying: multiset<Request>, nextUid: nat)

  // What the cluster and others do on their own: carry out a request, drop it, create an object of somebody else's,
  // or lose any objects, such as those of a namespace that goes.
  datatype EnvStep =
    | Commit(request: Request, body: Doc)
    | Drop(request: Request)
    | ForeignCreate(path: Path, body: Doc)
    | Vanish(paths: set<Path>)

  // The marks are the check's own: another object does not bear one, and an object the check made bears its own or
  // none, whatever else the cluster made of its body.
  predicate Legal(marks: set<Mark>, s: Server, step: EnvStep) {
    match step
    case Commit(r, body) => r in s.flying && (r.Post? && MarkOf(body).Some? ==> MarkOf(body).value == r.mark)
    case Drop(r) => r in s.flying
    case ForeignCreate(path, body) =>
      path !in s.store && (MarkOf(body).Some? ==> MarkOf(body).value !in marks)
    case Vanish(_) => true
  }

  // A create makes an object with a new UID where there is none; a delete removes the object with its UID.
  function After(s: Server, step: EnvStep): Server {
    match step
    case Commit(Post(path, _, mark), body) =>
      var landed := s.(flying := s.flying - multiset{step.request});
      if path in s.store then landed
      else landed.(store := s.store[path := Stored(s.nextUid, body, Some(mark))], nextUid := s.nextUid + 1)
    case Commit(Delete(path, uid), _) =>
      var landed := s.(flying := s.flying - multiset{step.request});
      if path in s.store && s.store[path].uid == uid then landed.(store := s.store - {path}) else landed
    case Drop(r) => s.(flying := s.flying - multiset{r})
    case ForeignCreate(path, body) =>
      s.(store := s.store[path := Stored(s.nextUid, body, None)], nextUid := s.nextUid + 1)
    case Vanish(paths) => s.(store := s.store - paths)
  }

  // An object that the cluster made since: somebody else's, without a mark of the check; or one that a create asked
  // for that was in flight.
  ghost predicate NewObject(marks: set<Mark>, s: Server, t: Server, p: Path, o: Stored) {
    && s.nextUid <= o.uid < t.nextUid
    && (MarkOf(o.body).Some? && MarkOf(o.body).value in marks ==> o.maker == MarkOf(o.body))
    && (o.maker.Some? ==> exists r :: r in s.flying && r.Post? && r.path == p && r.mark == o.maker.value)
  }

  // What stays true from one moment to a later one when no create is sent in between.
  ghost predicate Evolves(marks: set<Mark>, s: Server, t: Server) {
    && s.nextUid <= t.nextUid
    && (forall r | r in t.flying && r.Post? :: r in s.flying)
    && (forall p | p in t.store :: (p in s.store && s.store[p] == t.store[p]) || NewObject(marks, s, t, p, t.store[p]))
  }

  lemma {:induction false} EvolvesOn(marks: set<Mark>, s: Server, t: Server, u: Server)
    requires Evolves(marks, s, t) && Evolves(marks, t, u)
    ensures Evolves(marks, s, u)
  {
    forall p | p in u.store
      ensures (p in s.store && s.store[p] == u.store[p]) || NewObject(marks, s, u, p, u.store[p])
    {
      if p in t.store && t.store[p] == u.store[p] {
        if p !in s.store || s.store[p] != u.store[p] {
          assert NewObject(marks, s, t, p, t.store[p]);
        }
      } else {
        assert NewObject(marks, t, u, p, u.store[p]);
      }
    }
  }

  lemma {:induction false} StepEvolves(marks: set<Mark>, s: Server, step: EnvStep)
    requires Legal(marks, s, step)
    ensures Evolves(marks, s, After(s, step))
    ensures After(s, step).flying <= s.flying
  {
    var t := After(s, step);
    if step.Commit? && step.request.Post? && step.request.path !in s.store {
      assert NewObject(marks, s, t, step.request.path, t.store[step.request.path]);
    } else if step.ForeignCreate? {
      assert NewObject(marks, s, t, step.path, t.store[step.path]);
    }
  }

  // The object at the path, if there is one.
  function At(s: Server, p: Path): Option<Stored> {
    if p in s.store then Some(s.store[p]) else None
  }

  // No object of the check is at the path, but for those of these creates.
  ghost predicate Clear(s: Server, late: set<Mark>, p: Path) {
    p in s.store && s.store[p].maker.Some? ==> s.store[p].maker.value in late
  }

  // The creates in flight.
  ghost function Late(s: Server): set<Mark> {
    set r | r in s.flying && r.Post? :: r.mark
  }

  // A path that is clear stays so, but for the creates in flight.
  lemma {:induction false} ClearStays(marks: set<Mark>, s: Server, t: Server, late: set<Mark>)
    requires Evolves(marks, s, t) && Late(s) <= late
    ensures Late(t) <= late
    ensures forall p | Clear(s, late, p) :: Clear(t, late, p)
  {
    forall r | r in t.flying && r.Post?
      ensures r.mark in late
    {
      assert r.mark in Late(s);
    }
    forall p | Clear(s, late, p)
      ensures Clear(t, late, p)
    {
      if p in t.store && t.store[p].maker.Some? && (p !in s.store || s.store[p] != t.store[p]) {
        assert NewObject(marks, s, t, p, t.store[p]);
        var r :| r in s.flying && r.Post? && r.path == p && r.mark == t.store[p].maker.value;
        assert r.mark in Late(s);
      }
    }
  }

  // ---- What the cluster does between two actions of the check ----

  ghost predicate LegalAll(marks: set<Mark>, s: Server, schedule: seq<EnvStep>)
    decreases |schedule|
  {
    schedule == [] || (Legal(marks, s, schedule[0]) && LegalAll(marks, After(s, schedule[0]), schedule[1..]))
  }

  function AfterAll(s: Server, schedule: seq<EnvStep>): Server
    decreases |schedule|
  {
    if schedule == [] then s else AfterAll(After(s, schedule[0]), schedule[1..])
  }

  // Some schedule of the cluster leads from one moment to the later one.
  ghost predicate Leads(marks: set<Mark>, s: Server, t: Server) {
    exists schedule :: LegalAll(marks, s, schedule) && AfterAll(s, schedule) == t
  }

  lemma {:induction false} LeadsNowhere(marks: set<Mark>, s: Server)
    ensures Leads(marks, s, s)
  {
    assert LegalAll(marks, s, []) && AfterAll(s, []) == s;
  }

  lemma {:induction false} LeadsByOne(marks: set<Mark>, s: Server, t: Server, step: EnvStep)
    requires Leads(marks, s, t) && Legal(marks, t, step)
    ensures Leads(marks, s, After(t, step))
  {
    var schedule :| LegalAll(marks, s, schedule) && AfterAll(s, schedule) == t;
    OneMore(marks, s, schedule, step);
    assert LegalAll(marks, s, schedule + [step]);
  }

  lemma {:induction false} OneMore(marks: set<Mark>, s: Server, schedule: seq<EnvStep>, step: EnvStep)
    requires LegalAll(marks, s, schedule) && Legal(marks, AfterAll(s, schedule), step)
    ensures LegalAll(marks, s, schedule + [step]) && AfterAll(s, schedule + [step]) == After(AfterAll(s, schedule), step)
    decreases |schedule|
  {
    if schedule == [] {
      assert [step][1..] == [];
      assert [] + [step] == [step];
    } else {
      OneMore(marks, After(s, schedule[0]), schedule[1..], step);
      assert (schedule + [step])[1..] == schedule[1..] + [step];
    }
  }

  lemma {:induction false} LeadsOn(marks: set<Mark>, s: Server, t: Server, u: Server)
    requires Leads(marks, s, t) && Leads(marks, t, u)
    ensures Leads(marks, s, u)
  {
    var schedule :| LegalAll(marks, s, schedule) && AfterAll(s, schedule) == t;
    ScheduleOn(marks, s, schedule, u);
  }

  lemma {:induction false} ScheduleOn(marks: set<Mark>, s: Server, schedule: seq<EnvStep>, u: Server)
    requires LegalAll(marks, s, schedule) && Leads(marks, AfterAll(s, schedule), u)
    ensures Leads(marks, s, u)
    decreases |schedule|
  {
    if schedule != [] {
      ScheduleOn(marks, After(s, schedule[0]), schedule[1..], u);
      var more :| LegalAll(marks, After(s, schedule[0]), more) && AfterAll(After(s, schedule[0]), more) == u;
      assert ([schedule[0]] + more)[1..] == more;
      assert LegalAll(marks, s, [schedule[0]] + more) && AfterAll(s, [schedule[0]] + more) == u;
    }
  }

  lemma {:induction false} LeadsEvolves(marks: set<Mark>, s: Server, t: Server)
    requires Leads(marks, s, t)
    ensures Evolves(marks, s, t) && t.flying <= s.flying
  {
    var schedule :| LegalAll(marks, s, schedule) && AfterAll(s, schedule) == t;
    ScheduleEvolves(marks, s, schedule);
  }

  lemma {:induction false} ScheduleEvolves(marks: set<Mark>, s: Server, schedule: seq<EnvStep>)
    requires LegalAll(marks, s, schedule)
    ensures Evolves(marks, s, AfterAll(s, schedule)) && AfterAll(s, schedule).flying <= s.flying
    decreases |schedule|
  {
    if schedule != [] {
      var next := After(s, schedule[0]);
      StepEvolves(marks, s, schedule[0]);
      ScheduleEvolves(marks, next, schedule[1..]);
      EvolvesOn(marks, s, next, AfterAll(s, schedule));
    }
  }
}
