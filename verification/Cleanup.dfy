// scripts/check-allocation-account-identity.py: the cleanup of the account check, step by step, beside a cluster that
// does as it likes between any two steps.
module Cleanup {
  import opened Cluster
  import opened Documents
  import opened Wrappers

  datatype Intent = Intent(path: Path, body: Doc, mark: Mark, resolved: bool)

  datatype Record = Record(path: Path, uid: nat)

  ghost predicate Recorded(created: seq<Record>, p: Path) {
    exists rec :: rec in created && rec.path == p
  }

  // The record is the last of its path.
  ghost predicate IsLast(created: seq<Record>, i: nat) {
    i < |created| && forall j | i < j < |created| :: created[j].path != created[i].path
  }

  // ---- What the cleanup sets out to remove ----

  // Which paths are allocation namespaces and which are inside one; the marks of the check's creates; and whether
  // others too act on the cluster, who create objects of their own and remove any. By itself the cluster removes
  // objects inside a namespace, as it does when the namespace goes.
  datatype Rules = Rules(marks: set<Mark>, isAllocation: Path -> bool, isInside: Path -> bool, others: bool)

  // The paths on record, in the order they came first.
  function FirstPaths(created: seq<Record>): seq<Path> {
    if created == [] then []
    else
      var before, last := FirstPaths(created[..|created| - 1]), created[|created| - 1].path;
      if last in before then before else before + [last]
  }

  // The last record of the path, if it has one.
  function LastRecord(created: seq<Record>, p: Path): Option<Record> {
    if created == [] then None
    else if created[|created| - 1].path == p then Some(created[|created| - 1])
    else LastRecord(created[..|created| - 1], p)
  }

  // The allocation namespaces among the first records that are the last of their paths, in the order of the records.
  ghost function LiveAllocations(rules: Rules, created: seq<Record>, n: nat): seq<Record>
    requires n <= |created|
  {
    if n == 0 then []
    else
      LiveAllocations(rules, created, n - 1) +
      if rules.isAllocation(created[n - 1].path) && IsLast(created, n - 1) then [created[n - 1]] else []
  }

  // The last records of the other paths, the latest path first, but for those inside an allocation namespace.
  function Others(rules: Rules, created: seq<Record>, paths: seq<Path>): seq<Record> {
    if paths == [] then []
    else
      var p := paths[|paths| - 1];
      var last := LastRecord(created, p);
      (if last.Some? && !rules.isInside(p) && !rules.isAllocation(p) then [last.value] else []) +
      Others(rules, created, paths[..|paths| - 1])
  }

  ghost function ToRemove(rules: Rules, created: seq<Record>): seq<Record> {
    LiveAllocations(rules, created, |created|) + Others(rules, created, FirstPaths(created))
  }

  // ---- The steps ----

  datatype Phase = Looking | Sending | Waiting

  datatype Stage =
    | Recovering(k: nat)
    | Removing(todo: seq<Record>, phase: Phase)
    | Checking(paths: seq<Path>)
    | Reported(complete: bool)

  datatype Client = Client(intents: seq<Intent>, created: seq<Record>, errors: nat, stage: Stage)

  datatype Config = Config(server: Server, client: Client)

  function Start(intents: seq<Intent>, created: seq<Record>): Client {
    Client(intents, created, 0, Recovering(0))
  }

  // The path that the client reads next.
  function ToRead(c: Client): Option<Path> {
    match c.stage
    case Recovering(k) => if k < |c.intents| && !c.intents[k].resolved then Some(c.intents[k].path) else None
    case Removing(todo, phase) => if todo != [] && phase != Sending then Some(todo[0].path) else None
    case Checking(paths) => if paths != [] then Some(paths[0]) else None
    case Reported(_) => None
  }

  // The client at a stage, with so many errors more.
  function With(c: Client, stage: Stage, errors: nat): Client {
    c.(stage := stage, errors := c.errors + errors)
  }

  // The client goes on to the next stage, after an error or none.
  function GoOn(c: Client, stage: Stage, wrong: bool): Client {
    With(c, stage, if wrong then 1 else 0)
  }

  // The client once it was told what is at the path, or once the read failed. A patient client waits on for an object
  // that it deleted.
  function Told(c: Client, answer: Option<Option<Stored>>, patient: bool): Client
    requires ToRead(c).Some?
  {
    var seen := if answer.Some? then answer.value else None;
    match c.stage
    case Recovering(k) =>
      if seen.Some? && Contains(seen.value.body, c.intents[k].body) then
        c.(intents := c.intents[k := c.intents[k].(resolved := true)],
           created := c.created + [Record(c.intents[k].path, seen.value.uid)], stage := Recovering(k + 1))
      else GoOn(c, Recovering(k + 1), answer != Some(None))
    case Removing(todo, phase) =>
      if seen.Some? && phase == Looking && seen.value.uid == todo[0].uid then c.(stage := Removing(todo, Sending))
      else if seen.Some? && phase == Waiting && patient then c
      else GoOn(c, Removing(todo[1..], Looking), answer != Some(None))
    case Checking(paths) => GoOn(c, Checking(paths[1..]), answer != Some(None))
    case Reported(_) => assert false; c
  }

  // The client where it asks nothing of the cluster.
  ghost function Onward(rules: Rules, c: Client): Client {
    match c.stage
    case Recovering(k) =>
      if k < |c.intents| then c.(stage := Recovering(k + 1)) else c.(stage := Removing(ToRemove(rules, c.created), Looking))
    case Removing(_, _) => c.(stage := Checking(FirstPaths(c.created)))
    case Checking(_) => c.(stage := Reported(c.errors == 0))
    case Reported(_) => c
  }

  predicate IsSending(c: Client) {
    c.stage.Removing? && c.stage.todo != [] && c.stage.phase == Sending
  }

  // The client reads, and is told what is there at this moment, or nothing.
  ghost predicate Hears(s: Server, c: Client, d: Client) {
    ToRead(c).Some? && exists answer: Option<Option<Stored>>, patient: bool ::
      (answer.Some? ==> answer.value == At(s, ToRead(c).value)) && d == Told(c, answer, patient)
  }

  // The client sends its delete, and goes on to wait where it is accepted.
  ghost predicate Sends(a: Config, b: Config) {
    && IsSending(a.client)
    && b.server == a.server.(flying := a.server.flying + multiset{Delete(a.client.stage.todo[0].path, a.client.stage.todo[0].uid)})
    && (b.client == a.client.(stage := Removing(a.client.stage.todo, Waiting)) ||
        b.client == GoOn(a.client, Removing(a.client.stage.todo[1..], Looking), true))
  }

  // Or its time is up before it sends anything.
  ghost predicate GivesUp(a: Config, b: Config) {
    IsSending(a.client) && b.server == a.server && b.client == GoOn(a.client, Removing(a.client.stage.todo[1..], Looking), true)
  }

  ghost predicate Allowed(rules: Rules, s: Server, step: EnvStep) {
    && Legal(rules.marks, s, step)
    && (rules.others || step.Commit? || step.Drop? || (step.Vanish? && forall p | p in step.paths :: rules.isInside(p)))
  }

  ghost predicate Steps(rules: Rules, a: Config, b: Config) {
    || (a.client == b.client && exists step :: Allowed(rules, a.server, step) && b.server == After(a.server, step))
    || (a.server == b.server && Hears(a.server, a.client, b.client))
    || Sends(a, b) || GivesUp(a, b)
    || (a.server == b.server && ToRead(a.client).None? && !IsSending(a.client) && b.client == Onward(rules, a.client))
  }

  ghost predicate StepsAt(rules: Rules, run: seq<Config>, i: nat)
    requires i + 1 < |run|
  {
    Steps(rules, run[i], run[i + 1])
  }

  ghost predicate Run(rules: Rules, run: seq<Config>) {
    run != [] && forall i | 0 <= i < |run| - 1 :: StepsAt(rules, run, i)
  }

  // Some run leads from the one to the other.
  ghost predicate Reaches(rules: Rules, a: Config, b: Config) {
    exists run :: Run(rules, run) && run[0] == a && run[|run| - 1] == b
  }

  lemma {:induction false} ReachesItself(rules: Rules, a: Config)
    ensures Reaches(rules, a, a)
  {
    assert Run(rules, [a]);
  }

  lemma {:induction false} OneStep(rules: Rules, a: Config, b: Config)
    requires Steps(rules, a, b)
    ensures Reaches(rules, a, b)
  {
    assert StepsAt(rules, [a, b], 0);
    assert Run(rules, [a, b]);
  }

  lemma {:induction false} ReachesOn(rules: Rules, a: Config, b: Config, c: Config)
    requires Reaches(rules, a, b) && Reaches(rules, b, c)
    ensures Reaches(rules, a, c)
  {
    var first :| Run(rules, first) && first[0] == a && first[|first| - 1] == b;
    var second :| Run(rules, second) && second[0] == b && second[|second| - 1] == c;
    Joined(rules, first, second);
    var both := first + second[1..];
    assert Run(rules, both) && both[0] == a && both[|both| - 1] == c;
  }

  lemma {:induction false} Joined(rules: Rules, first: seq<Config>, second: seq<Config>)
    requires Run(rules, first) && Run(rules, second) && first[|first| - 1] == second[0]
    ensures Run(rules, first + second[1..])
  {
    var both := first + second[1..];
    forall i | 0 <= i < |both| - 1
      ensures StepsAt(rules, both, i)
    {
      if i < |first| - 1 {
        RunSteps(rules, first, i);
        assert both[i] == first[i] && both[i + 1] == first[i + 1];
      } else {
        var k := i - (|first| - 1);
        RunSteps(rules, second, k);
        assert both[i] == second[k] && both[i + 1] == second[k + 1];
      }
    }
  }

  lemma {:induction false} RunSteps(rules: Rules, run: seq<Config>, i: nat)
    requires Run(rules, run) && i + 1 < |run|
    ensures Steps(rules, run[i], run[i + 1])
  {
    assert StepsAt(rules, run, i);
  }

  // Whatever the cluster does by itself is a run in which the client rests.
  lemma {:induction false} ClusterRuns(rules: Rules, s: Server, schedule: seq<EnvStep>, client: Client)
    requires rules.others && LegalAll(rules.marks, s, schedule)
    ensures Reaches(rules, Config(s, client), Config(AfterAll(s, schedule), client))
    decreases |schedule|
  {
    if schedule == [] {
      ReachesItself(rules, Config(s, client));
    } else {
      var next := After(s, schedule[0]);
      assert Allowed(rules, s, schedule[0]);
      OneStep(rules, Config(s, client), Config(next, client));
      ClusterRuns(rules, next, schedule[1..], client);
      ReachesOn(rules, Config(s, client), Config(next, client), Config(AfterAll(s, schedule), client));
    }
  }

  lemma {:induction false} ClientRests(rules: Rules, s: Server, t: Server, client: Client)
    requires rules.others && Leads(rules.marks, s, t)
    ensures Reaches(rules, Config(s, client), Config(t, client))
  {
    var schedule :| LegalAll(rules.marks, s, schedule) && AfterAll(s, schedule) == t;
    ClusterRuns(rules, s, schedule, client);
  }

  // A read, with whatever the cluster does before it and after it.
  lemma {:induction false} ReadRuns(rules: Rules, s: Server, moment: Server, t: Server, c: Client, d: Client)
    requires rules.others && Leads(rules.marks, s, moment) && Leads(rules.marks, moment, t) && Hears(moment, c, d)
    ensures Reaches(rules, Config(s, c), Config(t, d))
  {
    ClientRests(rules, s, moment, c);
    OneStep(rules, Config(moment, c), Config(moment, d));
    ReachesOn(rules, Config(s, c), Config(moment, c), Config(moment, d));
    ClientRests(rules, moment, t, d);
    ReachesOn(rules, Config(s, c), Config(moment, d), Config(t, d));
  }

  // A delete, with whatever the cluster does after it.
  lemma {:induction false} DeleteRuns(rules: Rules, s: Server, sent: Server, t: Server, c: Client, d: Client)
    requires rules.others && Sends(Config(s, c), Config(sent, d)) && Leads(rules.marks, sent, t)
    ensures Reaches(rules, Config(s, c), Config(t, d))
  {
    OneStep(rules, Config(s, c), Config(sent, d));
    ClientRests(rules, sent, t, d);
    ReachesOn(rules, Config(s, c), Config(sent, d), Config(t, d));
  }

  // What a read came to, as the client is told it.
  function Answer(at: Option<Stored>, arrived: bool): Option<Option<Stored>> {
    if arrived then Some(at) else None
  }

  lemma {:induction false} HeardOf(s: Server, c: Client, arrived: bool, patient: bool)
    requires ToRead(c).Some?
    ensures Hears(s, c, Told(c, Answer(At(s, ToRead(c).value), arrived), patient))
  {
  }

  // ---- A cleanup that reports complete leaves nothing, but for creates in flight ----

  ghost predicate HasIntent(intents: seq<Intent>, p: Path) {
    exists i :: 0 <= i < |intents| && intents[i].path == p
  }

  // Each create in flight and each object that the check made was written down, and each resolved intent has a record.
  ghost predicate WrittenDown(c: Config) {
    && (forall r | r in c.server.flying && r.Post? :: HasIntent(c.client.intents, r.path))
    && (forall p | p in c.server.store && c.server.store[p].maker.Some? :: HasIntent(c.client.intents, p))
    && (forall i | 0 <= i < |c.client.intents| && c.client.intents[i].resolved :: Recorded(c.client.created, c.client.intents[i].path))
  }

  // The intent is resolved, or nothing of the check is at its path.
  ghost predicate Settled(s: Server, late: set<Mark>, intent: Intent) {
    intent.resolved || Clear(s, late, intent.path)
  }

  ghost predicate SettledTo(c: Config, late: set<Mark>, k: nat)
    requires k <= |c.client.intents|
  {
    forall i | 0 <= i < k :: Settled(c.server, late, c.client.intents[i])
  }

  // What a client that met no error knows at its stage.
  ghost predicate Knows(c: Config, late: set<Mark>) {
    match c.client.stage
    case Recovering(k) => k <= |c.client.intents| && SettledTo(c, late, k)
    case Removing(_, _) => SettledTo(c, late, |c.client.intents|)
    case Checking(paths) =>
      && SettledTo(c, late, |c.client.intents|)
      && forall p | Recorded(c.client.created, p) :: p in paths || Clear(c.server, late, p)
    case Reported(_) => forall i | 0 <= i < |c.client.intents| :: Clear(c.server, late, c.client.intents[i].path)
  }

  ghost predicate Sound(c: Config, late: set<Mark>) {
    && WrittenDown(c) && Late(c.server) <= late
    && (c.client.errors == 0 ==> Knows(c, late))
    && (c.client.stage.Reported? ==> c.client.stage.complete == (c.client.errors == 0))
  }

  lemma {:induction false} EnvKeepsSound(rules: Rules, a: Config, b: Config, late: set<Mark>, step: EnvStep)
    requires Sound(a, late) && a.client == b.client && Allowed(rules, a.server, step) && b.server == After(a.server, step)
    ensures Sound(b, late)
  {
    StepEvolves(rules.marks, a.server, step);
    ClearStays(rules.marks, a.server, b.server, late);
    forall p | p in b.server.store && b.server.store[p].maker.Some?
      ensures HasIntent(b.client.intents, p)
    {
      if p !in a.server.store || a.server.store[p] != b.server.store[p] {
        assert NewObject(rules.marks, a.server, b.server, p, b.server.store[p]);
      }
    }
  }

  lemma {:induction false} RecoveringKeepsSound(a: Config, b: Config, late: set<Mark>)
    requires Sound(a, late) && a.server == b.server && a.client.stage.Recovering? && Hears(a.server, a.client, b.client)
    ensures Sound(b, late)
  {
    var k := a.client.stage.k;
    forall i | 0 <= i < |b.client.intents|
      ensures b.client.intents[i].path == a.client.intents[i].path
    {
    }
    forall p | HasIntent(a.client.intents, p)
      ensures HasIntent(b.client.intents, p)
    {
      var i :| 0 <= i < |a.client.intents| && a.client.intents[i].path == p;
      assert b.client.intents[i].path == p;
    }
    forall i | 0 <= i < |b.client.intents| && b.client.intents[i].resolved
      ensures Recorded(b.client.created, b.client.intents[i].path)
    {
      if a.client.intents[i].resolved {
        var rec :| rec in a.client.created && rec.path == a.client.intents[i].path;
        assert rec in b.client.created;
      } else {
        assert b.client.created[|b.client.created| - 1] in b.client.created;
      }
    }
  }

  lemma {:induction false} HearingKeepsSound(a: Config, b: Config, late: set<Mark>)
    requires Sound(a, late) && a.server == b.server && Hears(a.server, a.client, b.client)
    ensures Sound(b, late)
  {
    if a.client.stage.Recovering? {
      RecoveringKeepsSound(a, b, late);
    } else if a.client.stage.Checking? {
      var paths := a.client.stage.paths;
      assert paths == [paths[0]] + paths[1..];
    }
  }

  lemma {:induction false} SendingKeepsSound(a: Config, b: Config, late: set<Mark>)
    requires Sound(a, late) && Sends(a, b)
    ensures Sound(b, late)
  {
    assert Late(b.server) <= Late(a.server);
  }

  lemma {:induction false} FirstPathsAreAll(created: seq<Record>)
    ensures forall p :: p in FirstPaths(created) <==> Recorded(created, p)
  {
    if created != [] {
      FirstPathsAreAll(created[..|created| - 1]);
      assert created == created[..|created| - 1] + [created[|created| - 1]];
    }
  }

  lemma {:induction false} OnwardKeepsSound(rules: Rules, a: Config, b: Config, late: set<Mark>)
    requires Sound(a, late) && a.server == b.server && ToRead(a.client).None? && !IsSending(a.client)
    requires b.client == Onward(rules, a.client)
    ensures Sound(b, late)
  {
    FirstPathsAreAll(a.client.created);
    if a.client.stage.Checking? && a.client.errors == 0 {
      forall i | 0 <= i < |a.client.intents|
        ensures Clear(a.server, late, a.client.intents[i].path)
      {
        assert Settled(a.server, late, a.client.intents[i]);
      }
    }
  }

  lemma {:induction false} StepKeepsSound(rules: Rules, a: Config, b: Config, late: set<Mark>)
    requires Sound(a, late) && Steps(rules, a, b)
    ensures Sound(b, late)
  {
    if a.client == b.client && exists step :: Allowed(rules, a.server, step) && b.server == After(a.server, step) {
      var step :| Allowed(rules, a.server, step) && b.server == After(a.server, step);
      EnvKeepsSound(rules, a, b, late, step);
    } else if a.server == b.server && Hears(a.server, a.client, b.client) {
      HearingKeepsSound(a, b, late);
    } else if Sends(a, b) {
      SendingKeepsSound(a, b, late);
    } else if GivesUp(a, b) {
      assert b.client.errors > 0;
    } else {
      OnwardKeepsSound(rules, a, b, late);
    }
  }

  lemma {:induction false} NextIsSound(rules: Rules, run: seq<Config>, i: nat, late: set<Mark>)
    requires Run(rules, run) && i + 1 < |run| && Sound(run[i], late)
    ensures Sound(run[i + 1], late)
  {
    RunSteps(rules, run, i);
    StepKeepsSound(rules, run[i], run[i + 1], late);
  }

  lemma {:induction false} RunKeepsSound(rules: Rules, run: seq<Config>, i: nat, late: set<Mark>)
    requires Run(rules, run) && Sound(run[0], late) && i < |run|
    ensures Sound(run[i], late)
    decreases i
  {
    if i > 0 {
      RunKeepsSound(rules, run, i - 1, late);
      NextIsSound(rules, run, i - 1, late);
    }
  }

  // A cleanup begins.
  ghost predicate Begins(a: Config) {
    a.client.stage == Recovering(0) && a.client.errors == 0 && WrittenDown(a)
  }

  lemma {:induction false} ReachedIsSound(rules: Rules, a: Config, b: Config)
    requires Begins(a) && Reaches(rules, a, b)
    ensures Sound(b, Late(a.server))
  {
    var run :| Run(rules, run) && run[0] == a && run[|run| - 1] == b;
    RunKeepsSound(rules, run, |run| - 1, Late(a.server));
  }

  // Over every run: what a cleanup that reports complete leaves comes from a create that was in flight when it began.
  lemma {:induction false} CompleteLeavesOnlyLate(rules: Rules, a: Config, b: Config)
    requires Begins(a) && Reaches(rules, a, b) && b.client.stage == Reported(true)
    ensures forall p :: Clear(b.server, Late(a.server), p)
  {
    ReachedIsSound(rules, a, b);
    forall p | p in b.server.store && b.server.store[p].maker.Some?
      ensures Clear(b.server, Late(a.server), p)
    {
      var i :| 0 <= i < |b.client.intents| && b.client.intents[i].path == p;
    }
  }

  // ---- And it can leave what each of those makes ----

  // The path was written down: as an intent or on record.
  ghost predicate WrittenAt(c: Client, p: Path) {
    HasIntent(c.intents, p) || Recorded(c.created, p)
  }

  // Nothing is at any path that was written down.
  ghost predicate Deserted(c: Config) {
    forall p | WrittenAt(c.client, p) :: p !in c.server.store
  }

  ghost predicate IsOpen(intents: seq<Intent>, i: nat, p: Path) {
    i < |intents| && !intents[i].resolved && intents[i].path == p
  }

  // What is at the path has all that each open intent there asked for; and it has the UID on record, if there is no
  // open intent.
  ghost predicate Owned(s: Server, c: Client, p: Path)
    requires p in s.store
  {
    && (forall i: nat | IsOpen(c.intents, i, p) :: Contains(s.store[p].body, c.intents[i].body))
    && ((exists i: nat :: IsOpen(c.intents, i, p)) || LastRecord(c.created, p) == Some(Record(p, s.store[p].uid)))
  }

  ghost predicate AllOwned(s: Server, c: Client) {
    forall p | WrittenAt(c, p) && p in s.store :: Owned(s, c, p)
  }

  // Each path that was written down is empty, holds what the check made there, or is inside an allocation namespace.
  ghost predicate Tidy(rules: Rules, c: Config) {
    forall p | WrittenAt(c.client, p) && p in c.server.store && !rules.isInside(p) :: Owned(c.server, c.client, p)
  }

  // The same configuration, the client at another stage.
  function In(a: Config, stage: Stage): Config {
    a.(client := a.client.(stage := stage))
  }

  lemma {:induction false} ReadsNothing(rules: Rules, a: Config, stage: Stage)
    requires ToRead(a.client).Some? && ToRead(a.client).value !in a.server.store
    requires Told(a.client, Some(None), false) == a.client.(stage := stage)
    ensures Reaches(rules, a, In(a, stage))
  {
    var answer: Option<Option<Stored>> := Some(None);
    assert answer.value == At(a.server, ToRead(a.client).value);
    assert Hears(a.server, a.client, Told(a.client, answer, false));
    OneStep(rules, a, In(a, stage));
  }

  lemma {:induction false} GoesOnward(rules: Rules, a: Config, stage: Stage)
    requires ToRead(a.client).None? && !IsSending(a.client) && Onward(rules, a.client) == a.client.(stage := stage)
    ensures Reaches(rules, a, In(a, stage))
  {
    OneStep(rules, a, In(a, stage));
  }

  // The intents up to here are resolved, or nothing is at their paths.
  ghost predicate Passed(s: Server, c: Client, k: nat) {
    k <= |c.intents| && forall i | 0 <= i < k :: c.intents[i].resolved || c.intents[i].path !in s.store
  }

  // What the client knows of its paths once it has adopted what it made.
  ghost predicate Recovered(s: Server, c: Client, d: Client) {
    && d.stage == Recovering(|d.intents|) && d.errors == c.errors
    && (forall p :: WrittenAt(d, p) <==> WrittenAt(c, p))
    && (forall p | WrittenAt(d, p) && p in s.store :: LastRecord(d.created, p) == Some(Record(p, s.store[p].uid)))
    && ((forall p | WrittenAt(c, p) :: p !in s.store) ==> d == c.(stage := d.stage))
  }

  lemma {:induction false} RecoversAll(rules: Rules, a: Config, k: nat) returns (d: Client)
    requires a.client.stage == Recovering(k) && Passed(a.server, a.client, k) && AllOwned(a.server, a.client)
    ensures Reaches(rules, a, Config(a.server, d)) && Recovered(a.server, a.client, d)
    decreases |a.client.intents| - k
  {
    var c := a.client;
    if k == |c.intents| {
      ReachesItself(rules, a);
      d := c;
      forall p | WrittenAt(d, p) && p in a.server.store
        ensures LastRecord(d.created, p) == Some(Record(p, a.server.store[p].uid))
      {
        assert Owned(a.server, c, p);
      }
    } else {
      var next := RecoversOne(rules, a, k);
      d := RecoversAll(rules, Config(a.server, next), k + 1);
      ReachesOn(rules, a, Config(a.server, next), Config(a.server, d));
    }
  }

  // One intent: it is resolved, nothing is at its path, or what is there is adopted.
  lemma {:induction false} RecoversOne(rules: Rules, a: Config, k: nat) returns (d: Client)
    requires a.client.stage == Recovering(k) && Passed(a.server, a.client, k) && k < |a.client.intents|
    requires AllOwned(a.server, a.client)
    ensures Reaches(rules, a, Config(a.server, d)) && d.stage == Recovering(k + 1) && d.errors == a.client.errors
    ensures |d.intents| == |a.client.intents| && Passed(a.server, d, k + 1) && AllOwned(a.server, d)
    ensures forall p :: WrittenAt(d, p) <==> WrittenAt(a.client, p)
    ensures a.client.intents[k].path !in a.server.store ==> d == a.client.(stage := d.stage)
  {
    var intent := a.client.intents[k];
    if intent.resolved {
      GoesOnward(rules, a, Recovering(k + 1));
      d := a.client.(stage := Recovering(k + 1));
    } else if intent.path !in a.server.store {
      ReadsNothing(rules, a, Recovering(k + 1));
      d := a.client.(stage := Recovering(k + 1));
    } else {
      d := Adopts(rules, a, k);
    }
  }

  lemma {:induction false} Adopts(rules: Rules, a: Config, k: nat) returns (d: Client)
    requires a.client.stage == Recovering(k) && Passed(a.server, a.client, k) && k < |a.client.intents|
    requires AllOwned(a.server, a.client) && !a.client.intents[k].resolved && a.client.intents[k].path in a.server.store
    ensures Reaches(rules, a, Config(a.server, d)) && d.stage == Recovering(k + 1) && d.errors == a.client.errors
    ensures |d.intents| == |a.client.intents| && Passed(a.server, d, k + 1) && AllOwned(a.server, d)
    ensures forall p :: WrittenAt(d, p) <==> WrittenAt(a.client, p)
  {
    var c, p := a.client, a.client.intents[k].path;
    assert HasIntent(c.intents, p) && Owned(a.server, c, p) && IsOpen(c.intents, k, p);
    var answer: Option<Option<Stored>> := Some(Some(a.server.store[p]));
    d := Told(c, answer, false);
    assert Hears(a.server, c, d) by { assert answer.value == At(a.server, ToRead(c).value); }
    OneStep(rules, a, Config(a.server, d));
    AdoptedIsOwned(a.server, c, d, k);
  }

  lemma {:induction false} AdoptedIsOwned(s: Server, c: Client, d: Client, k: nat)
    requires k < |c.intents| && AllOwned(s, c) && c.intents[k].path in s.store
    requires d.intents == c.intents[k := c.intents[k].(resolved := true)]
    requires d.created == c.created + [Record(c.intents[k].path, s.store[c.intents[k].path].uid)]
    ensures AllOwned(s, d) && forall p :: WrittenAt(d, p) <==> WrittenAt(c, p)
  {
    forall p
      ensures WrittenAt(d, p) <==> WrittenAt(c, p)
    {
      SameIntents(c, d, k, p);
      assert d.created == c.created + [d.created[|c.created|]] && d.created[|c.created|] in d.created;
      if Recorded(c.created, p) {
        var rec :| rec in c.created && rec.path == p;
        assert rec in d.created;
      }
    }
    forall p | WrittenAt(d, p) && p in s.store
      ensures Owned(s, d, p)
    {
      assert Owned(s, c, p) && d.created[..|d.created| - 1] == c.created;
      assert forall i: nat | IsOpen(d.intents, i, p) :: IsOpen(c.intents, i, p) && d.intents[i] == c.intents[i];
      if p != c.intents[k].path {
        if i: nat :| IsOpen(c.intents, i, p) {
          assert IsOpen(d.intents, i, p);
        }
      }
    }
  }

  lemma {:induction false} SameIntents(c: Client, d: Client, k: nat, p: Path)
    requires k < |c.intents| && d.intents == c.intents[k := c.intents[k].(resolved := true)]
    ensures HasIntent(d.intents, p) <==> HasIntent(c.intents, p)
  {
    assert forall i | 0 <= i < |c.intents| :: d.intents[i].path == c.intents[i].path;
    if i :| 0 <= i < |c.intents| && c.intents[i].path == p {
      assert d.intents[i].path == p;
    }
  }

  ghost function PathsOf(todo: seq<Record>): set<Path> {
    set rec | rec in todo :: rec.path
  }

  // The configuration once these paths are empty and the client has come so far.
  ghost function Emptied(a: Config, paths: set<Path>, stage: Stage): Config {
    Config(a.server.(store := a.server.store - paths), a.client.(stage := stage))
  }

  // The object is what the record says: the client sends its delete, and the cluster carries it out.
  lemma {:induction false} DeletesOne(rules: Rules, a: Config, todo: seq<Record>)
    requires a.client.stage == Removing(todo, Sending) && todo != []
    requires todo[0].path in a.server.store && a.server.store[todo[0].path].uid == todo[0].uid
    ensures Reaches(rules, a, Emptied(a, {todo[0].path}, Removing(todo, Waiting)))
  {
    var delete := Delete(todo[0].path, todo[0].uid);
    var sent := Config(a.server.(flying := a.server.flying + multiset{delete}), a.client.(stage := Removing(todo, Waiting)));
    OneStep(rules, a, sent);
    var gone := Emptied(a, {todo[0].path}, Removing(todo, Waiting));
    assert Allowed(rules, sent.server, Commit(delete, Null)) && gone.server == After(sent.server, Commit(delete, Null));
    OneStep(rules, sent, gone);
    ReachesOn(rules, a, sent, gone);
  }

  // The client deletes it and waits until it is gone.
  lemma {:induction false} RemovesOne(rules: Rules, a: Config, todo: seq<Record>)
    requires a.client.stage == Removing(todo, Looking) && todo != []
    requires todo[0].path in a.server.store && a.server.store[todo[0].path].uid == todo[0].uid
    ensures Reaches(rules, a, Emptied(a, {todo[0].path}, Removing(todo[1..], Looking)))
  {
    var answer: Option<Option<Stored>> := Some(Some(a.server.store[todo[0].path]));
    var sending, gone := In(a, Removing(todo, Sending)), Emptied(a, {todo[0].path}, Removing(todo, Waiting));
    assert Hears(a.server, a.client, sending.client) by {
      assert answer.value == At(a.server, ToRead(a.client).value) && sending.client == Told(a.client, answer, false);
    }
    OneStep(rules, a, sending);
    DeletesOne(rules, sending, todo);
    ReachesOn(rules, a, sending, gone);
    ReadsNothing(rules, gone, Removing(todo[1..], Looking));
    ReachesOn(rules, a, gone, In(gone, Removing(todo[1..], Looking)));
  }

  ghost predicate HoldOnly(s: Server, todo: seq<Record>) {
    forall rec | rec in todo && rec.path in s.store :: s.store[rec.path].uid == rec.uid
  }

  lemma {:induction false} RemovesAll(rules: Rules, a: Config, todo: seq<Record>)
    requires a.client.stage == Removing(todo, Looking) && HoldOnly(a.server, todo)
    ensures Reaches(rules, a, Emptied(a, PathsOf(todo), Removing([], Looking)))
    decreases |todo|
  {
    if todo == [] {
      assert Emptied(a, {}, Removing([], Looking)) == a by { assert a.server.store - {} == a.server.store; }
      ReachesItself(rules, a);
    } else {
      var b := Emptied(a, {todo[0].path}, Removing(todo[1..], Looking));
      assert todo[0] in todo && PathsOf(todo) == {todo[0].path} + PathsOf(todo[1..]);
      if todo[0].path in a.server.store {
        RemovesOne(rules, a, todo);
      } else {
        assert b == In(a, Removing(todo[1..], Looking)) by { assert b.server.store == a.server.store; }
        ReadsNothing(rules, a, Removing(todo[1..], Looking));
      }
      RemovesAll(rules, b, todo[1..]);
      var c := Emptied(b, PathsOf(todo[1..]), Removing([], Looking));
      assert c.server.store == a.server.store - PathsOf(todo);
      ReachesOn(rules, a, b, c);
    }
  }

  lemma {:induction false} ChecksNothing(rules: Rules, a: Config, paths: seq<Path>)
    requires a.client.stage == Checking(paths) && forall p | p in paths :: p !in a.server.store
    ensures Reaches(rules, a, In(a, Checking([])))
    decreases |paths|
  {
    if paths == [] {
      ReachesItself(rules, a);
    } else {
      assert paths[0] in paths;
      ReadsNothing(rules, a, Checking(paths[1..]));
      ChecksNothing(rules, In(a, Checking(paths[1..])), paths[1..]);
      ReachesOn(rules, a, In(a, Checking(paths[1..])), In(a, Checking([])));
    }
  }

  lemma {:induction false} LastRecordIs(created: seq<Record>, i: nat)
    requires IsLast(created, i)
    ensures LastRecord(created, created[i].path) == Some(created[i])
  {
    if i < |created| - 1 { LastRecordIs(created[..|created| - 1], i); }
  }

  lemma {:induction false} LastRecordIsThere(created: seq<Record>, p: Path)
    ensures LastRecord(created, p).Some? <==> Recorded(created, p)
    ensures LastRecord(created, p).Some? ==> LastRecord(created, p).value in created && LastRecord(created, p).value.path == p
  {
    if created != [] {
      assert created == created[..|created| - 1] + [created[|created| - 1]];
      LastRecordIsThere(created[..|created| - 1], p);
    }
  }

  lemma {:induction false} OthersAreRecorded(rules: Rules, created: seq<Record>, paths: seq<Path>)
    ensures forall rec | rec in Others(rules, created, paths) ::
      rec in created && rec.path in paths && !rules.isInside(rec.path) && !rules.isAllocation(rec.path)
  {
    if paths != [] {
      LastRecordIsThere(created, paths[|paths| - 1]);
      OthersAreRecorded(rules, created, paths[..|paths| - 1]);
    }
  }

  lemma {:induction false} LiveAllocationsAreRecorded(rules: Rules, created: seq<Record>, n: nat)
    requires n <= |created|
    ensures forall rec | rec in LiveAllocations(rules, created, n) :: rec in created && rules.isAllocation(rec.path)
  {
    if n > 0 { LiveAllocationsAreRecorded(rules, created, n - 1); }
  }

  lemma {:induction false} EachLiveAllocation(rules: Rules, created: seq<Record>, n: nat, i: nat)
    requires i < n <= |created| && IsLast(created, i) && rules.isAllocation(created[i].path)
    ensures created[i] in LiveAllocations(rules, created, n)
  {
    if i < n - 1 { EachLiveAllocation(rules, created, n - 1, i); }
  }

  lemma {:induction false} EachOther(rules: Rules, created: seq<Record>, paths: seq<Path>, i: nat)
    requires IsLast(created, i) && created[i].path in paths
    requires !rules.isAllocation(created[i].path) && !rules.isInside(created[i].path)
    ensures created[i] in Others(rules, created, paths)
  {
    LastRecordIs(created, i);
    if paths[|paths| - 1] != created[i].path {
      assert paths == paths[..|paths| - 1] + [paths[|paths| - 1]];
      EachOther(rules, created, paths[..|paths| - 1], i);
    }
  }

  // Each record to remove is the last of its path.
  lemma {:induction false} RemovedAreLast(rules: Rules, created: seq<Record>)
    ensures forall rec | rec in ToRemove(rules, created) :: LastRecord(created, rec.path) == Some(rec)
  {
    LiveAllocationsAreLast(rules, created, |created|);
    OthersAreLast(rules, created, FirstPaths(created));
  }

  lemma {:induction false} LiveAllocationsAreLast(rules: Rules, created: seq<Record>, n: nat)
    requires n <= |created|
    ensures forall rec | rec in LiveAllocations(rules, created, n) :: LastRecord(created, rec.path) == Some(rec)
  {
    if n > 0 {
      LiveAllocationsAreLast(rules, created, n - 1);
      if IsLast(created, n - 1) { LastRecordIs(created, n - 1); }
    }
  }

  lemma {:induction false} OthersAreLast(rules: Rules, created: seq<Record>, paths: seq<Path>)
    ensures forall rec | rec in Others(rules, created, paths) :: LastRecord(created, rec.path) == Some(rec)
  {
    if paths != [] {
      LastRecordIsThere(created, paths[|paths| - 1]);
      OthersAreLast(rules, created, paths[..|paths| - 1]);
    }
  }

  lemma {:induction false} SomeIsLast(created: seq<Record>, p: Path) returns (i: nat)
    requires Recorded(created, p)
    ensures IsLast(created, i) && created[i].path == p
  {
    if created[|created| - 1].path == p {
      i := |created| - 1;
    } else {
      assert created == created[..|created| - 1] + [created[|created| - 1]];
      i := SomeIsLast(created[..|created| - 1], p);
    }
  }

  // Every recorded path that is not inside an allocation namespace is to be emptied.
  lemma {:induction false} RecordedAreRemoved(rules: Rules, created: seq<Record>, p: Path)
    requires Recorded(created, p) && !rules.isInside(p)
    ensures p in PathsOf(ToRemove(rules, created))
  {
    var i := SomeIsLast(created, p);
    if rules.isAllocation(p) {
      EachLiveAllocation(rules, created, |created|, i);
    } else {
      FirstPathsAreAll(created);
      EachOther(rules, created, FirstPaths(created), i);
    }
    assert created[i] in ToRemove(rules, created);
  }

  // The paths that were written down and are not empty.
  ghost function Left(c: Config): set<Path> {
    set p | p in c.server.store && WrittenAt(c.client, p)
  }

  // With what the check made at its paths, and nothing inside allocation namespaces, the cleanup deletes it all and
  // comes to its last stage with no error.
  lemma {:induction false} OwnCleanup(rules: Rules, a: Config) returns (d: Client)
    requires a.client.stage == Recovering(0) && a.client.errors == 0 && AllOwned(a.server, a.client)
    requires forall p | p in Left(a) :: !rules.isInside(p)
    ensures Reaches(rules, a, Config(a.server.(store := a.server.store - Left(a)), d))
    ensures d.stage == Checking([]) && d.errors == 0 && (Deserted(a) ==> d == a.client.(stage := Checking([])))
  {
    var c := RecoversAll(rules, a, 0);
    var b, todo := Config(a.server, c), ToRemove(rules, c.created);
    TodoIsLeft(rules, a, c);
    GoesOnward(rules, b, Removing(todo, Looking));
    ReachesOn(rules, a, b, In(b, Removing(todo, Looking)));
    var emptied := Removes(rules, In(b, Removing(todo, Looking)), todo, Left(a));
    ReachesOn(rules, a, In(b, Removing(todo, Looking)), emptied);
    FirstPathsAreAll(c.created);
    forall p | p in FirstPaths(c.created)
      ensures p !in emptied.server.store
    {
      assert WrittenAt(c, p);
    }
    d := Checks(rules, emptied);
    ReachesOn(rules, a, emptied, Config(emptied.server, d));
  }

  lemma {:induction false} Removes(rules: Rules, a: Config, todo: seq<Record>, left: set<Path>) returns (b: Config)
    requires a.client.stage == Removing(todo, Looking) && HoldOnly(a.server, todo)
    requires a.server.store - PathsOf(todo) == a.server.store - left
    ensures Reaches(rules, a, b) && b == Emptied(a, left, Removing([], Looking))
  {
    RemovesAll(rules, a, todo);
    b := Emptied(a, PathsOf(todo), Removing([], Looking));
  }

  lemma {:induction false} Checks(rules: Rules, a: Config) returns (d: Client)
    requires a.client.stage == Removing([], Looking) && forall p | p in FirstPaths(a.client.created) :: p !in a.server.store
    ensures Reaches(rules, a, Config(a.server, d)) && d == a.client.(stage := Checking([]))
  {
    var paths := FirstPaths(a.client.created);
    GoesOnward(rules, a, Checking(paths));
    ChecksNothing(rules, In(a, Checking(paths)), paths);
    d := a.client.(stage := Checking([]));
    ReachesOn(rules, a, In(a, Checking(paths)), Config(a.server, d));
  }

  // What is to be removed is what is left at the paths, and bears the UID on record.
  lemma {:induction false} TodoIsLeft(rules: Rules, a: Config, c: Client)
    requires Recovered(a.server, a.client, c) && forall p | p in Left(a) :: !rules.isInside(p)
    ensures HoldOnly(a.server, ToRemove(rules, c.created))
    ensures a.server.store - PathsOf(ToRemove(rules, c.created)) == a.server.store - Left(a)
  {
    var todo := ToRemove(rules, c.created);
    RemovedAreLast(rules, c.created);
    forall rec | rec in todo
      ensures WrittenAt(a.client, rec.path)
      ensures rec.path in a.server.store ==> a.server.store[rec.path].uid == rec.uid
    {
      LastRecordIsThere(c.created, rec.path);
      assert WrittenAt(c, rec.path);
    }
    forall p | p in a.server.store
      ensures p in PathsOf(todo) <==> p in Left(a)
    {
      if p in Left(a) {
        assert WrittenAt(c, p) && LastRecord(c.created, p).Some?;
        LastRecordIsThere(c.created, p);
        RecordedAreRemoved(rules, c.created, p);
      }
    }
  }

  // The cluster can drop whatever is in flight but for these requests.
  lemma {:induction false} DropsTheRest(rules: Rules, a: Config, kept: multiset<Request>)
    requires kept <= a.server.flying
    ensures Reaches(rules, a, a.(server := a.server.(flying := kept)))
    decreases |a.server.flying - kept|
  {
    if a.server.flying == kept {
      ReachesItself(rules, a);
    } else {
      assert a.server.flying == kept + (a.server.flying - kept);
      var r :| r in a.server.flying - kept;
      var b := a.(server := After(a.server, Drop(r)));
      assert Allowed(rules, a.server, Drop(r));
      OneStep(rules, a, b);
      assert |b.server.flying - kept| < |a.server.flying - kept| by {
        assert b.server.flying - kept == (a.server.flying - kept) - multiset{r};
      }
      DropsTheRest(rules, b, kept);
      ReachesOn(rules, a, b, a.(server := a.server.(flying := kept)));
    }
  }

  // The store with an object of the create.
  ghost function Landed(s: Server, r: Request, body: Doc): Server
    requires r.Post?
  {
    Server(s.store[r.path := Stored(s.nextUid, body, Some(r.mark))], multiset{}, s.nextUid + 1)
  }

  // Each create in flight when a cleanup begins can land after the last read of its path and before the report: the
  // cleanup has emptied all its paths, it reports complete, nothing is in flight, and the object is there. Nobody else
  // needs to act for that, where what is at the paths written down is the check's.
  lemma {:induction false} ALateCreateEscapes(rules: Rules, a: Config, r: Request, body: Doc) returns (d: Client)
    requires Begins(a) && Tidy(rules, a) && r in a.server.flying && r.Post?
    requires MarkOf(body).Some? ==> MarkOf(body).value == r.mark
    ensures Reaches(rules, a, Config(Landed(a.server.(store := a.server.store - Left(a)), r, body), d))
    ensures d.stage == Reported(true) && (Deserted(a) ==> d == a.client.(stage := Reported(true)))
  {
    var waiting := a.(server := a.server.(flying := multiset{r}));
    DropsTheRest(rules, a, multiset{r});
    var ready := InsideGoes(rules, waiting);
    ReachesOn(rules, a, waiting, ready);
    d := OwnCleanup(rules, ready);
    var cleaned := Config(ready.server.(store := ready.server.store - Left(ready)), d);
    assert cleaned.server.store == a.server.store - Left(a);
    ReachesOn(rules, a, ready, cleaned);
    assert WrittenAt(a.client, r.path);
    assert Allowed(rules, cleaned.server, Commit(r, body));
    var landed := Config(After(cleaned.server, Commit(r, body)), d);
    assert landed.server == Landed(a.server.(store := a.server.store - Left(a)), r, body);
    OneStep(rules, cleaned, landed);
    ReachesOn(rules, a, cleaned, landed);
    d := d.(stage := Reported(true));
    GoesOnward(rules, landed, Reported(true));
    ReachesOn(rules, a, landed, In(landed, Reported(true)));
  }

  // What was written down inside allocation namespaces goes with them.
  lemma {:induction false} InsideGoes(rules: Rules, a: Config) returns (b: Config)
    requires Tidy(rules, a)
    ensures Reaches(rules, a, b) && b.client == a.client && b.server == a.server.(store := b.server.store)
    ensures AllOwned(b.server, b.client) && forall p | p in Left(b) :: !rules.isInside(p)
    ensures b.server.store - Left(b) == a.server.store - Left(a) && (Deserted(a) ==> Deserted(b))
  {
    var inside := set p | p in Left(a) && rules.isInside(p);
    b := a.(server := After(a.server, Vanish(inside)));
    assert Allowed(rules, a.server, Vanish(inside));
    OneStep(rules, a, b);
    forall p | WrittenAt(b.client, p) && p in b.server.store
      ensures Owned(b.server, b.client, p)
    {
      assert p in Left(a) && Owned(a.server, a.client, p);
    }
  }

  // Some run of the cleanup reports complete, ends with nothing in flight, and leaves an object of this mark.
  ghost predicate CanLeave(rules: Rules, a: Config, mark: Mark) {
    exists b, p ::
      && Reaches(rules, a, b) && b.client.stage == Reported(true) && b.server.flying == multiset{}
      && At(b.server, p).Some? && At(b.server, p).value.maker == Some(mark)
  }

  // A complete cleanup can leave objects of exactly the creates that were in flight when it began.
  lemma {:induction false} LeavesExactlyTheLate(rules: Rules, a: Config, mark: Mark)
    requires Begins(a) && (rules.others || Tidy(rules, a))
    ensures CanLeave(rules, a, mark) <==> mark in Late(a.server)
  {
    if CanLeave(rules, a, mark) {
      var b, p :| Reaches(rules, a, b) && b.client.stage == Reported(true) && b.server.flying == multiset{} &&
        At(b.server, p).Some? && At(b.server, p).value.maker == Some(mark);
      CompleteLeavesOnlyLate(rules, a, b);
      assert Clear(b.server, Late(a.server), p);
    }
    if mark in Late(a.server) {
      var r :| r in a.server.flying && r.Post? && r.mark == mark;
      LateOneEscapes(rules, a, r);
    }
  }

  lemma {:induction false} LateOneEscapes(rules: Rules, a: Config, r: Request)
    requires Begins(a) && (rules.others || Tidy(rules, a)) && r in a.server.flying && r.Post?
    ensures CanLeave(rules, a, r.mark)
  {
    var empty := a;
    if Tidy(rules, a) {
      ReachesItself(rules, a);
    } else {
      var step := Vanish(a.server.store.Keys);
      empty := a.(server := After(a.server, step));
      assert Allowed(rules, a.server, step);
      OneStep(rules, a, empty);
    }
    var d := ALateCreateEscapes(rules, empty, r, Null);
    var b := Config(Landed(empty.server.(store := empty.server.store - Left(empty)), r, Null), d);
    ReachesOn(rules, a, empty, b);
    assert At(b.server, r.path).value.maker == Some(r.mark);
  }

  // So a cleanup that reports complete is sure to leave nothing of the check exactly when no create is in flight as it
  // begins. That nothing is in flight as it ends does not help.
  lemma {:induction false} SureExactlyWithNoCreateInFlight(rules: Rules, a: Config)
    requires Begins(a) && (rules.others || Tidy(rules, a))
    ensures (forall mark :: !CanLeave(rules, a, mark)) <==> Late(a.server) == {}
  {
    forall mark
      ensures CanLeave(rules, a, mark) <==> mark in Late(a.server)
    {
      LeavesExactlyTheLate(rules, a, mark);
    }
  }
}
