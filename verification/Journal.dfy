// scripts/check-allocation-account-identity.py: what the account check writes down before it asks for it, how it
// recovers what it is not sure of, and how it cleans up.
module Journal {
  import opened Cleanup
  import opened Cluster
  import opened Documents
  import opened Wrappers

  predicate SameIntent(i: Intent, j: Intent) {
    i.path == j.path && i.body == j.body && i.mark == j.mark
  }

  // ---- What the journal says of the cluster ----

  ghost predicate JournaledCreate(intents: seq<Intent>, r: Request)
    requires r.Post?
  {
    exists i :: 0 <= i < |intents| && intents[i].path == r.path && intents[i].body == r.body && intents[i].mark == r.mark
  }

  // Each request that was ever sent was written down before: a create as an intent, a delete with a UID on record.
  ghost predicate SentIsJournaled(sent: seq<Request>, intents: seq<Intent>, created: seq<Record>) {
    forall r | r in sent :: if r.Post? then JournaledCreate(intents, r) else Record(r.path, r.uid) in created
  }

  // Each object that the check made comes from a create that it sent, and what bears one of its marks is its own.
  ghost predicate StoreIsSent(s: Server, sent: seq<Request>, marks: set<Mark>) {
    && (forall r | r in s.flying :: r in sent)
    && forall p | p in s.store :: StoredIsSent(s, sent, marks, p)
  }

  ghost predicate StoredIsSent(s: Server, sent: seq<Request>, marks: set<Mark>, p: Path)
    requires p in s.store
  {
    var o := s.store[p];
    && o.uid < s.nextUid
    && (o.maker.Some? ==> exists r :: r in sent && r.Post? && r.path == p && r.mark == o.maker.value)
    && (MarkOf(o.body).Some? && MarkOf(o.body).value in marks ==> o.maker == MarkOf(o.body))
  }

  // Whatever has a UID on record is the check's own.
  ghost predicate RecordsAreOwn(s: Server, created: seq<Record>) {
    forall rec | rec in created :: RecordIsOwn(s, rec)
  }

  ghost predicate RecordIsOwn(s: Server, rec: Record) {
    rec.uid < s.nextUid && (rec.path in s.store && s.store[rec.path].uid == rec.uid ==> s.store[rec.path].maker.Some?)
  }

  ghost predicate IntentsAreGood(intents: seq<Intent>, created: seq<Record>, marks: set<Mark>) {
    forall i | 0 <= i < |intents| :: intents[i].mark in marks && IntentIsGood(intents[i], created)
  }

  // A resolved intent has a record, and each intent asks for its mark.
  ghost predicate IntentIsGood(i: Intent, created: seq<Record>) {
    && (i.resolved ==> Recorded(created, i.path))
    && MarkOf(i.body) == Some(i.mark)
  }

  // What is on disk is what was in memory at an earlier time.
  ghost predicate IsSaved(saved: seq<Intent>, intents: seq<Intent>) {
    |saved| <= |intents| && forall i | 0 <= i < |saved| :: SameIntent(saved[i], intents[i])
  }

  lemma {:induction false} EvolvesKeepsStore(marks: set<Mark>, s: Server, t: Server, sent: seq<Request>,
          created: seq<Record>)
    requires Evolves(marks, s, t) && StoreIsSent(s, sent, marks) && RecordsAreOwn(s, created)
    requires forall r | r in t.flying :: r in sent
    ensures StoreIsSent(t, sent, marks) && RecordsAreOwn(t, created)
  {
    forall p | p in t.store
      ensures StoredIsSent(t, sent, marks, p)
    {
      if p in s.store && s.store[p] == t.store[p] {
        assert StoredIsSent(s, sent, marks, p);
      } else {
        assert NewObject(marks, s, t, p, t.store[p]);
      }
    }
    forall rec | rec in created
      ensures RecordIsOwn(t, rec)
    {
      assert RecordIsOwn(s, rec);
      if rec.path in t.store && !(rec.path in s.store && s.store[rec.path] == t.store[rec.path]) {
        assert NewObject(marks, s, t, rec.path, t.store[rec.path]);
      }
    }
  }

  // A delete that the cluster carries out removes nothing that is not the check's own.
  lemma {:induction false} DeletesOnlyItsOwn(s: Server, sent: seq<Request>, intents: seq<Intent>, created: seq<Record>,
          r: Request, p: Path)
    requires SentIsJournaled(sent, intents, created) && RecordsAreOwn(s, created)
    requires r in sent && r.Delete? && r in s.flying
    requires p in s.store && p !in After(s, Commit(r, Null)).store
    ensures s.store[p].maker.Some? && Record(p, s.store[p].uid) in created
  {
    assert RecordIsOwn(s, Record(r.path, r.uid));
  }

  // How the cluster answers a create, when its answer arrives.
  datatype Reply = Made(stored: Stored) | Failed(transient: bool, alreadyExists: bool)

  datatype Error = ReadFailed | AlreadyThere | Differs | CreateFailed | IdentityChanged | DeleteFailed | StillThere | Expired

  // The check and the cluster it talks to. Between any two actions of the check the cluster does as it likes.
  class Check {
    // The marks of the check's creates, which nobody else uses.
    const marks: set<Mark>
    var server: Server
    ghost var sent: seq<Request>
    var intents: seq<Intent>
    var created: seq<Record>
    var savedIntents: seq<Intent>
    var savedCreated: seq<Record>
    // The time in seconds, and when the check's own time is up.
    var clock: nat
    var deadline: nat

    constructor (server: Server, marks: set<Mark>, clock: nat)
      requires server.flying == multiset{}
      requires forall p | p in server.store :: StoredIsSent(server, [], marks, p)
      ensures Valid() && this.server == server && this.marks == marks
      ensures intents == [] && created == [] && savedIntents == [] && savedCreated == []
    {
      this.marks, this.server, sent, intents, created, savedIntents, savedCreated := marks, server, [], [], [], [], [];
      this.clock, deadline := clock, clock + 600;
    }

    // What holds even where memory is ahead of the disk.
    ghost predicate Sound()
      reads this
    {
      && StoreIsSent(server, sent, marks) && RecordsAreOwn(server, created)
      && IntentsAreGood(intents, created, marks)
      && SentIsJournaled(sent, savedIntents, savedCreated)
      && IsSaved(savedIntents, intents) && savedCreated <= created
    }

    // What holds whenever the cluster can act: the journal is on disk.
    ghost predicate Valid()
      reads this
    {
      Sound() && savedIntents == intents && savedCreated == created
    }

    // The cluster does as it likes, for as long as it likes.
    method Interlude()
      requires Valid()
      modifies this`server, this`clock
      ensures Valid() && Leads(marks, old(server), server) && old(clock) <= clock
    {
      var schedule: seq<EnvStep>, time: nat := *, *;
      clock := clock + time;
      LeadsNowhere(marks, server);
      for i := 0 to |schedule|
        invariant Leads(marks, old(server), server) && old(clock) <= clock
      {
        if Legal(marks, server, schedule[i]) {
          LeadsByOne(marks, old(server), server, schedule[i]);
          server := Cluster.After(server, schedule[i]);
        }
      }
      LeadsEvolves(marks, old(server), server);
      EvolvesKeepsStore(marks, old(server), server, sent, created);
    }

    // Writes the journal to disk.
    method Save()
      requires Sound()
      modifies this`savedIntents, this`savedCreated
      ensures Valid()
    {
      savedIntents, savedCreated := intents, created;
      forall r | r in sent
        ensures if r.Post? then JournaledCreate(savedIntents, r) else Record(r.path, r.uid) in savedCreated
      {
        if r.Post? {
          var i :| 0 <= i < |old(savedIntents)| && old(savedIntents)[i].path == r.path &&
            old(savedIntents)[i].body == r.body && old(savedIntents)[i].mark == r.mark;
          assert SameIntent(old(savedIntents)[i], intents[i]);
        }
      }
    }

    // Reads the object at a path, at most twice. What it tells was so at some moment of the read. Once the time is up it
    // asks nothing.
    method Get(path: Path) returns (result: Result<Option<Stored>, Error>, ghost moment: Server)
      requires Valid()
      modifies this`server, this`clock, this`savedIntents, this`savedCreated
      ensures Valid() && Leads(marks, old(server), moment) && Leads(marks, moment, server)
      ensures StoreIsSent(moment, sent, marks)
      ensures result.Ok? ==> result == Ok(At(moment, path))
      ensures result.Err? ==> result.error == ReadFailed || result.error == Expired
      ensures old(clock) <= clock && (old(clock) >= deadline ==> result == Err(Expired))
      ensures result == Err(Expired) ==> clock >= deadline
    {
      LeadsNowhere(marks, server);
      for attempt := 0 to 2
        invariant Valid() && Leads(marks, old(server), server)
        invariant old(clock) <= clock && (attempt > 0 ==> old(clock) < deadline)
      {
        ghost var before := server;
        moment := server;
        LeadsNowhere(marks, server);
        if clock >= deadline { return Err(Expired), moment; }
        Interlude();
        LeadsOn(marks, old(server), before, server);
        moment := server;
        var seen := At(server, path);
        Interlude();
        LeadsOn(marks, old(server), moment, server);
        var arrived: bool := *;
        if arrived { return Ok(seen), moment; }
        Save();
        var transient: bool := *;
        if !transient || attempt == 1 { return Err(ReadFailed), moment; }
      }
      moment := server;
      LeadsNowhere(marks, server);
      result := Err(ReadFailed);
    }

    method RecordCreated(path: Path, stored: Stored)
      requires Valid() && RecordIsOwn(server, Record(path, stored.uid))
      modifies this`created, this`savedIntents, this`savedCreated
      ensures Valid()
      ensures created == old(created) + [Record(path, stored.uid)]
    {
      var record := Record(path, stored.uid);
      created := created + [record];
      assert record in created;
      RecordsGrow(intents, old(created), created, marks);
      Save();
    }

    method Resolve(k: nat)
      requires Valid() && k < |intents| && Recorded(created, intents[k].path)
      modifies this`intents, this`savedIntents, this`savedCreated
      ensures Valid()
      ensures intents == old(intents)[k := old(intents)[k].(resolved := true)]
    {
      intents := intents[k := intents[k].(resolved := true)];
      Save();
    }

    // Puts a stored object of the intent on record, and resolves the intent.
    method Adopt(k: nat, stored: Stored) returns (record: Record)
      requires Valid() && k < |intents| && RecordIsOwn(server, Record(intents[k].path, stored.uid))
      modifies this`created, this`intents, this`savedIntents, this`savedCreated
      ensures Valid()
      ensures record == Record(old(intents)[k].path, stored.uid) && created == old(created) + [record]
      ensures intents == old(intents)[k := old(intents)[k].(resolved := true)]
    {
      record := Record(intents[k].path, stored.uid);
      RecordCreated(intents[k].path, stored);
      assert record in created;
      Resolve(k);
    }

    // Looks for what an uncertain create left: nothing, or the object that it asked for, which is then on record.
    method RecoverIntent(k: nat, ghost c: Client) returns (result: Result<Option<Record>, Error>, ghost moment: Server)
      requires Valid() && k < |intents| && !intents[k].resolved
      requires c.intents == intents && c.created == created && c.stage == Recovering(k)
      modifies this`server, this`clock, this`created, this`intents, this`savedIntents, this`savedCreated
      ensures Valid() && Leads(marks, old(server), moment) && Leads(marks, moment, server)
      ensures result == Ok(None) ==> At(moment, old(intents)[k].path) == None
      ensures match result
        case Ok(Some(record)) =>
          && record.path == old(intents)[k].path && created == old(created) + [record]
          && intents == old(intents)[k := old(intents)[k].(resolved := true)]
        case Ok(None) => intents == old(intents) && created == old(created)
        case Err(e) => (e == ReadFailed || e == Expired || e == Differs) && intents == old(intents) && created == old(created)
      ensures Hears(moment, c, Client(intents, created, c.errors + if result.Err? then 1 else 0, Recovering(k + 1)))
    {
      var intent := intents[k];
      var read;
      read, moment := Get(intent.path);
      HeardOf(moment, c, read.Ok?, false);
      ghost var d := Told(c, Answer(At(moment, intent.path), read.Ok?), false);
      assert Hears(moment, c, d);
      if read.Err? || read.value.None? {
        assert d == Client(intents, created, c.errors + if read.Err? then 1 else 0, Recovering(k + 1));
        return if read.Err? then Err(read.error) else Ok(None), moment;
      }
      var stored := read.value.value;
      if !Contains(stored.body, intent.body) {
        assert d == Client(intents, created, c.errors + 1, Recovering(k + 1));
        return Err(Differs), moment;
      }
      OwnOf(moment, intent, stored);
      var record := Adopt(k, stored);
      assert d == Client(intents, created, c.errors, Recovering(k + 1));
      result := Ok(Some(record));
    }

    // What has all that an intent asks for is the check's own.
    lemma OwnOf(moment: Server, intent: Intent, stored: Stored)
      requires Valid() && intent in intents && Leads(marks, moment, server)
      requires StoreIsSent(moment, sent, marks)
      requires At(moment, intent.path) == Some(stored) && Contains(stored.body, intent.body)
      ensures RecordIsOwn(server, Record(intent.path, stored.uid))
    {
      var i :| 0 <= i < |intents| && intents[i] == intent;
      assert IntentIsGood(intents[i], created);
      LeadsEvolves(marks, moment, server);
      OwnByMark(moment, server, sent, marks, intent, stored);
    }

    // Sends a create. It may be carried out at once, later, or never, and the answer may be lost.
    method RequestCreate(path: Path, body: Doc, mark: Mark) returns (reply: Reply)
      requires Valid() && JournaledCreate(savedIntents, Post(path, body, mark))
      modifies this`server, this`clock, this`sent
      ensures Valid() && sent == old(sent) + [Post(path, body, mark)]
      ensures reply.Made? ==> RecordIsOwn(server, Record(path, reply.stored.uid))
    {
      var r := Post(path, body, mark);
      sent := sent + [r];
      server := server.(flying := server.flying + multiset{r});
      assert StoreIsSent(server, sent, marks) by { SentMore(old(server), server, old(sent), sent, marks); }
      Interlude();
      var now: bool, stored: Doc := *, *;
      if now && path !in server.store && Legal(marks, server, Commit(r, stored)) {
        CommitKeeps(r, stored);
        var made := At(server, path).value;
        ghost var landed := server;
        Interlude();
        LeadsEvolves(marks, landed, server);
        OwnLater(marks, landed, server, path, made);
        var arrived: bool := *;
        if arrived { return Made(made); }
      }
      var transient: bool, already: bool := *, *;
      reply := Failed(transient, already);
    }

    method CommitKeeps(r: Request, body: Doc)
      requires Valid() && r.Post? && r.path !in server.store && Legal(marks, server, Commit(r, body))
      modifies this`server, this`clock
      ensures Valid() && At(server, r.path) == Some(Stored(old(server).nextUid, body, Some(r.mark)))
      ensures server.nextUid == old(server).nextUid + 1
    {
      StepEvolves(marks, server, Commit(r, body));
      server := After(server, Commit(r, body));
      EvolvesKeepsStore(marks, old(server), server, sent, created);
    }

    // Writes down the intent, before any request for it.
    method Intend(path: Path, body: Doc, mark: Mark)
      requires Valid() && mark in marks && MarkOf(body) == Some(mark)
      modifies this`intents, this`savedIntents, this`savedCreated
      ensures Valid()
      ensures intents == old(intents) + [Intent(path, body, mark, false)]
    {
      intents := intents + [Intent(path, body, mark, false)];
      Save();
    }

    // One try: the object it made or found, an error, or nothing yet.
    method Attempt(k: nat, last: bool) returns (result: Result<Option<Record>, Error>)
      requires Valid() && k < |intents| && !intents[k].resolved
      modifies this`server, this`clock, this`sent, this`intents, this`created, this`savedIntents, this`savedCreated
      ensures Valid()
      ensures
        || sent == old(sent) + [Post(old(intents)[k].path, old(intents)[k].body, old(intents)[k].mark)]
        || (sent == old(sent) && result == Err(Expired))
      ensures match result
        case Ok(None) => intents == old(intents) && created == old(created) && !last
        case Ok(Some(record)) =>
          && record.path == old(intents)[k].path && created == old(created) + [record]
          && intents == old(intents)[k := old(intents)[k].(resolved := true)]
        case Err(e) =>
          e != AlreadyThere && (intents == old(intents) || intents == old(intents)[k := old(intents)[k].(resolved := true)])
    {
      var intent := intents[k];
      if clock >= deadline { return Err(Expired); }
      assert SameIntent(savedIntents[k], intent);
      var reply := RequestCreate(intent.path, intent.body, intent.mark);
      if reply.Made? {
        if !Contains(reply.stored.body, intent.body) { return Err(Differs); }
        var record := Adopt(k, reply.stored);
        return Ok(Some(record));
      }
      Save();
      var recovered;
      ghost var moment;
      recovered, moment := RecoverIntent(k, Client(intents, created, 0, Recovering(k)));
      if recovered.Err? { return Err(recovered.error); }
      if recovered.value.Some? && (reply.transient || (last && reply.alreadyExists)) { return recovered; }
      if recovered.value.Some? || !reply.transient || last { return Err(CreateFailed); }
      return Ok(None);
    }

    // Creates an object that must not be there yet, and repeats the create once when its answer was lost and the
    // object is still absent.
    method Create(path: Path, desired: Doc, mark: Mark) returns (result: Result<Record, Error>, ghost moment: Server)
      requires Valid() && mark in marks && Markable(desired)
      modifies this`server, this`clock, this`sent, this`intents, this`created, this`savedIntents, this`savedCreated
      ensures Valid()
      ensures SentMany(old(sent), sent, Post(path, WithMark(desired, mark), mark), 2)
      ensures Leads(marks, old(server), moment) && (sent != old(sent) ==> At(moment, path) == None)
      ensures result == Err(AlreadyThere) ==> sent == old(sent) && intents == old(intents) && created == old(created)
      ensures result.Ok? ==>
        && result.value.path == path && created == old(created) + [result.value]
        && intents == old(intents) + [Intent(path, WithMark(desired, mark), mark, true)]
      ensures old(intents) <= intents && |intents| <= |old(intents)| + 1
    {
      var read;
      read, moment := Get(path);
      if read.Err? { return Err(read.error), moment; }
      if read.value.Some? { return Err(AlreadyThere), moment; }
      MarkedHasItsMark(desired, mark);
      Intend(path, WithMark(desired, mark), mark);
      result := TryTwice(|intents| - 1);
    }

    // Sends the create of the last intent, and once more when its answer was lost and the object is still absent.
    method TryTwice(k: nat) returns (result: Result<Record, Error>)
      requires Valid() && k < |intents| && !intents[k].resolved
      modifies this`server, this`clock, this`sent, this`intents, this`created, this`savedIntents, this`savedCreated
      ensures Valid()
      ensures SentMany(old(sent), sent, Post(old(intents)[k].path, old(intents)[k].body, old(intents)[k].mark), 2)
      ensures result.Ok? ==>
        && result.value.path == old(intents)[k].path && created == old(created) + [result.value]
        && intents == old(intents)[k := old(intents)[k].(resolved := true)]
      ensures result.Err? ==>
        result.error != AlreadyThere &&
        (intents == old(intents) || intents == old(intents)[k := old(intents)[k].(resolved := true)])
    {
      var intent := intents[k];
      for attempt := 0 to 2
        invariant Valid() && intents == old(intents) && created == old(created)
        invariant SentMany(old(sent), sent, Post(intent.path, intent.body, intent.mark), attempt)
      {
        var tried := Attempt(k, attempt == 1);
        if tried.Err? { return Err(tried.error); }
        if tried.value.Some? { return Ok(tried.value.value); }
      }
      result := Err(CreateFailed);
    }

    // Sends a delete of the object with the UID on record.
    method RequestDelete(record: Record) returns (accepted: bool)
      requires Valid() && record in created
      modifies this`server, this`clock, this`sent
      ensures Valid() && Evolves(marks, old(server), server) && sent == old(sent) + [Delete(record.path, record.uid)]
      ensures Leads(marks, old(server).(flying := old(server).flying + multiset{Delete(record.path, record.uid)}), server)
      ensures old(clock) <= clock
    {
      var r := Delete(record.path, record.uid);
      sent := sent + [r];
      server := server.(flying := server.flying + multiset{r});
      SentMore(old(server), server, old(sent), sent, marks);
      ghost var before := server;
      Interlude();
      LeadsEvolves(marks, before, server);
      EvolvesOn(marks, old(server), before, server);
      accepted := *;
    }

    // Looks at the path of the record once more, and whether there is time for another look.
    method Look(record: Record, end: nat, ghost rules: Rules, ghost start: Server, ghost c: Client)
      returns (read: Result<Option<Stored>, Error>, ghost moment: Server, more: bool)
      requires Valid() && rules.marks == marks && rules.others && Leads(marks, start, server)
      requires c.stage.Removing? && c.stage.todo != [] && c.stage.todo[0] == record && c.stage.phase == Waiting
      requires Reaches(rules, Config(start, c), Config(server, c))
      modifies this`server, this`clock, this`savedIntents, this`savedCreated
      ensures Valid() && Leads(marks, start, moment) && Leads(marks, moment, server) && Leads(marks, start, server)
      ensures if read.Ok? then read == Ok(At(moment, record.path)) else read.error == ReadFailed || read.error == Expired
      ensures old(clock) <= clock && more == (clock < end) && (old(clock) >= deadline ==> read.Err?)
      ensures Reaches(rules, Config(start, c), Config(server,
        if read.Ok? && read.value.Some? && more then c
        else GoOn(c, Removing(c.stage.todo[1..], Looking), read != Ok(None))))
    {
      ghost var before := server;
      read, moment := Get(record.path);
      LeadsOn(marks, start, before, moment);
      LeadsOn(marks, start, moment, server);
      more := clock < end;
      HeardWaiting(rules, start, before, moment, server, c, read, more);
    }

    // Waits until the path of the record is empty, for sixty seconds or until the check's time is up. It looks once a
    // second at most.
    method WaitUntilGone(record: Record, ghost rules: Rules, ghost c: Client)
      returns (result: Result<bool, Error>, ghost moment: Server, ghost looks: nat)
      requires Valid() && rules.marks == marks && rules.others
      requires c.stage.Removing? && c.stage.todo != [] && c.stage.todo[0] == record && c.stage.phase == Waiting
      modifies this`server, this`clock, this`savedIntents, this`savedCreated
      ensures Valid() && Leads(marks, old(server), server)
      ensures result.Ok? ==> Leads(marks, old(server), moment) && Leads(marks, moment, server) && At(moment, record.path) == None
      ensures Reaches(rules, Config(old(server), c), Config(server, GoOn(c, Removing(c.stage.todo[1..], Looking), result.Err?)))
      ensures result == Err(StillThere) ==> clock >= deadline || clock >= old(clock) + 60
      ensures old(clock) <= clock && looks <= 61
    {
      moment, looks := server, 0;
      var end := if deadline < clock + 60 then deadline else clock + 60;
      LeadsNowhere(marks, server);
      ReachesItself(rules, Config(server, c));
      while true
        invariant Valid() && Leads(marks, old(server), server)
        invariant Reaches(rules, Config(old(server), c), Config(server, c))
        invariant old(clock) + looks <= clock && looks <= 60
        decreases end - clock
      {
        var read, more;
        read, moment, more := Look(record, end, rules, old(server), c);
        looks := looks + 1;
        if read.Err? { return Err(read.error), moment, looks; }
        if read.value.None? { return Ok(true), moment, looks; }
        if !more { return Err(StillThere), moment, looks; }
        clock := clock + 1;
      }
    }

    // Removes the object with the UID on record, and waits until its path is empty. It sends the delete only when the
    // object it saw there has that UID.
    method Remove(record: Record, ghost rules: Rules, ghost c: Client)
      returns (result: Result<bool, Error>, ghost seen: Server, ghost gone: Server)
      requires Valid() && record in created && rules.marks == marks && rules.others
      requires c.stage.Removing? && c.stage.todo != [] && c.stage.todo[0] == record && c.stage.phase == Looking
      modifies this`server, this`clock, this`sent, this`savedIntents, this`savedCreated
      ensures Valid() && Evolves(marks, old(server), server)
      ensures sent == old(sent) || sent == old(sent) + [Delete(record.path, record.uid)]
      ensures sent != old(sent) ==>
        Leads(marks, old(server), seen) && At(seen, record.path).Some? && At(seen, record.path).value.uid == record.uid
      ensures result.Ok? ==> Evolves(marks, old(server), gone) && Leads(marks, gone, server) && At(gone, record.path) == None
      ensures result == Err(StillThere) ==> clock >= deadline || clock >= old(clock) + 60
      ensures Reaches(rules, Config(old(server), c), Config(server, GoOn(c, Removing(c.stage.todo[1..], Looking), result.Err?)))
    {
      var read;
      read, seen := Get(record.path);
      gone := seen;
      HeardLooking(rules, old(server), seen, server, c, read);
      LeadsOn(marks, old(server), seen, server);
      LeadsEvolves(marks, old(server), server);
      LeadsEvolves(marks, old(server), seen);
      if read.Err? { return Err(read.error), seen, gone; }
      if read.value.None? { return Ok(true), seen, gone; }
      if read.value.value.uid != record.uid { return Err(IdentityChanged), seen, gone; }
      result, gone := DeleteAndWait(record, rules, Config(old(server), c), c);
    }

    // Deletes the object with the UID on record, and waits until its path is empty.
    method DeleteAndWait(record: Record, ghost rules: Rules, ghost start: Config, ghost c: Client)
      returns (result: Result<bool, Error>, ghost gone: Server)
      requires Valid() && record in created && rules.marks == marks && rules.others
      requires c.stage.Removing? && c.stage.todo != [] && c.stage.todo[0] == record
      requires Reaches(rules, start, Config(server, c.(stage := Removing(c.stage.todo, Sending))))
      requires Evolves(marks, start.server, server)
      modifies this`server, this`clock, this`sent, this`savedIntents, this`savedCreated
      ensures Valid() && Evolves(marks, start.server, server)
      ensures sent == old(sent) + [Delete(record.path, record.uid)] || (sent == old(sent) && result == Err(Expired))
      ensures result == Err(StillThere) ==> clock >= deadline || clock >= old(clock) + 60
      ensures result.Ok? ==> Evolves(marks, start.server, gone) && Leads(marks, gone, server) && At(gone, record.path) == None
      ensures Reaches(rules, start, Config(server, GoOn(c, Removing(c.stage.todo[1..], Looking), result.Err?)))
    {
      gone := server;
      if clock >= deadline {
        GaveUp(rules, start, server, c);
        return Err(Expired), gone;
      }
      var accepted := RequestDelete(record);
      EvolvesOn(marks, start.server, old(server), server);
      SentOne(rules, start, old(server), server, c, accepted);
      gone := server;
      if !accepted {
        Save();
        return Err(DeleteFailed), gone;
      }
      ghost var before, waiting := server, c.(stage := Removing(c.stage.todo, Waiting));
      ghost var looks;
      result, gone, looks := WaitUntilGone(record, rules, waiting);
      ReachesOn(rules, start, Config(before, waiting),
                Config(server, GoOn(c, Removing(c.stage.todo[1..], Looking), result.Err?)));
      WaitEvolves(marks, start.server, before, gone, server, result.Ok?);
    }

    // ---- Cleanup ----

    // Recovers each intent that is not resolved, and tells how many could not be read or are not the check's own.
    method RecoverAll(ghost rules: Rules) returns (errors: nat)
      requires Valid() && rules.marks == marks && rules.others
      modifies this`server, this`clock, this`created, this`intents, this`savedIntents, this`savedCreated
      ensures Valid() && Late(server) <= Late(old(server))
      ensures errors == 0 ==> SettledTo(Recovered(errors, |intents|), Late(old(server)), |intents|)
      ensures Reaches(rules, old(Recovered(0, 0)), Recovered(errors, |intents|))
    {
      ghost var start := Recovered(0, 0);
      BeginsHere();
      errors := RecoverEach(rules);
      ReachedIsSound(rules, start, Recovered(errors, |intents|));
    }

    method RecoverEach(ghost rules: Rules) returns (errors: nat)
      requires Valid() && rules.marks == marks && rules.others
      modifies this`server, this`clock, this`created, this`intents, this`savedIntents, this`savedCreated
      ensures Valid() && Reaches(rules, old(Recovered(0, 0)), Recovered(errors, |intents|))
    {
      errors := 0;
      ghost var start := Recovered(0, 0);
      ReachesItself(rules, start);
      for k := 0 to |intents|
        invariant Valid() && |intents| == |start.client.intents|
        invariant Reaches(rules, start, Recovered(errors, k))
      {
        errors := RecoverOne(k, rules, start, errors);
      }
    }

    // The check while it recovers.
    ghost function Recovered(errors: nat, k: nat): Config
      reads this
    {
      Config(server, Client(intents, created, errors, Recovering(k)))
    }

    // Recovers one intent, unless it is resolved, and counts an error.
    method RecoverOne(k: nat, ghost rules: Rules, ghost start: Config, before: nat) returns (errors: nat)
      requires Valid() && rules.marks == marks && rules.others && k < |intents|
      requires Reaches(rules, start, Recovered(before, k))
      modifies this`server, this`clock, this`created, this`intents, this`savedIntents, this`savedCreated
      ensures Valid() && |intents| == |old(intents)|
      ensures Reaches(rules, start, Recovered(errors, k + 1))
    {
      ghost var was, c := server, Client(intents, created, before, Recovering(k));
      if intents[k].resolved {
        GoesOnward(rules, Config(server, c), Recovering(k + 1));
        ReachesOn(rules, start, Config(server, c), Recovered(before, k + 1));
        return before;
      }
      var recovered;
      ghost var moment;
      recovered, moment := RecoverIntent(k, c);
      errors := if recovered.Err? then before + 1 else before;
      ghost var d := Client(intents, created, errors, Recovering(k + 1));
      ReadRuns(rules, was, moment, server, c, d);
      ReachesOn(rules, start, Config(was, c), Config(server, d));
    }

    // The last record of each path, by its place among the records, and the paths in the order they came first.
    method LiveRecords() returns (live: map<Path, nat>, order: seq<Path>)
      ensures IsLive(created, live)
      ensures order == FirstPaths(created) && forall p :: p in order <==> p in live
    {
      live, order := map[], [];
      for i := 0 to |created|
        invariant IsLive(created[..i], live)
        invariant order == FirstPaths(created[..i])
      {
        LiveNext(created[..i], created[i], live);
        FirstPathsAreAll(created[..i]);
        assert created[..i + 1] == created[..i] + [created[i]];
        assert created[..i + 1][..i] == created[..i];
        if created[i].path !in live { order := order + [created[i].path]; }
        live := live[created[i].path := i];
      }
      assert created[..|created|] == created;
      FirstPathsAreAll(created);
    }

    // Removes the live objects of these records, and tells how many it could not remove.
    method RemoveEach(records: seq<Record>, ghost late: set<Mark>, ghost rules: Rules, ghost c: Client,
            ghost rest: seq<Record>)
      returns (errors: nat)
      requires Valid() && Late(server) <= late && forall r | r in records :: r in created
      requires rules.marks == marks && rules.others && c.stage == Removing(records + rest, Looking)
      modifies this`server, this`clock, this`sent, this`savedIntents, this`savedCreated
      ensures Valid() && Late(server) <= late && SentDeletes(old(sent), sent, records)
      ensures KeepsClear(old(server), server, late)
      ensures Reaches(rules, Config(old(server), c), Config(server, With(c, Removing(rest, Looking), errors)))
    {
      errors := 0;
      ghost var start, were, d := Config(server, c), sent, c;
      ReachesItself(rules, start);
      for i := 0 to |records|
        invariant Valid() && Late(server) <= late && SentDeletes(were, sent, records)
        invariant KeepsClear(start.server, server, late)
        invariant Reaches(rules, start, Config(server, d))
        invariant IsRemoving(c, d, records, i, rest, errors)
      {
        IsRemovingNext(c, d, records, i, rest, errors);
        errors, d := RemoveOne(records[i], late, rules, start, d, records, were, errors);
      }
      assert records[|records|..] + rest == rest;
    }

    // Removes one of the records, and counts an error.
    method RemoveOne(record: Record, ghost late: set<Mark>, ghost rules: Rules, ghost start: Config, ghost c: Client,
            ghost records: seq<Record>, ghost were: seq<Request>, before: nat)
      returns (errors: nat, ghost d: Client)
      requires Valid() && Late(server) <= late && rules.marks == marks && rules.others
      requires record in created && record in records && SentDeletes(were, sent, records)
      requires c.stage.Removing? && c.stage.todo != [] && c.stage.todo[0] == record && c.stage.phase == Looking
      requires KeepsClear(start.server, server, late) && Reaches(rules, start, Config(server, c))
      modifies this`server, this`clock, this`sent, this`savedIntents, this`savedCreated
      ensures Valid() && Late(server) <= late && SentDeletes(were, sent, records)
      ensures KeepsClear(start.server, server, late) && Reaches(rules, start, Config(server, d))
      ensures errors >= before && d == With(c, Removing(c.stage.todo[1..], Looking), errors - before)
    {
      ghost var was, sentBefore := server, sent;
      var removed;
      ghost var seen, gone;
      removed, seen, gone := Remove(record, rules, c);
      errors := if removed.Err? then before + 1 else before;
      d := GoOn(c, Removing(c.stage.todo[1..], Looking), removed.Err?);
      ReachesOn(rules, start, Config(was, c), Config(server, d));
      ClearStays(marks, was, server, late);
      DeletesGo(were, sentBefore, sent, records, record);
    }

    // Reads each path once more, and tells how many could not be read or are not empty.
    method CheckEach(paths: seq<Path>, ghost late: set<Mark>, ghost rules: Rules, ghost c: Client) returns (errors: nat)
      requires Valid() && Late(server) <= late
      requires rules.marks == marks && rules.others && c.stage == Checking(paths)
      modifies this`server, this`clock, this`savedIntents, this`savedCreated
      ensures Valid() && Late(server) <= late
      ensures KeepsClear(old(server), server, late)
      ensures errors == 0 ==> AllClear(server, late, paths)
      ensures Reaches(rules, Config(old(server), c), Config(server, With(c, Checking([]), errors)))
    {
      errors := 0;
      ghost var start, d := Config(server, c), c;
      ReachesItself(rules, start);
      for i := 0 to |paths|
        invariant Valid() && Late(server) <= late
        invariant KeepsClear(start.server, server, late)
        invariant errors == 0 ==> AllClear(server, late, paths[..i])
        invariant Reaches(rules, start, Config(server, d))
        invariant IsChecking(c, d, paths, i, errors)
      {
        IsCheckingNext(c, d, paths, i, errors);
        assert paths[..i + 1] == paths[..i] + [paths[i]];
        errors, d := CheckOne(paths[i], late, rules, start, d, paths[..i], errors);
      }
      assert paths[|paths|..] == [] && paths[..|paths|] == paths;
    }

    // Reads one path once more, and counts an error.
    method CheckOne(path: Path, ghost late: set<Mark>, ghost rules: Rules, ghost start: Config, ghost c: Client,
            ghost done: seq<Path>, before: nat)
      returns (errors: nat, ghost d: Client)
      requires Valid() && Late(server) <= late && rules.marks == marks && rules.others
      requires c.stage.Checking? && c.stage.paths != [] && c.stage.paths[0] == path
      requires KeepsClear(start.server, server, late) && (before == 0 ==> AllClear(server, late, done))
      requires Reaches(rules, start, Config(server, c))
      modifies this`server, this`clock, this`savedIntents, this`savedCreated
      ensures Valid() && Late(server) <= late
      ensures KeepsClear(start.server, server, late) && (errors == 0 ==> AllClear(server, late, done + [path]))
      ensures Reaches(rules, start, Config(server, d))
      ensures errors >= before && d == With(c, Checking(c.stage.paths[1..]), errors - before)
    {
      ghost var was := server;
      var read;
      ghost var moment;
      read, moment := Get(path);
      errors := if read == Ok(None) then before else before + 1;
      d := GoOn(c, Checking(c.stage.paths[1..]), read != Ok(None));
      HeardChecking(rules, was, moment, server, c, read);
      ReachesOn(rules, start, Config(was, c), Config(server, d));
      StillClear(marks, was, moment, server, late, path);
      KeptClear(start.server, was, server, late, done);
    }

    // The cleanup once its time is set.
    method InTime(isAllocation: Path -> bool, isInside: Path -> bool) returns (complete: bool, ghost turn: nat)
      requires Valid()
      modifies this`server, this`clock, this`sent, this`intents, this`created, this`savedIntents, this`savedCreated
      ensures Valid()
      ensures complete ==> forall p :: Clear(server, Late(old(server)), p)
      ensures |old(sent)| <= turn <= |sent| && old(sent) <= sent
      ensures forall i | |old(sent)| <= i < |sent| ::
        sent[i].Delete? && isAllocation(sent[i].path) == (i < turn) && (i >= turn ==> !isInside(sent[i].path))
      ensures exists errors ::
        Reaches(Rules(marks, isAllocation, isInside, true), old(Config(server, Start(intents, created))),
                Config(server, Client(intents, created, errors, Reported(complete))))
    {
      ghost var rules := Rules(marks, isAllocation, isInside, true);
      ghost var late, start := Late(server), Config(server, Start(intents, created));
      BeginsHere();
      var unrecovered := RecoverAll(rules);
      var live, order := LiveRecords();
      var allocations, lastAllocations, others := Sort(isAllocation, isInside, live, order, rules);
      ghost var recovered, c := Client(intents, created, unrecovered, Recovering(|intents|)),
                                Client(intents, created, unrecovered, Removing(lastAllocations + others, Looking));
      GoesOnward(rules, Config(server, recovered), Removing(lastAllocations + others, Looking));
      ReachesOn(rules, start, Config(server, recovered), Config(server, c));
      var unremoved;
      unremoved, turn := RemoveAll(lastAllocations, others, late, rules, start, c);
      ghost var checking, before := With(c, Checking(order), unremoved), server;
      var remaining := CheckEach(order, late, rules, checking);
      Save();
      complete := unrecovered + unremoved + remaining == 0;
      Reports(rules, start, before, server, checking, remaining);
      if complete {
        CompleteLeavesOnlyLate(rules, start, Config(server, Client(intents, created, 0, Reported(true))));
      }
    }

    // The cleanup, within three minutes from now: allocation namespaces go before the objects that guard them, of those
    // the latest first, and what is inside the namespaces goes with them. In the end every path is looked at again. It
    // is a run of the step system.
    method Cleanup(isAllocation: Path -> bool, isInside: Path -> bool) returns (complete: bool, ghost turn: nat)
      requires Valid()
      modifies this
      ensures Valid()
      ensures complete ==> forall p :: Clear(server, Late(old(server)), p)
      ensures |old(sent)| <= turn <= |sent| && old(sent) <= sent
      ensures forall i | |old(sent)| <= i < |sent| ::
        sent[i].Delete? && isAllocation(sent[i].path) == (i < turn) && (i >= turn ==> !isInside(sent[i].path))
      ensures exists errors ::
        Reaches(Rules(marks, isAllocation, isInside, true), old(Config(server, Start(intents, created))),
                Config(server, Client(intents, created, errors, Reported(complete))))
      ensures deadline == old(clock) + 180
    {
      deadline := clock + 180;
      complete, turn := InTime(isAllocation, isInside);
    }

    // Removes the allocation namespaces and then the others.
    method RemoveAll(last: seq<Record>, others: seq<Record>, ghost late: set<Mark>, ghost rules: Rules,
            ghost start: Config, ghost c: Client)
      returns (errors: nat, ghost turn: nat)
      requires Valid() && Late(server) <= late && rules.marks == marks && rules.others
      requires forall r | r in last :: r in created && rules.isAllocation(r.path)
      requires forall r | r in others :: r in created && !rules.isAllocation(r.path) && !rules.isInside(r.path)
      requires c.stage == Removing(last + others, Looking) && Reaches(rules, start, Config(server, c))
      modifies this`server, this`clock, this`sent, this`savedIntents, this`savedCreated
      ensures Valid() && Late(server) <= late
      ensures |old(sent)| <= turn <= |sent| && old(sent) <= sent
      ensures forall i | |old(sent)| <= i < |sent| ::
        sent[i].Delete? && rules.isAllocation(sent[i].path) == (i < turn) && (i >= turn ==> !rules.isInside(sent[i].path))
      ensures Reaches(rules, start, Config(server, With(c, Checking(FirstPaths(c.created)), errors)))
    {
      ghost var was := server;
      var kept := RemoveEach(last, late, rules, c, others);
      turn := |sent|;
      ghost var between, d := server, With(c, Removing(others, Looking), kept);
      ReachesOn(rules, start, Config(was, c), Config(between, d));
      assert others + [] == others;
      var left := RemoveEach(others, late, rules, d, []);
      ghost var e := With(c, Removing([], Looking), kept + left);
      ReachesOn(rules, start, Config(between, d), Config(server, e));
      GoesOnward(rules, Config(server, e), Checking(FirstPaths(c.created)));
      errors := kept + left;
      ReachesOn(rules, start, Config(server, e), Config(server, With(c, Checking(FirstPaths(c.created)), errors)));
    }

    lemma BeginsHere()
      requires Valid()
      ensures Begins(Config(server, Start(intents, created)))
    {
      forall r | r in sent && r.Post?
        ensures HasIntent(intents, r.path)
      {
        assert JournaledCreate(savedIntents, r);
      }
      forall p | p in server.store && server.store[p].maker.Some?
        ensures HasIntent(intents, p)
      {
        assert StoredIsSent(server, sent, marks, p);
      }
      forall i | 0 <= i < |intents| && intents[i].resolved
        ensures Recorded(created, intents[i].path)
      {
        assert IntentIsGood(intents[i], created);
      }
    }

    // The records of allocation namespaces that are live, in the order of the records.
    method SortAllocations(live: map<Path, nat>, ghost rules: Rules, isAllocation: Path -> bool)
      returns (allocations: seq<Record>, last: seq<Record>)
      requires IsLive(created, live) && rules.isAllocation == isAllocation
      ensures AreAllocations(rules, created, allocations)
      ensures last == LiveAllocations(rules, created, |created|)
    {
      allocations, last := [], [];
      for i := 0 to |created|
        invariant AreAllocations(rules, created[..i], allocations)
        invariant last == LiveAllocations(rules, created, i)
      {
        AreAllocationsNext(rules, created, i, allocations);
        LiveAllocationsNext(rules, created, live, i);
        if isAllocation(created[i].path) {
          allocations := allocations + [created[i]];
        }
        if isAllocation(created[i].path) && live[created[i].path] == i {
          last := last + [created[i]];
        }
      }
      assert created[..|created|] == created;
    }

    // The other live records, the latest path first, but for those inside an allocation namespace.
    method SortOthers(isInside: Path -> bool, live: map<Path, nat>, order: seq<Path>, allocations: seq<Record>,
            ghost rules: Rules)
      returns (others: seq<Record>)
      requires IsLive(created, live) && rules.isInside == isInside
      requires forall p :: p in order <==> p in live
      requires AreAllocations(rules, created, allocations)
      ensures others == Others(rules, created, order)
    {
      others := [];
      for i := 0 to |order|
        invariant others == Others(rules, created, order[..i])
      {
        assert order[i] in order;
        assert order[..i + 1][..i] == order[..i];
        var record := created[live[order[i]]];
        assert record in created;
        LastRecordIs(created, live[order[i]]);
        if !isInside(record.path) && record !in allocations { others := [record] + others; }
      }
      assert order[..|order|] == order;
    }

    // The records of allocation namespaces, the live ones among them, and the other live records, the latest first,
    // but for those inside an allocation namespace.
    method Sort(isAllocation: Path -> bool, isInside: Path -> bool, live: map<Path, nat>, order: seq<Path>,
            ghost rules: Rules)
      returns (allocations: seq<Record>, last: seq<Record>, others: seq<Record>)
      requires IsLive(created, live) && rules.isAllocation == isAllocation && rules.isInside == isInside
      requires forall p :: p in order <==> p in live
      ensures last == LiveAllocations(rules, created, |created|) && others == Others(rules, created, order)
      ensures forall r | r in last :: r in created && isAllocation(r.path)
      ensures forall r | r in others :: r in created && !isAllocation(r.path) && !isInside(r.path)
      ensures forall p | p in live && (isAllocation(p) || !isInside(p)) :: created[live[p]] in last + others
    {
      allocations, last := SortAllocations(live, rules, isAllocation);
      others := SortOthers(isInside, live, order, allocations, rules);
      LiveAllocationsAreRecorded(rules, created, |created|);
      OthersAreRecorded(rules, created, order);
      forall p | p in live && (isAllocation(p) || !isInside(p))
        ensures created[live[p]] in last + others
      {
        assert IsLast(created, live[p]);
        if isAllocation(p) {
          EachLiveAllocation(rules, created, |created|, live[p]);
        } else {
          EachOther(rules, created, order, live[p]);
        }
      }
    }
  }

  // The records of allocation namespaces among these.
  ghost predicate AreAllocations(rules: Rules, created: seq<Record>, allocations: seq<Record>) {
    forall r :: r in allocations <==> r in created && rules.isAllocation(r.path)
  }

  lemma {:induction false} AreAllocationsNext(rules: Rules, created: seq<Record>, i: nat, allocations: seq<Record>)
    requires i < |created| && AreAllocations(rules, created[..i], allocations)
    ensures AreAllocations(rules, created[..i + 1], if rules.isAllocation(created[i].path) then allocations + [created[i]] else allocations)
  {
    assert created[..i + 1] == created[..i] + [created[i]];
  }

  lemma {:induction false} LiveIsLast(created: seq<Record>, live: map<Path, nat>, i: nat)
    requires IsLive(created, live) && i < |created|
    ensures created[i].path in live && (live[created[i].path] == i <==> IsLast(created, i))
  {
    assert created[i] in created;
    assert IsLast(created, live[created[i].path]);
  }

  ghost predicate AllClear(s: Server, late: set<Mark>, paths: seq<Path>) {
    forall p | p in paths :: Clear(s, late, p)
  }

  // What was clear still is.
  ghost predicate KeepsClear(s: Server, t: Server, late: set<Mark>) {
    forall p | Clear(s, late, p) :: Clear(t, late, p)
  }

  lemma {:induction false} KeptClear(s: Server, t: Server, u: Server, late: set<Mark>, paths: seq<Path>)
    requires KeepsClear(s, t, late) && KeepsClear(t, u, late)
    ensures KeepsClear(s, u, late)
    ensures AllClear(t, late, paths) ==> AllClear(u, late, paths)
  {
  }

  // A path that was empty at some moment of a read is clear after it.
  lemma {:induction false} StillClear(marks: set<Mark>, s: Server, moment: Server, t: Server, late: set<Mark>, p: Path)
    requires Leads(marks, s, moment) && Leads(marks, moment, t) && Late(s) <= late
    ensures Late(t) <= late && KeepsClear(s, t, late)
    ensures At(moment, p) == None ==> Clear(t, late, p)
  {
    LeadsEvolves(marks, s, moment);
    LeadsEvolves(marks, moment, t);
    ClearStays(marks, s, moment, late);
    ClearStays(marks, moment, t, late);
    assert At(moment, p) == None ==> Clear(moment, late, p);
  }

  lemma {:induction false} WaitEvolves(marks: set<Mark>, s: Server, before: Server, gone: Server, t: Server, ok: bool)
    requires Evolves(marks, s, before) && Leads(marks, before, t)
    requires ok ==> Leads(marks, before, gone) && Leads(marks, gone, t)
    ensures Evolves(marks, s, t) && (ok ==> Evolves(marks, s, gone))
  {
    LeadsEvolves(marks, before, t);
    EvolvesOn(marks, s, before, t);
    if ok {
      LeadsEvolves(marks, before, gone);
      EvolvesOn(marks, s, before, gone);
    }
  }

  // Where the client stands between two removals, and between two last reads.
  ghost predicate IsRemoving(c: Client, d: Client, records: seq<Record>, i: nat, rest: seq<Record>, errors: nat) {
    i <= |records| && d == With(c, Removing(records[i..] + rest, Looking), errors)
  }

  lemma {:induction false} IsRemovingNext(c: Client, d: Client, records: seq<Record>, i: nat, rest: seq<Record>,
          errors: nat)
    requires i < |records| && IsRemoving(c, d, records, i, rest, errors)
    ensures records[i] in records && d.stage.todo != [] && d.stage.todo[0] == records[i]
    ensures forall more: nat ::
      IsRemoving(c, With(d, Removing(d.stage.todo[1..], Looking), more), records, i + 1, rest, errors + more)
  {
    assert d.stage.todo[1..] == records[i + 1..] + rest;
  }

  ghost predicate IsChecking(c: Client, d: Client, paths: seq<Path>, i: nat, errors: nat) {
    i <= |paths| && d == With(c, Checking(paths[i..]), errors)
  }

  lemma {:induction false} IsCheckingNext(c: Client, d: Client, paths: seq<Path>, i: nat, errors: nat)
    requires i < |paths| && IsChecking(c, d, paths, i, errors)
    ensures d.stage.paths != [] && d.stage.paths[0] == paths[i]
    ensures forall more: nat :: IsChecking(c, With(d, Checking(d.stage.paths[1..]), more), paths, i + 1, errors + more)
  {
    assert d.stage.paths[1..] == paths[i + 1..];
  }

  lemma {:induction false} LiveAllocationsNext(rules: Rules, created: seq<Record>, live: map<Path, nat>, i: nat)
    requires IsLive(created, live) && i < |created|
    ensures created[i].path in live
    ensures LiveAllocations(rules, created, i + 1) ==
      if rules.isAllocation(created[i].path) && live[created[i].path] == i then LiveAllocations(rules, created, i) + [created[i]]
      else LiveAllocations(rules, created, i)
  {
    LiveIsLast(created, live, i);
  }

  // ---- What the methods hear and send, as steps of the cleanup ----

  lemma {:induction false} HeardLooking(rules: Rules, s: Server, moment: Server, t: Server, c: Client,
          read: Result<Option<Stored>, Error>)
    requires rules.others && Leads(rules.marks, s, moment) && Leads(rules.marks, moment, t)
    requires c.stage.Removing? && c.stage.todo != [] && c.stage.phase == Looking
    requires read.Ok? ==> read.value == At(moment, c.stage.todo[0].path)
    ensures
      var sends := read.Ok? && read.value.Some? && read.value.value.uid == c.stage.todo[0].uid;
      Reaches(rules, Config(s, c), Config(t,
        if sends then c.(stage := Removing(c.stage.todo, Sending))
        else GoOn(c, Removing(c.stage.todo[1..], Looking), read != Ok(None))))
  {
    var d := Told(c, Answer(At(moment, c.stage.todo[0].path), read.Ok?), false);
    HeardOf(moment, c, read.Ok?, false);
    ReadRuns(rules, s, moment, t, c, d);
  }

  lemma {:induction false} HeardWaiting(rules: Rules, start: Server, s: Server, moment: Server, t: Server, c: Client,
          read: Result<Option<Stored>, Error>, more: bool)
    requires rules.others && Leads(rules.marks, s, moment) && Leads(rules.marks, moment, t)
    requires c.stage.Removing? && c.stage.todo != [] && c.stage.phase == Waiting
    requires read.Ok? ==> read.value == At(moment, c.stage.todo[0].path)
    requires Reaches(rules, Config(start, c), Config(s, c))
    ensures
      Reaches(rules, Config(start, c), Config(t,
        if read.Ok? && read.value.Some? && more then c
        else GoOn(c, Removing(c.stage.todo[1..], Looking), read != Ok(None))))
  {
    var d := Told(c, Answer(At(moment, c.stage.todo[0].path), read.Ok?), more);
    HeardOf(moment, c, read.Ok?, more);
    ReadRuns(rules, s, moment, t, c, d);
    ReachesOn(rules, Config(start, c), Config(s, c), Config(t, d));
  }

  lemma {:induction false} HeardChecking(rules: Rules, s: Server, moment: Server, t: Server, c: Client,
          read: Result<Option<Stored>, Error>)
    requires rules.others && Leads(rules.marks, s, moment) && Leads(rules.marks, moment, t)
    requires c.stage.Checking? && c.stage.paths != []
    requires read.Ok? ==> read.value == At(moment, c.stage.paths[0])
    ensures Reaches(rules, Config(s, c), Config(t, GoOn(c, Checking(c.stage.paths[1..]), read != Ok(None))))
  {
    var d := Told(c, Answer(At(moment, c.stage.paths[0]), read.Ok?), false);
    HeardOf(moment, c, read.Ok?, false);
    ReadRuns(rules, s, moment, t, c, d);
  }

  // The delete was sent after the client had looked.
  lemma {:induction false} SentOne(rules: Rules, start: Config, s: Server, t: Server, c: Client, accepted: bool)
    requires rules.others && c.stage.Removing? && c.stage.todo != []
    requires Reaches(rules, start, Config(s, c.(stage := Removing(c.stage.todo, Sending))))
    requires Leads(rules.marks, s.(flying := s.flying + multiset{Delete(c.stage.todo[0].path, c.stage.todo[0].uid)}), t)
    ensures Reaches(rules, start, Config(t,
      if accepted then c.(stage := Removing(c.stage.todo, Waiting)) else GoOn(c, Removing(c.stage.todo[1..], Looking), true)))
  {
    var sending := c.(stage := Removing(c.stage.todo, Sending));
    var d := if accepted then c.(stage := Removing(c.stage.todo, Waiting)) else GoOn(c, Removing(c.stage.todo[1..], Looking), true);
    var sent := s.(flying := s.flying + multiset{Delete(c.stage.todo[0].path, c.stage.todo[0].uid)});
    assert Sends(Config(s, sending), Config(sent, d));
    DeleteRuns(rules, s, sent, t, sending, d);
    ReachesOn(rules, start, Config(s, sending), Config(t, d));
  }

  lemma {:induction false} GaveUp(rules: Rules, start: Config, s: Server, c: Client)
    requires c.stage.Removing? && c.stage.todo != []
    requires Reaches(rules, start, Config(s, c.(stage := Removing(c.stage.todo, Sending))))
    ensures Reaches(rules, start, Config(s, GoOn(c, Removing(c.stage.todo[1..], Looking), true)))
  {
    var sending, d := c.(stage := Removing(c.stage.todo, Sending)), GoOn(c, Removing(c.stage.todo[1..], Looking), true);
    assert GivesUp(Config(s, sending), Config(s, d));
    OneStep(rules, Config(s, sending), Config(s, d));
    ReachesOn(rules, start, Config(s, sending), Config(s, d));
  }

  // The end of the run: the report.
  lemma {:induction false} Reports(rules: Rules, start: Config, s: Server, t: Server, c: Client, remaining: nat)
    requires Reaches(rules, start, Config(s, c))
    requires Reaches(rules, Config(s, c), Config(t, With(c, Checking([]), remaining)))
    ensures
      var d := With(c, Checking([]), remaining);
      Reaches(rules, start, Config(t, d.(stage := Reported(d.errors == 0))))
  {
    var d := With(c, Checking([]), remaining);
    ReachesOn(rules, start, Config(s, c), Config(t, d));
    GoesOnward(rules, Config(t, d), Reported(d.errors == 0));
    ReachesOn(rules, start, Config(t, d), In(Config(t, d), Reported(d.errors == 0)));
  }

  // The map has the last record of each path on record.
  ghost predicate IsLive(created: seq<Record>, live: map<Path, nat>) {
    && (forall p :: p in live <==> Recorded(created, p))
    && (forall p | p in live :: IsLast(created, live[p]) && created[live[p]].path == p)
  }

  lemma {:induction false} LiveNext(created: seq<Record>, r: Record, live: map<Path, nat>)
    requires IsLive(created, live)
    ensures IsLive(created + [r], live[r.path := |created|])
  {
    var more, next := created + [r], live[r.path := |created|];
    forall p
      ensures p in next <==> Recorded(more, p)
    {
      if p == r.path { assert r in more; }
      if Recorded(created, p) {
        var rec :| rec in created && rec.path == p;
        assert rec in more;
      }
    }
    forall p | p in next
      ensures IsLast(more, next[p]) && more[next[p]].path == p
    {
      if p != r.path { assert IsLast(created, live[p]) && created[live[p]].path == p; }
    }
  }

  // Nothing was sent but the one request, so many times at most.
  ghost predicate SentMany(was: seq<Request>, now: seq<Request>, r: Request, most: nat) {
    was <= now && |now| <= |was| + most && forall i | |was| <= i < |now| :: now[i] == r
  }

  // Nothing was sent but deletes of these records.
  ghost predicate SentDeletes(was: seq<Request>, now: seq<Request>, records: seq<Record>) {
    was <= now && forall i | |was| <= i < |now| :: now[i].Delete? && Record(now[i].path, now[i].uid) in records
  }

  lemma {:induction false} DeletesGo(was: seq<Request>, before: seq<Request>, now: seq<Request>, records: seq<Record>,
          r: Record)
    requires SentDeletes(was, before, records) && r in records
    requires now == before || now == before + [Delete(r.path, r.uid)]
    ensures SentDeletes(was, now, records)
  {
  }

  lemma {:induction false} SentMore(s: Server, t: Server, sent: seq<Request>, more: seq<Request>, marks: set<Mark>)
    requires StoreIsSent(s, sent, marks) && sent <= more && t.store == s.store && t.nextUid == s.nextUid
    requires forall r | r in t.flying :: r in more
    ensures StoreIsSent(t, more, marks)
  {
    forall p | p in t.store
      ensures StoredIsSent(t, more, marks, p)
    {
      assert StoredIsSent(s, sent, marks, p);
    }
  }

  lemma {:induction false} RecordsGrow(intents: seq<Intent>, created: seq<Record>, more: seq<Record>, marks: set<Mark>)
    requires IntentsAreGood(intents, created, marks) && created <= more
    ensures IntentsAreGood(intents, more, marks)
  {
    forall i | 0 <= i < |intents|
      ensures IntentIsGood(intents[i], more)
    {
      assert IntentIsGood(intents[i], created);
      if intents[i].resolved {
        var rec :| rec in created && rec.path == intents[i].path;
        assert rec in more;
      }
    }
  }

  // An object that has all the intent asks for, its mark among it, is the check's own, and so is its UID later.
  lemma {:induction false} OwnByMark(s: Server, t: Server, sent: seq<Request>, marks: set<Mark>, intent: Intent,
          stored: Stored)
    requires StoreIsSent(s, sent, marks) && Evolves(marks, s, t)
    requires intent.mark in marks && MarkOf(intent.body) == Some(intent.mark)
    requires At(s, intent.path) == Some(stored) && Contains(stored.body, intent.body)
    ensures stored.maker == Some(intent.mark) && RecordIsOwn(t, Record(intent.path, stored.uid))
  {
    assert StoredIsSent(s, sent, marks, intent.path);
    ContainsTheMark(stored.body, intent.body);
    OwnLater(marks, s, t, intent.path, stored);
  }

  lemma {:induction false} OwnLater(marks: set<Mark>, s: Server, t: Server, path: Path, stored: Stored)
    requires Evolves(marks, s, t) && At(s, path) == Some(stored) && stored.uid < s.nextUid && stored.maker.Some?
    ensures RecordIsOwn(t, Record(path, stored.uid))
  {
    if path in t.store && t.store[path] != s.store[path] {
      assert NewObject(marks, s, t, path, t.store[path]);
    }
  }
}
