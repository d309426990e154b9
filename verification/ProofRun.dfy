// internal/assure/proof_run.go, and proofRunPassed in internal/assure/gate.go: from test runs to a judged proof run.
module ProofRun {
  import opened Decision
  import opened Order
  import opened Wrappers

  // Only a ledger row can hold NoResult.
  datatype TestResult = NoResult | Passed | Failed | Skipped

  datatype TestRun = TestRun(id: string, result: TestResult, duration: real, timed: bool, detail: string)

  datatype Outcome = Outcome(testRecord: string, result: TestResult, file: string, duration: real, timed: bool, detail: string)

  const DID_NOT_RUN := "did not run"

  function ResultText(result: TestResult): string {
    match result
    case NoResult => ""
    case Passed => "passed"
    case Failed => "failed"
    case Skipped => "skipped"
  }

  function OutcomeOf(run: TestRun): Outcome {
    Outcome(run.id, run.result, "", run.duration, run.timed, run.detail)
  }

  function Weight(result: TestResult): nat {
    match result
    case Failed => 2
    case Skipped => 1
    case _ => 0
  }

  ghost predicate OnePerRecord(outcomes: seq<Outcome>) {
    forall i, j | 0 <= i < j < |outcomes| :: outcomes[i].testRecord != outcomes[j].testRecord
  }

  ghost predicate ByRecord(outcomes: seq<Outcome>) {
    forall i, j | 0 <= i < j < |outcomes| :: Less(outcomes[i].testRecord, outcomes[j].testRecord)
  }

  const RECORD: Outcome -> string := (o: Outcome) => o.testRecord

  // sort.Slice by the test record's ID. No two outcomes have one ID, so the order is fixed.
  method SortByRecord(outcomes: seq<Outcome>) returns (sorted: seq<Outcome>)
    requires OnePerRecord(outcomes)
    ensures ByRecord(sorted) && OnePerRecord(sorted)
    ensures forall o :: o in sorted <==> o in outcomes
  {
    sorted := SortByKey(outcomes, RECORD);
    assert OneEach(RECORD, outcomes);
    forall i, j | 0 <= i < j < |sorted|
      ensures Less(sorted[i].testRecord, sorted[j].testRecord) && sorted[i].testRecord != sorted[j].testRecord
    {
      assert ByKey(RECORD)(sorted[i], sorted[j]);
      assert RECORD(sorted[i]) != RECORD(sorted[j]);
    }
  }

  // ---- Merging the runs of a record ----

  // The run is the first of its ID with the worst result.
  ghost predicate FirstWorst(runs: seq<TestRun>, i: nat) {
    && i < |runs|
    && (forall j | 0 <= j < |runs| && runs[j].id == runs[i].id :: Weight(runs[j].result) <= Weight(runs[i].result))
    && (forall j | 0 <= j < i && runs[j].id == runs[i].id :: Weight(runs[j].result) < Weight(runs[i].result))
  }

  ghost predicate FromWorst(runs: seq<TestRun>, outcome: Outcome) {
    exists i: nat :: FirstWorst(runs, i) && outcome == OutcomeOf(runs[i])
  }

  ghost predicate Merged(runs: seq<TestRun>, outcomes: seq<Outcome>) {
    && OnePerRecord(outcomes)
    && (forall o | o in outcomes :: FromWorst(runs, o))
    && (forall run | run in runs :: exists o :: o in outcomes && o.testRecord == run.id)
  }

  ghost predicate Indexed(index: map<string, nat>, outcomes: seq<Outcome>) {
    && (forall id | id in index :: index[id] < |outcomes| && outcomes[index[id]].testRecord == id)
    && (forall i | 0 <= i < |outcomes| :: outcomes[i].testRecord in index && index[outcomes[i].testRecord] == i)
  }

  // The state of the merge after the runs so far.
  ghost predicate Merging(runs: seq<TestRun>, index: map<string, nat>, outcomes: seq<Outcome>) {
    Indexed(index, outcomes) && Merged(runs, outcomes)
  }

  lemma {:induction false} StillWorst(runs: seq<TestRun>, run: TestRun, outcome: Outcome)
    requires FromWorst(runs, outcome)
    requires run.id == outcome.testRecord ==> Weight(run.result) <= Weight(outcome.result)
    ensures FromWorst(runs + [run], outcome)
  {
    var i: nat :| FirstWorst(runs, i) && outcome == OutcomeOf(runs[i]);
    assert FirstWorst(runs + [run], i);
  }

  lemma {:induction false} NewWorst(runs: seq<TestRun>, run: TestRun, outcomes: seq<Outcome>)
    requires Merged(runs, outcomes)
    requires forall o | o in outcomes && o.testRecord == run.id :: Weight(o.result) < Weight(run.result)
    ensures FromWorst(runs + [run], OutcomeOf(run))
  {
    var all := runs + [run];
    forall j | 0 <= j < |runs| && runs[j].id == run.id
      ensures Weight(runs[j].result) < Weight(run.result)
    {
      assert runs[j] in runs;
      var o :| o in outcomes && o.testRecord == runs[j].id;
      var i: nat :| FirstWorst(runs, i) && o == OutcomeOf(runs[i]);
    }
    assert FirstWorst(all, |runs|);
    assert all[|runs|] == run;
  }

  // Merges the runs of each record: the worst result stays, with the detail of the first run that had it.
  method OneOutcomePerTestRecord(runs: seq<TestRun>) returns (merged: seq<Outcome>)
    ensures Merged(runs, merged) && ByRecord(merged)
  {
    var index: map<string, nat> := map[];
    var outcomes: seq<Outcome> := [];
    for n := 0 to |runs|
      invariant Merging(runs[..n], index, outcomes)
    {
      var run := runs[n];
      assert runs[..n + 1] == runs[..n] + [run];
      ghost var was := outcomes;
      if run.id !in index {
        index := index[run.id := |outcomes|];
        outcomes := outcomes + [OutcomeOf(run)];
        MergeNew(runs[..n], run, was);
      } else {
        var i := index[run.id];
        if Weight(run.result) > Weight(outcomes[i].result) {
          outcomes := outcomes[i := OutcomeOf(run)];
        }
        MergeAgain(runs[..n], run, was, i);
      }
    }
    assert runs[..|runs|] == runs;
    merged := SortByRecord(outcomes);
  }

  lemma {:induction false} MergeNew(runs: seq<TestRun>, run: TestRun, outcomes: seq<Outcome>)
    requires Merged(runs, outcomes)
    requires forall o | o in outcomes :: o.testRecord != run.id
    ensures Merged(runs + [run], outcomes + [OutcomeOf(run)])
  {
    var grown := outcomes + [OutcomeOf(run)];
    NewWorst(runs, run, outcomes);
    forall o | o in grown
      ensures FromWorst(runs + [run], o)
    {
      if o in outcomes { StillWorst(runs, run, o); }
    }
    forall r | r in runs + [run]
      ensures exists o :: o in grown && o.testRecord == r.id
    {
      if r in runs {
        var o :| o in outcomes && o.testRecord == r.id;
        assert o in grown;
      } else {
        assert grown[|outcomes|] in grown;
      }
    }
  }

  lemma {:induction false} MergeAgain(runs: seq<TestRun>, run: TestRun, outcomes: seq<Outcome>, i: nat)
    requires Merged(runs, outcomes) && i < |outcomes| && outcomes[i].testRecord == run.id
    ensures
      var worse := Weight(run.result) > Weight(outcomes[i].result);
      Merged(runs + [run], if worse then outcomes[i := OutcomeOf(run)] else outcomes)
  {
    var worse := Weight(run.result) > Weight(outcomes[i].result);
    var grown := if worse then outcomes[i := OutcomeOf(run)] else outcomes;
    if worse { NewWorst(runs, run, outcomes); }
    forall o | o in grown
      ensures FromWorst(runs + [run], o)
    {
      if !(worse && o == OutcomeOf(run)) { StillWorst(runs, run, o); }
    }
    forall r | r in runs + [run]
      ensures exists o :: o in grown && o.testRecord == r.id
    {
      if r.id == run.id {
        assert grown[i] in grown;
      } else {
        var o :| o in outcomes && o.testRecord == r.id;
        var k :| 0 <= k < |outcomes| && outcomes[k] == o;
        assert grown[k] in grown;
      }
    }
  }

  // ---- Filling in what did not run ----

  // The outcomes given, and a failed one for each automated record that has none.
  ghost predicate Filled(outcomes: seq<Outcome>, automated: set<string>, all: seq<Outcome>) {
    forall o :: o in all <==>
      o in outcomes ||
      (o.testRecord in automated && o == Outcome(o.testRecord, Failed, "", 0.0, false, DID_NOT_RUN) &&
       forall given | given in outcomes :: given.testRecord != o.testRecord)
  }

  method OutcomeForEveryAutomatedTest(outcomes: seq<Outcome>, automated: set<string>) returns (all: seq<Outcome>)
    requires OnePerRecord(outcomes)
    ensures Filled(outcomes, automated, all)
    ensures ByRecord(all)
  {
    var have: set<string> := {};
    for i := 0 to |outcomes|
      invariant forall id :: id in have <==> exists o :: o in outcomes[..i] && o.testRecord == id
    {
      assert outcomes[..i + 1] == outcomes[..i] + [outcomes[i]];
      have := have + {outcomes[i].testRecord};
    }
    assert outcomes[..|outcomes|] == outcomes;
    all := outcomes;
    var ids := SortedKeys(automated);
    for i := 0 to |ids|
      invariant OnePerRecord(all)
      invariant Filled(outcomes, (set id | id in ids[..i]), all)
    {
      var id := ids[i];
      assert ids[..i + 1] == ids[..i] + [id];
      assert forall j | 0 <= j < i :: ids[j] != id by { LessIrreflexive(id); }
      if id !in have {
        ghost var was := all;
        all := all + [Outcome(id, Failed, "", 0.0, false, DID_NOT_RUN)];
        assert forall o | o in was :: o.testRecord != id;
        assert OnePerRecord(all) by {
          forall k | 0 <= k < |was|
            ensures was[k].testRecord != id
          {
            assert was[k] in was;
          }
        }
      }
    }
    assert (set id | id in ids[..|ids|]) == automated;
    all := SortByRecord(all);
  }

  // ---- The judgement ----

  // The outcome the judge reads for a record: the last one, as a map filled in order keeps it.
  function OutcomeFor(outcomes: seq<Outcome>, id: string): Option<Outcome>
    ensures OutcomeFor(outcomes, id).Some? ==> OutcomeFor(outcomes, id).value in outcomes && OutcomeFor(outcomes, id).value.testRecord == id
    ensures OutcomeFor(outcomes, id).None? ==> forall o | o in outcomes :: o.testRecord != id
  {
    if |outcomes| == 0 then None
    else
      var last := outcomes[|outcomes| - 1];
      assert outcomes == outcomes[..|outcomes| - 1] + [last];
      if last.testRecord == id then Some(last) else OutcomeFor(outcomes[..|outcomes| - 1], id)
  }

  predicate PassedIn(outcomes: seq<Outcome>, id: string) {
    OutcomeFor(outcomes, id).Some? && OutcomeFor(outcomes, id).value.result == Passed
  }

  function WhyNot(outcome: Option<Outcome>, id: string): string {
    match outcome
    case None => NoOutcomeReason(id)
    case Some(o) =>
      if o.result == Failed && o.detail == DID_NOT_RUN then DidNotRunReason(id) else ResultReason(id, ResultText(o.result))
  }

  // The reasons of these records, in their order.
  function ReasonsFor(outcomes: seq<Outcome>, ids: seq<string>): seq<string> {
    if ids == [] then []
    else
      var id := ids[|ids| - 1];
      ReasonsFor(outcomes, ids[..|ids| - 1]) +
      if PassedIn(outcomes, id) then [] else [WhyNot(OutcomeFor(outcomes, id), id)]
  }

  lemma {:induction false} ReasonsForEach(outcomes: seq<Outcome>, ids: seq<string>)
    ensures forall reason :: reason in ReasonsFor(outcomes, ids) <==>
      exists id :: id in ids && !PassedIn(outcomes, id) && reason == WhyNot(OutcomeFor(outcomes, id), id)
    ensures ReasonsFor(outcomes, ids) == [] <==> forall id | id in ids :: PassedIn(outcomes, id)
  {
    if ids != [] {
      var id := ids[|ids| - 1];
      assert ids == ids[..|ids| - 1] + [id];
      ReasonsForEach(outcomes, ids[..|ids| - 1]);
    }
  }

  // Goes through the automated records by ID and says why each falls short. Without a proof run there is one reason,
  // the given one.
  method ProofRunPassed(proof: Option<seq<Outcome>>, automated: set<string>, why: string) returns (reasons: seq<string>)
    ensures proof.None? ==> reasons == [why]
    ensures proof.Some? ==> reasons == ReasonsFor(proof.value, KeysInOrder(automated))
    ensures proof.Some? ==> forall reason :: reason in reasons <==>
      exists id :: id in automated && !PassedIn(proof.value, id) && reason == WhyNot(OutcomeFor(proof.value, id), id)
    ensures reasons == [] <==> proof.Some? && forall id | id in automated :: PassedIn(proof.value, id)
  {
    if proof.None? { return [why]; }
    var outcomes: map<string, Outcome> := map[];
    for i := 0 to |proof.value|
      invariant forall id :: (if id in outcomes then Some(outcomes[id]) else None) == OutcomeFor(proof.value[..i], id)
    {
      assert proof.value[..i + 1][..i] == proof.value[..i];
      outcomes := outcomes[proof.value[i].testRecord := proof.value[i]];
    }
    assert proof.value[..|proof.value|] == proof.value;
    reasons := [];
    var ids := SortedKeys(automated);
    for i := 0 to |ids|
      invariant reasons == ReasonsFor(proof.value, ids[..i])
    {
      var id := ids[i];
      assert ids[..i + 1][..i] == ids[..i];
      var outcome := if id in outcomes then Some(outcomes[id]) else None;
      if outcome.None? || outcome.value.result != Passed {
        reasons := reasons + [WhyNot(outcome, id)];
      }
    }
    assert ids[..|ids|] == ids;
    ReasonsForEach(proof.value, ids);
  }

  // ---- The whole way: merge, fill, judge ----

  ghost predicate RanAndPassed(runs: seq<TestRun>, id: string) {
    (exists run :: run in runs && run.id == id) && forall run | run in runs && run.id == id :: run.result == Passed
  }

  // Only passed, failed and skipped are results of a run.
  ghost predicate RealResults(runs: seq<TestRun>) {
    forall run | run in runs :: run.result != NoResult
  }

  lemma {:induction false} WorstPasses(runs: seq<TestRun>, outcome: Outcome)
    requires RealResults(runs) && FromWorst(runs, outcome)
    ensures outcome.result == Passed <==> RanAndPassed(runs, outcome.testRecord)
  {
    var i: nat :| FirstWorst(runs, i) && outcome == OutcomeOf(runs[i]);
    assert runs[i] in runs;
    if outcome.result == Passed {
      forall r | r in runs && r.id == outcome.testRecord
        ensures r.result == Passed
      {
        var j :| 0 <= j < |runs| && runs[j] == r;
        assert Weight(runs[j].result) <= Weight(runs[i].result);
      }
    }
  }

  lemma {:induction false} NoRunNoOutcome(runs: seq<TestRun>, merged: seq<Outcome>, id: string)
    requires Merged(runs, merged)
    requires forall run | run in runs :: run.id != id
    ensures forall o | o in merged :: o.testRecord != id
  {
    forall o | o in merged
      ensures o.testRecord != id
    {
      var i: nat :| FirstWorst(runs, i) && o == OutcomeOf(runs[i]);
      assert runs[i] in runs;
    }
  }

  lemma {:induction false} MergedPasses(runs: seq<TestRun>, merged: seq<Outcome>, automated: set<string>,
          all: seq<Outcome>, id: string)
    requires RealResults(runs) && Merged(runs, merged) && Filled(merged, automated, all) && id in automated
    ensures PassedIn(all, id) <==> RanAndPassed(runs, id)
  {
    var outcome := OutcomeFor(all, id);
    if run :| run in runs && run.id == id {
      var given :| given in merged && given.testRecord == run.id;
      assert given in all;
      assert outcome.value in merged;
      WorstPasses(runs, outcome.value);
    } else {
      NoRunNoOutcome(runs, merged, id);
      assert outcome.Some? ==> outcome.value.result == Failed;
    }
  }

  // From any test runs, the judge gives no reason exactly when every automated record ran, and each of its runs passed.
  method JudgeRuns(runs: seq<TestRun>, automated: set<string>, why: string) returns (reasons: seq<string>)
    requires RealResults(runs)
    ensures reasons == [] <==> forall id | id in automated :: RanAndPassed(runs, id)
  {
    var merged := OneOutcomePerTestRecord(runs);
    var all := OutcomeForEveryAutomatedTest(merged, automated);
    reasons := ProofRunPassed(Some(all), automated, why);
    forall id | id in automated {
      MergedPasses(runs, merged, automated, all, id);
    }
  }
}
