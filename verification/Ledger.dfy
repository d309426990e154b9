// internal/assure/ledger.go: the proof ledger, built by a walk of the history that stops early.
module Ledger {
  import opened Order
  import opened ProofRun
  import opened Verify
  import opened Wrappers

  const AUTOMATED := "automated"
  const DEFAULT_DEPTH := 200

  // The test records of the spec by ID, each with its state.
  type Tests = map<string, string>

  function AutomatedRecords(tests: Tests): set<string> {
    set id | id in tests && tests[id] == AUTOMATED
  }

  datatype Row = Row(testRecord: string, state: string, result: TestResult, lastPassedAt: string)

  // A commit with the reasons why attestations of it were refused, and an attestation that counts for a change alone.
  datatype RefusedAt = RefusedAt(commit: string, reasons: seq<string>)
  datatype ChangeGradeAt = ChangeGradeAt(commit: string, ref: string, logIndex: Option<int>)

  datatype Ledger = Ledger(
    rows: seq<Row>, proof: Option<Verified>, walked: nat, refused: seq<RefusedAt>, changeGrade: seq<ChangeGradeAt>)

  // What the store and the verifier give for a commit, or nothing when they cannot answer.
  type Lookup = string -> Option<Verification>

  function ProofAt(look: Lookup, commit: string): Option<Verified> {
    match look(commit)
    case None => None
    case Some(v) => v.proof
  }

  predicate PassedAt(look: Lookup, commit: string, id: string) {
    ProofAt(look, commit).Some? && PassedIn(ProofAt(look, commit).value.outcomes, id)
  }

  // The newest commit of the history whose verified proof run passed the record, or none.
  function LastPass(history: seq<string>, look: Lookup, id: string): string {
    if history == [] then ""
    else if PassedAt(look, history[0], id) then history[0]
    else LastPass(history[1..], look, id)
  }

  lemma {:induction false} LastPassOneMore(history: seq<string>, look: Lookup, id: string, commit: string)
    requires "" !in history
    ensures LastPass(history + [commit], look, id) ==
      if LastPass(history, look, id) != "" then LastPass(history, look, id)
      else if PassedAt(look, commit, id) then commit else ""
    decreases |history|
  {
    if history == [] {
      assert [commit][1..] == [];
    } else {
      assert history[0] in history;
      LastPassOneMore(history[1..], look, id, commit);
      assert (history + [commit])[1..] == history[1..] + [commit];
    }
  }

  // A pass that the walk has found is the last pass over any longer history.
  lemma {:induction false} LastPassStays(walked: seq<string>, rest: seq<string>, look: Lookup, id: string)
    requires LastPass(walked, look, id) != ""
    ensures LastPass(walked + rest, look, id) == LastPass(walked, look, id)
    decreases |walked|
  {
    assert (walked + rest)[0] == walked[0];
    if !PassedAt(look, walked[0], id) {
      LastPassStays(walked[1..], rest, look, id);
      assert (walked + rest)[1..] == walked[1..] + rest;
    }
  }

  // The result a proof run gives a record.
  function ResultIn(outcomes: seq<Outcome>, id: string): TestResult {
    match OutcomeFor(outcomes, id)
    case None => NoResult
    case Some(o) => o.result
  }

  // ---- What is listed apart ----

  // How the reason of a refusal reads.
  type Text = Refused -> string

  function ElsewhereReasons(v: Verification, text: Text): set<string> {
    set change | change in v.changeGrade :: text(change.refused)
  }

  // The reasons in their order, but for these.
  function ReasonsBesides(refused: seq<Refused>, elsewhere: set<string>, text: Text): seq<string> {
    if refused == [] then []
    else
      var reason := text(refused[|refused| - 1]);
      ReasonsBesides(refused[..|refused| - 1], elsewhere, text) + if reason in elsewhere then [] else [reason]
  }

  lemma {:induction false} ReasonsBesidesAre(refused: seq<Refused>, elsewhere: set<string>, text: Text)
    ensures forall reason :: reason in ReasonsBesides(refused, elsewhere, text) <==>
      reason !in elsewhere && exists r :: r in refused && text(r) == reason
  {
    if refused != [] {
      var before, last := refused[..|refused| - 1], refused[|refused| - 1];
      ReasonsBesidesAre(before, elsewhere, text);
      assert refused == before + [last];
    }
  }

  function RefusalsAt(commit: string, v: Verification, text: Text): seq<RefusedAt> {
    var reasons := ReasonsBesides(v.refused, ElsewhereReasons(v, text), text);
    if reasons == [] then [] else [RefusedAt(commit, reasons)]
  }

  function LogIndexOf(refused: Refused): Option<int> {
    if refused.SignatureFails? then None else Some(refused.logIndex)
  }

  function ChangesAt(commit: string, v: Verification): seq<ChangeGradeAt> {
    seq(|v.changeGrade|, i requires 0 <= i < |v.changeGrade| =>
      ChangeGradeAt(commit, v.changeGrade[i].ref, LogIndexOf(v.changeGrade[i].refused)))
  }

  function RefusalsOf(walked: seq<string>, look: Lookup, text: Text): seq<RefusedAt> {
    if walked == [] then []
    else
      var commit := walked[|walked| - 1];
      RefusalsOf(walked[..|walked| - 1], look, text) +
      match look(commit) case None => [] case Some(v) => RefusalsAt(commit, v, text)
  }

  function ChangesOf(walked: seq<string>, look: Lookup): seq<ChangeGradeAt> {
    if walked == [] then []
    else
      var commit := walked[|walked| - 1];
      ChangesOf(walked[..|walked| - 1], look) + match look(commit) case None => [] case Some(v) => ChangesAt(commit, v)
  }

  // Lists what was refused at one commit: the reasons of attestations for a change apart from the others.
  method ListRefused(commit: string, v: Verification, text: Text)
    returns (refused: seq<RefusedAt>, changeGrade: seq<ChangeGradeAt>)
    ensures refused == RefusalsAt(commit, v, text) && changeGrade == ChangesAt(commit, v)
  {
    var elsewhere: set<string> := {};
    changeGrade := [];
    for i := 0 to |v.changeGrade|
      invariant changeGrade == ChangesAt(commit, v)[..i]
      invariant elsewhere == set change | change in v.changeGrade[..i] :: text(change.refused)
    {
      var change := v.changeGrade[i];
      changeGrade := changeGrade + [ChangeGradeAt(commit, change.ref, LogIndexOf(change.refused))];
      elsewhere := elsewhere + {text(change.refused)};
      assert v.changeGrade[..i + 1] == v.changeGrade[..i] + [change];
    }
    assert v.changeGrade[..|v.changeGrade|] == v.changeGrade;
    var reasons := [];
    for i := 0 to |v.refused|
      invariant reasons == ReasonsBesides(v.refused[..i], elsewhere, text)
    {
      assert v.refused[..i + 1][..i] == v.refused[..i];
      if text(v.refused[i]) !in elsewhere { reasons := reasons + [text(v.refused[i])]; }
    }
    assert v.refused[..|v.refused|] == v.refused;
    refused := if reasons == [] then [] else [RefusedAt(commit, reasons)];
  }

  // The ledger lists what was refused at the commits walked.
  ghost predicate Lists(ledger: Ledger, history: seq<string>, look: Lookup, text: Text) {
    && ledger.walked <= |history|
    && ledger.refused == RefusalsOf(history[..ledger.walked], look, text)
    && ledger.changeGrade == ChangesOf(history[..ledger.walked], look)
  }

  // Some walked commit's attestation was refused for the reason.
  ghost predicate RefusedFor(walked: seq<string>, look: Lookup, text: Text, commit: string, reason: string) {
    commit in walked && look(commit).Some? && exists r :: r in look(commit).value.refused && text(r) == reason
  }

  ghost predicate ForAChange(look: Lookup, text: Text, commit: string, reason: string) {
    look(commit).Some? && reason in ElsewhereReasons(look(commit).value, text)
  }

  ghost predicate ListedFor(refused: seq<RefusedAt>, commit: string, reason: string) {
    exists entry :: entry in refused && entry.commit == commit && reason in entry.reasons
  }

  // Exactly the refusals of the commits walked are listed, but for those of attestations that count for a change.
  lemma {:induction false} RefusalsAreListed(walked: seq<string>, look: Lookup, text: Text, commit: string,
          reason: string)
    ensures ListedFor(RefusalsOf(walked, look, text), commit, reason) <==>
      RefusedFor(walked, look, text, commit, reason) && !ForAChange(look, text, commit, reason)
  {
    if walked != [] {
      var before, last := walked[..|walked| - 1], walked[|walked| - 1];
      RefusalsAreListed(before, look, text, commit, reason);
      assert walked == before + [last];
      var more := match look(last) case None => [] case Some(v) => RefusalsAt(last, v, text);
      if look(last).Some? {
        ReasonsBesidesAre(look(last).value.refused, ElsewhereReasons(look(last).value, text), text);
      }
      assert ListedFor(more, commit, reason) <==>
        commit == last && RefusedFor([last], look, text, commit, reason) && !ForAChange(look, text, commit, reason);
      ListedInEither(RefusalsOf(before, look, text), more, commit, reason);
    }
  }

  // And exactly those attestations are listed apart.
  lemma {:induction false} ChangesAreListed(walked: seq<string>, look: Lookup, entry: ChangeGradeAt)
    ensures entry in ChangesOf(walked, look) <==>
      && entry.commit in walked && look(entry.commit).Some?
      && exists change :: change in look(entry.commit).value.changeGrade
           && entry == ChangeGradeAt(entry.commit, change.ref, LogIndexOf(change.refused))
  {
    if walked != [] {
      var before, last := walked[..|walked| - 1], walked[|walked| - 1];
      ChangesAreListed(before, look, entry);
      assert walked == before + [last];
      if look(last).Some? {
        var v := look(last).value;
        forall change | change in v.changeGrade
          ensures ChangeGradeAt(last, change.ref, LogIndexOf(change.refused)) in ChangesAt(last, v)
        {
          var i :| 0 <= i < |v.changeGrade| && v.changeGrade[i] == change;
          assert ChangesAt(last, v)[i] == ChangeGradeAt(last, change.ref, LogIndexOf(change.refused));
        }
      }
    }
  }

  lemma {:induction false} ListedInEither(a: seq<RefusedAt>, b: seq<RefusedAt>, commit: string, reason: string)
    ensures ListedFor(a + b, commit, reason) <==> ListedFor(a, commit, reason) || ListedFor(b, commit, reason)
  {
    assert forall entry :: entry in a + b <==> entry in a || entry in b;
  }

  // ---- The walk ----

  // Each row has the last pass within the commits walked, and the result at the first of them.
  ghost predicate Walked(rows: seq<Row>, walked: seq<string>, look: Lookup) {
    forall i | 0 <= i < |rows| ::
      && rows[i].lastPassedAt == LastPass(walked, look, rows[i].testRecord)
      && rows[i].result ==
         if walked == [] || ProofAt(look, walked[0]).None? then NoResult
         else ResultIn(ProofAt(look, walked[0]).value.outcomes, rows[i].testRecord)
  }

  ghost predicate OneRowEach(rows: seq<Row>) {
    forall i, j | 0 <= i < j < |rows| :: rows[i].testRecord != rows[j].testRecord
  }

  ghost predicate IndexOf(index: map<string, nat>, rows: seq<Row>) {
    && (forall id | id in index :: index[id] < |rows| && rows[index[id]].testRecord == id)
    && (forall i | 0 <= i < |rows| :: rows[i].testRecord in index)
  }

  // The automated records with no pass yet.
  ghost function Waiting(rows: seq<Row>): set<string> {
    set i | 0 <= i < |rows| && rows[i].state == AUTOMATED && rows[i].lastPassedAt == "" :: rows[i].testRecord
  }

  // A row after the outcomes of one commit.
  function RowAfter(row: Row, outcomes: seq<Outcome>, commit: string, first: bool): Row {
    row.(result := if first && OutcomeFor(outcomes, row.testRecord).Some? then ResultIn(outcomes, row.testRecord) else row.result,
         lastPassedAt := if row.lastPassedAt == "" && PassedIn(outcomes, row.testRecord) then commit else row.lastPassedAt)
  }

  ghost predicate RowsAfter(was: seq<Row>, rows: seq<Row>, outcomes: seq<Outcome>, commit: string, first: bool) {
    |was| == |rows| && forall i | 0 <= i < |rows| :: rows[i] == RowAfter(was[i], outcomes, commit, first)
  }

  lemma {:induction false} RowAfterNext(row: Row, outcomes: seq<Outcome>, outcome: Outcome, commit: string, first: bool)
    requires commit != ""
    requires forall o | o in outcomes :: o.testRecord != outcome.testRecord
    ensures
      var before := RowAfter(row, outcomes, commit, first);
      RowAfter(row, outcomes + [outcome], commit, first) ==
        if outcome.testRecord != row.testRecord then before
        else before.(result := if first then outcome.result else before.result,
                     lastPassedAt := if outcome.result == Passed && before.lastPassedAt == "" then commit else before.lastPassedAt)
  {
    assert (outcomes + [outcome])[..|outcomes|] == outcomes;
  }

  lemma {:induction false} WaitingAfter(rows: seq<Row>, k: nat, row: Row)
    requires OneRowEach(rows) && k < |rows|
    requires row.testRecord == rows[k].testRecord && row.state == rows[k].state
    ensures
      Waiting(rows[k := row]) ==
      if row.lastPassedAt == rows[k].lastPassedAt then Waiting(rows)
      else if row.lastPassedAt != "" then Waiting(rows) - {row.testRecord}
      else Waiting(rows[k := row])
  {
    var now := rows[k := row];
    forall id | row.lastPassedAt == rows[k].lastPassedAt
      ensures id in Waiting(now) <==> id in Waiting(rows)
    {
      if id in Waiting(rows) {
        var i :| 0 <= i < |rows| && rows[i].state == AUTOMATED && rows[i].lastPassedAt == "" && rows[i].testRecord == id;
        assert now[i].testRecord == id && now[i].lastPassedAt == "";
      }
    }
    forall id | row.lastPassedAt != ""
      ensures id in Waiting(now) <==> id in Waiting(rows) && id != row.testRecord
    {
      if id in Waiting(rows) && id != row.testRecord {
        var i :| 0 <= i < |rows| && rows[i].state == AUTOMATED && rows[i].lastPassedAt == "" && rows[i].testRecord == id;
        assert now[i] == rows[i];
      }
    }
  }

  // A row once it has taken one outcome of its record.
  function RowTaken(row: Row, outcome: Outcome, commit: string, first: bool): Row {
    row.(result := if first then outcome.result else row.result,
         lastPassedAt := if outcome.result == Passed && row.lastPassedAt == "" then commit else row.lastPassedAt)
  }

  // The rows once the row of the outcome's record, if there is one, has taken it.
  function RowsTaken(rows: seq<Row>, index: map<string, nat>, outcome: Outcome, commit: string, first: bool): seq<Row> {
    if outcome.testRecord in index && index[outcome.testRecord] < |rows| then
      rows[index[outcome.testRecord] := RowTaken(rows[index[outcome.testRecord]], outcome, commit, first)]
    else rows
  }

  lemma {:induction false} RowsAfterNext(was: seq<Row>, rows: seq<Row>, index: map<string, nat>, done: seq<Outcome>,
          outcome: Outcome, commit: string, first: bool)
    requires OneRowEach(was) && IndexOf(index, was) && commit != ""
    requires forall o | o in done :: o.testRecord != outcome.testRecord
    requires RowsAfter(was, rows, done, commit, first)
    ensures RowsAfter(was, RowsTaken(rows, index, outcome, commit, first), done + [outcome], commit, first)
  {
    forall i | 0 <= i < |was| {
      RowAfterNext(was[i], done, outcome, commit, first);
    }
  }

  // Takes one outcome into its row, in place.
  method TakeOutcome(rows: array<Row>, index: map<string, nat>, waiting: set<string>, commit: string, outcome: Outcome,
          first: bool)
    returns (left: set<string>)
    requires OneRowEach(rows[..]) && IndexOf(index, rows[..])
    requires waiting == Waiting(rows[..]) && commit != ""
    modifies rows
    ensures rows[..] == RowsTaken(old(rows[..]), index, outcome, commit, first)
    ensures left == Waiting(rows[..])
  {
    left := waiting;
    if outcome.testRecord in index {
      var row := index[outcome.testRecord];
      ghost var before := rows[..];
      var passes := outcome.result == Passed && rows[row].lastPassedAt == "";
      if first {
        rows[row] := rows[row].(result := outcome.result);
      }
      if passes {
        rows[row] := rows[row].(lastPassedAt := commit);
        left := left - {outcome.testRecord};
      }
      assert rows[..] == before[row := rows[row]];
      WaitingAfter(before, row, rows[row]);
    }
  }

  lemma {:induction false} SameRecords(was: seq<Row>, rows: seq<Row>, done: seq<Outcome>, index: map<string, nat>,
          commit: string, first: bool)
    requires RowsAfter(was, rows, done, commit, first) && OneRowEach(was) && IndexOf(index, was)
    ensures OneRowEach(rows) && IndexOf(index, rows)
  {
    forall i | 0 <= i < |rows|
      ensures rows[i].testRecord == was[i].testRecord
    {
    }
  }

  // Takes the outcomes of one commit's proof run into the rows, in place.
  method TakeOutcomes(rows: array<Row>, index: map<string, nat>, waiting: set<string>, commit: string,
          outcomes: seq<Outcome>, first: bool)
    returns (left: set<string>)
    requires OneRowEach(rows[..]) && IndexOf(index, rows[..]) && OnePerRecord(outcomes)
    requires waiting == Waiting(rows[..]) && commit != ""
    modifies rows
    ensures RowsAfter(old(rows[..]), rows[..], outcomes, commit, first)
    ensures left == Waiting(rows[..])
  {
    left := waiting;
    ghost var was := rows[..];
    for n := 0 to |outcomes|
      invariant RowsAfter(was, rows[..], outcomes[..n], commit, first)
      invariant left == Waiting(rows[..])
    {
      assert outcomes[..n + 1] == outcomes[..n] + [outcomes[n]];
      SameRecords(was, rows[..], outcomes[..n], index, commit, first);
      RowsAfterNext(was, rows[..], index, outcomes[..n], outcomes[n], commit, first);
      left := TakeOutcome(rows, index, left, commit, outcomes[n], first);
    }
    assert outcomes[..|outcomes|] == outcomes;
  }

  // The row for each test record of the spec, in ID order, with nothing known of any.
  ghost predicate StartRows(rows: seq<Row>, tests: Tests) {
    && (forall i, j | 0 <= i < j < |rows| :: Less(rows[i].testRecord, rows[j].testRecord))
    && (forall id :: id in tests <==> exists i :: 0 <= i < |rows| && rows[i].testRecord == id)
    && (forall i | 0 <= i < |rows| ::
          rows[i].testRecord in tests && rows[i] == Row(rows[i].testRecord, tests[rows[i].testRecord], NoResult, ""))
  }

  lemma {:induction false} StartRowsAre(ids: seq<string>, rows: seq<Row>, tests: Tests)
    requires SortedListOf(ids, tests.Keys) && |rows| == |ids|
    requires forall i | 0 <= i < |ids| :: ids[i] in tests && rows[i] == Row(ids[i], tests[ids[i]], NoResult, "")
    ensures StartRows(rows, tests) && OneRowEach(rows)
  {
    forall i, j | 0 <= i < j < |ids|
      ensures ids[i] != ids[j]
    {
      LessIrreflexive(ids[i]);
    }
    forall id | id in tests
      ensures exists i :: 0 <= i < |rows| && rows[i].testRecord == id
    {
      assert id in ids;
      var i :| 0 <= i < |ids| && ids[i] == id;
      assert rows[i].testRecord == id;
    }
  }

  method IndexRows(ids: seq<string>) returns (index: map<string, nat>)
    ensures forall id | id in index :: index[id] < |ids| && ids[index[id]] == id
    ensures forall k | 0 <= k < |ids| :: ids[k] in index
  {
    index := map[];
    for i := 0 to |ids|
      invariant forall id | id in index :: index[id] < i && ids[index[id]] == id
      invariant forall k | 0 <= k < i :: ids[k] in index
    {
      index := index[ids[i] := i];
    }
  }

  method NewRows(tests: Tests) returns (rows: array<Row>, index: map<string, nat>)
    ensures fresh(rows) && StartRows(rows[..], tests)
    ensures OneRowEach(rows[..]) && IndexOf(index, rows[..])
  {
    var ids := SortedKeys(tests.Keys);
    forall i | 0 <= i < |ids|
      ensures ids[i] in tests
    {
      assert ids[i] in ids;
    }
    rows := new Row[|ids|](i requires 0 <= i < |ids| && ids[i] in tests => Row(ids[i], tests[ids[i]], NoResult, ""));
    StartRowsAre(ids, rows[..], tests);
    index := IndexRows(ids);
  }

  // What a lookup gives at a commit walked: the verifier's proof run has one outcome per test record.
  ghost predicate Decoded(look: Lookup) {
    forall commit :: ProofAt(look, commit).Some? ==> OnePerRecord(ProofAt(look, commit).value.outcomes)
  }

  lemma {:induction false} WalkedNext(was: seq<Row>, rows: seq<Row>, walked: seq<string>, commit: string, look: Lookup)
    requires "" !in walked && commit != ""
    requires Walked(was, walked, look)
    requires
      match ProofAt(look, commit)
      case None => rows == was
      case Some(p) => RowsAfter(was, rows, p.outcomes, commit, walked == [])
    requires forall i | 0 <= i < |was| && walked == [] :: was[i].result == NoResult
    ensures Walked(rows, walked + [commit], look)
  {
    forall i | 0 <= i < |rows|
      ensures rows[i].lastPassedAt == LastPass(walked + [commit], look, rows[i].testRecord)
    {
      LastPassOneMore(walked, look, rows[i].testRecord, commit);
    }
    assert (walked + [commit])[0] == if walked == [] then commit else walked[0];
  }

  // After k commits the walk may stop: the last of them has a proof run, and each automated record has passed by then.
  ghost predicate MayStop(automated: set<string>, history: seq<string>, look: Lookup, k: nat)
    requires k <= |history|
  {
    k > 0 && ProofAt(look, history[k - 1]).Some? && forall id | id in automated :: LastPass(history[..k], look, id) != ""
  }

  // The walk ends at the first commit where it may stop, or else with the history.
  ghost predicate StopsAt(automated: set<string>, history: seq<string>, look: Lookup, walked: nat) {
    && 0 < walked <= |history|
    && (walked < |history| ==> MayStop(automated, history, look, walked))
    && (forall k | 0 <= k < walked :: !MayStop(automated, history, look, k))
  }

  // The ledger of a commit: what the walk gives each row, and the proof run at the commit itself.
  ghost predicate LedgerOf(ledger: Ledger, tests: Tests, history: seq<string>, look: Lookup) {
    && StopsAt(AutomatedRecords(tests), history, look, ledger.walked)
    && ledger.proof == ProofAt(look, history[0])
    && (forall i, j | 0 <= i < j < |ledger.rows| :: Less(ledger.rows[i].testRecord, ledger.rows[j].testRecord))
    && (forall id :: id in tests <==> exists row :: row in ledger.rows && row.testRecord == id)
    && (forall row | row in ledger.rows ::
          && row.testRecord in tests && row.state == tests[row.testRecord]
          && row.result == (if ledger.proof.None? then NoResult else ResultIn(ledger.proof.value.outcomes, row.testRecord))
          && row.lastPassedAt == LastPass(history[..ledger.walked], look, row.testRecord))
  }

  // Where the walk stands after the commits walked.
  ghost predicate Standing(rows: seq<Row>, start: seq<Row>, index: map<string, nat>, waiting: set<string>,
          proof: Option<Verified>, walked: seq<string>, look: Lookup) {
    && |rows| == |start|
    && (forall i | 0 <= i < |start| :: rows[i].testRecord == start[i].testRecord && rows[i].state == start[i].state)
    && OneRowEach(rows) && IndexOf(index, rows)
    && Walked(rows, walked, look)
    && waiting == Waiting(rows)
    && proof == (if walked == [] then None else ProofAt(look, walked[0]))
    && (walked == [] ==> forall i | 0 <= i < |rows| :: rows[i].result == NoResult)
  }

  // Walks one more commit.
  method WalkCommit(rows: array<Row>, index: map<string, nat>, before: set<string>, had: Option<Verified>, at: string,
          verification: Verification, first: bool, ghost start: seq<Row>, ghost walked: seq<string>, ghost look: Lookup)
    returns (waiting: set<string>, proof: Option<Verified>)
    requires Decoded(look) && "" !in walked && at != ""
    requires look(at) == Some(verification) && first == (walked == [])
    requires Standing(rows[..], start, index, before, had, walked, look)
    modifies rows
    ensures Standing(rows[..], start, index, waiting, proof, walked + [at], look)
  {
    waiting, proof := before, had;
    ghost var was := rows[..];
    if verification.proof.Some? {
      if first { proof := verification.proof; }
      assert ProofAt(look, at).Some?;
      waiting := TakeOutcomes(rows, index, before, at, verification.proof.value.outcomes, first);
    }
    WalkedNext(was, rows[..], walked, at, look);
  }

  method BuildLedger(commit: string, depth: int, tests: Tests, log: Option<seq<string>>, look: Lookup, text: Text)
    returns (result: Result<Ledger, ()>)
    requires Decoded(look)
    requires log.Some? ==> "" !in log.value
    ensures result.Ok? ==>
      && FullCommit(commit) && depth >= 0 && log.Some? && log.value != [] && log.value[0] == commit
      && LedgerOf(result.value, tests, Take(log.value, depth), look) && Lists(result.value, Take(log.value, depth), look, text)
    ensures
      && FullCommit(commit) && depth >= 0 && log.Some? && log.value != [] && log.value[0] == commit
      && (forall c | c in log.value :: look(c).Some?)
      ==> result.Ok?
  {
    if !FullCommit(commit) || depth < 0 || log.None? { return Err(()); }
    var history := Take(log.value, depth);
    if history == [] || history[0] != commit { return Err(()); }
    assert forall c | c in history :: c in log.value;
    var rows, index := NewRows(tests);
    ghost var start := rows[..];
    StartWaiting(tests, start, AutomatedRecords(tests));
    var walk := Walk(rows, index, AutomatedRecords(tests), history, look, text);
    if walk.None? { return Err(()); }
    result := Ok(Ledger(rows[..], walk.value.proof, walk.value.walked, walk.value.refused, walk.value.changeGrade));
    RowsByRecord(start, rows[..], tests);
    Finished(rows[..], start, index, walk.value, tests, history, look);
  }

  // How far the walk went, the proof run at its first commit, the automated records still without a pass, and what was
  // listed on the way.
  datatype Walking = Walking(
    walked: nat, proof: Option<Verified>, waiting: set<string>, refused: seq<RefusedAt>, changeGrade: seq<ChangeGradeAt>)

  // The records that wait are the automated ones with no pass within the commits walked.
  lemma {:induction false} WaitingIs(start: seq<Row>, rows: seq<Row>, index: map<string, nat>, automated: set<string>,
          waiting: set<string>, proof: Option<Verified>, walked: seq<string>, look: Lookup)
    requires Standing(start, start, index, automated, None, [], look)
    requires Standing(rows, start, index, waiting, proof, walked, look)
    ensures waiting == set id | id in automated && LastPass(walked, look, id) == ""
    ensures waiting == {} ==> forall id | id in automated :: LastPass(walked, look, id) != ""
  {
    forall id
      ensures id in waiting <==> id in automated && LastPass(walked, look, id) == ""
    {
      if id in automated {
        var i :| 0 <= i < |start| && start[i].state == AUTOMATED && start[i].testRecord == id;
        assert rows[i].testRecord == id && rows[i].state == AUTOMATED;
      }
      if id in waiting {
        var i :| 0 <= i < |rows| && rows[i].state == AUTOMATED && rows[i].lastPassedAt == "" && rows[i].testRecord == id;
        assert start[i].testRecord == id && start[i].state == AUTOMATED && start[i].lastPassedAt == "";
      }
    }
  }

  lemma {:induction false} ListedNext(walked: seq<string>, at: string, look: Lookup, text: Text)
    requires look(at).Some?
    ensures RefusalsOf(walked + [at], look, text) == RefusalsOf(walked, look, text) + RefusalsAt(at, look(at).value, text)
    ensures ChangesOf(walked + [at], look) == ChangesOf(walked, look) + ChangesAt(at, look(at).value)
  {
    assert (walked + [at])[..|walked|] == walked;
  }

  // Walks the history until no automated record waits. It stops at a commit that the store cannot answer for.
  method Walk(rows: array<Row>, index: map<string, nat>, automated: set<string>, history: seq<string>, look: Lookup,
          text: Text)
    returns (walk: Option<Walking>)
    requires Decoded(look) && "" !in history && history != []
    requires Standing(rows[..], rows[..], index, automated, None, [], look)
    modifies rows
    ensures walk.Some? ==>
      && StopsAt(automated, history, look, walk.value.walked)
      && Standing(rows[..], old(rows[..]), index, walk.value.waiting, walk.value.proof, history[..walk.value.walked], look)
      && walk.value.refused == RefusalsOf(history[..walk.value.walked], look, text)
      && walk.value.changeGrade == ChangesOf(history[..walk.value.walked], look)
    ensures (forall c | c in history :: look(c).Some?) ==> walk.Some?
  {
    var waiting, proof, walked := automated, None, 0;
    var refused, changeGrade := [], [];
    ghost var done: seq<string> := [];
    while walked < |history|
      invariant walked <= |history| && done == history[..walked]
      invariant Standing(rows[..], old(rows[..]), index, waiting, proof, done, look)
      invariant refused == RefusalsOf(done, look, text) && changeGrade == ChangesOf(done, look)
      invariant forall k | 0 <= k <= walked :: !MayStop(automated, history, look, k)
    {
      var at := history[walked];
      var verification := look(at);
      if verification.None? { return None; }
      var reasons, changes := ListRefused(at, verification.value, text);
      refused, changeGrade := refused + reasons, changeGrade + changes;
      ListedNext(done, at, look, text);
      waiting, proof := WalkCommit(rows, index, waiting, proof, at, verification.value, walked == 0, old(rows[..]), done, look);
      walked, done := walked + 1, done + [at];
      assert done == history[..walked];
      WaitingIs(old(rows[..]), rows[..], index, automated, waiting, proof, done, look);
      if verification.value.proof.Some? && waiting == {} {
        assert MayStop(automated, history, look, walked);
        break;
      }
    }
    walk := Some(Walking(walked, proof, waiting, refused, changeGrade));
  }

  lemma {:induction false} Finished(rows: seq<Row>, start: seq<Row>, index: map<string, nat>, walk: Walking,
          tests: Tests, history: seq<string>, look: Lookup)
    requires StopsAt(AutomatedRecords(tests), history, look, walk.walked)
    requires Standing(rows, start, index, walk.waiting, walk.proof, history[..walk.walked], look)
    requires forall i, j | 0 <= i < j < |start| :: Less(start[i].testRecord, start[j].testRecord)
    requires forall id :: id in tests <==> exists row :: row in rows && row.testRecord == id
    requires forall row | row in rows :: row.testRecord in tests && row.state == tests[row.testRecord]
    ensures LedgerOf(Ledger(rows, walk.proof, walk.walked, walk.refused, walk.changeGrade), tests, history, look)
  {
  }

  function Take(log: seq<string>, depth: nat): seq<string> {
    var most := if depth == 0 then DEFAULT_DEPTH else depth;
    if |log| <= most then log else log[..most]
  }

  lemma {:induction false} StartWaiting(tests: Tests, rows: seq<Row>, waiting: set<string>)
    requires waiting == AutomatedRecords(tests) && StartRows(rows, tests)
    ensures waiting == Waiting(rows)
  {
  }

  lemma {:induction false} RowsByRecord(start: seq<Row>, rows: seq<Row>, tests: Tests)
    requires |rows| == |start|
    requires forall i | 0 <= i < |start| :: rows[i].testRecord == start[i].testRecord && rows[i].state == start[i].state
    requires StartRows(start, tests)
    ensures forall id :: id in tests <==> exists row :: row in rows && row.testRecord == id
    ensures forall row | row in rows :: row.testRecord in tests && row.state == tests[row.testRecord]
  {
    forall id
      ensures id in tests <==> exists row :: row in rows && row.testRecord == id
    {
      if id in tests {
        var i :| 0 <= i < |start| && start[i].testRecord == id;
        assert rows[i] in rows;
      }
    }
  }

  // ---- What stopping early does not lose ----

  // A row that shows a pass shows the record's last within the whole depth, and so does every row of a walk to the end.
  lemma {:induction false} ShownIsLast(ledger: Ledger, tests: Tests, history: seq<string>, look: Lookup, row: Row)
    requires LedgerOf(ledger, tests, history, look)
    requires row in ledger.rows && (row.lastPassedAt != "" || ledger.walked == |history|)
    ensures row.lastPassedAt == LastPass(history, look, row.testRecord)
  {
    assert history[..ledger.walked] + history[ledger.walked..] == history;
    if row.lastPassedAt != "" {
      LastPassStays(history[..ledger.walked], history[ledger.walked..], look, row.testRecord);
    } else {
      assert history[..ledger.walked] == history;
    }
  }

  // A row shows the record's last pass within the whole depth exactly when it shows one, or when no commit past the
  // walk passed the record.
  lemma {:induction false} LastPassExactly(ledger: Ledger, tests: Tests, history: seq<string>, look: Lookup, row: Row)
    requires LedgerOf(ledger, tests, history, look) && "" !in history
    requires row in ledger.rows
    ensures row.lastPassedAt == LastPass(history, look, row.testRecord) <==>
      row.lastPassedAt != "" || LastPass(history[ledger.walked..], look, row.testRecord) == ""
  {
    if row.lastPassedAt != "" {
      ShownIsLast(ledger, tests, history, look, row);
    } else {
      assert history[..ledger.walked] + history[ledger.walked..] == history;
      assert row.lastPassedAt == LastPass(history[..ledger.walked], look, row.testRecord);
      LastPassOfTheRest(history[..ledger.walked], history[ledger.walked..], look, row.testRecord);
    }
  }

  // Where the walk found no pass, the last pass is that of the rest.
  lemma {:induction false} LastPassOfTheRest(walked: seq<string>, rest: seq<string>, look: Lookup, id: string)
    requires LastPass(walked, look, id) == "" && "" !in walked
    ensures LastPass(walked + rest, look, id) == LastPass(rest, look, id)
    decreases |walked|
  {
    if walked == [] {
      assert walked + rest == rest;
    } else {
      assert walked[0] in walked;
      LastPassOfTheRest(walked[1..], rest, look, id);
      assert (walked + rest)[1..] == walked[1..] + rest;
    }
  }

  // Each automated record's last pass is the newest commit within the depth whose verified proof run passed it.
  lemma {:induction false} StoppingEarlyLosesNothing(ledger: Ledger, tests: Tests, history: seq<string>, look: Lookup,
          row: Row)
    requires LedgerOf(ledger, tests, history, look)
    requires row in ledger.rows && row.state == AUTOMATED
    ensures row.lastPassedAt == LastPass(history, look, row.testRecord)
  {
    assert row.testRecord in AutomatedRecords(tests);
    ShownIsLast(ledger, tests, history, look, row);
  }

  const ROW: Row -> string := (row: Row) => row.testRecord

  lemma {:induction false} OneStop(automated: set<string>, history: seq<string>, look: Lookup, a: nat, b: nat)
    requires StopsAt(automated, history, look, a) && StopsAt(automated, history, look, b)
    ensures a == b
  {
  }

  lemma {:induction false} RowIsIn(a: Ledger, b: Ledger, tests: Tests, history: seq<string>, look: Lookup, row: Row)
    requires LedgerOf(a, tests, history, look) && LedgerOf(b, tests, history, look)
    requires a.walked == b.walked && row in a.rows
    ensures row in b.rows
  {
    var other :| other in b.rows && other.testRecord == row.testRecord;
  }

  lemma {:induction false} SameRows(a: seq<Row>, b: seq<Row>)
    requires forall i, j | 0 <= i < j < |a| :: Less(a[i].testRecord, a[j].testRecord)
    requires forall i, j | 0 <= i < j < |b| :: Less(b[i].testRecord, b[j].testRecord)
    requires forall row :: row in a <==> row in b
    ensures a == b
  {
    ByKeyIsStrictWeak(ROW);
    IncreasingIsUnique(ByKey(ROW), a, b);
  }

  // The ledger of a commit is the only one: where the walk stops, and each row, follow from the history.
  lemma {:induction false} OneLedger(a: Ledger, b: Ledger, tests: Tests, history: seq<string>, look: Lookup, text: Text)
    requires LedgerOf(a, tests, history, look) && LedgerOf(b, tests, history, look)
    requires Lists(a, history, look, text) && Lists(b, history, look, text)
    ensures a == b
  {
    OneStop(AutomatedRecords(tests), history, look, a.walked, b.walked);
    forall row
      ensures row in a.rows <==> row in b.rows
    {
      if row in a.rows { RowIsIn(a, b, tests, history, look, row); }
      if row in b.rows { RowIsIn(b, a, tests, history, look, row); }
    }
    SameRows(a.rows, b.rows);
  }

  function Found(outcomes: seq<Outcome>): Option<Verification> {
    Some(Verification(Some(Verified(outcomes, Signer("", ""), 0, ReleaseGrade)), [], false, []))
  }

  // Two commits, each with a verified proof run of one record that passed.
  function TwoRuns(newer: string, older: string, automated: string, other: string): Lookup {
    commit =>
      if commit == newer then Found([Outcome(automated, Passed, "", 0.0, false, "")])
      else if commit == older then Found([Outcome(other, Passed, "", 0.0, false, "")])
      else Some(Verification(None, [], false, []))
  }

  lemma {:induction false} TwoRunsPass(newer: string, older: string, automated: string, other: string)
    requires newer != "" && older != "" && newer != older && automated != other
    ensures
      var look := TwoRuns(newer, older, automated, other);
      && Decoded(look)
      && PassedAt(look, newer, automated) && !PassedAt(look, newer, other) && PassedAt(look, older, other)
      && LastPass([newer], look, automated) == newer && LastPass([newer], look, other) == ""
      && LastPass([newer, older], look, other) == older
  {
    var look := TwoRuns(newer, older, automated, other);
    assert [newer][1..] == [] && [newer, older][1..] == [older];
    assert LastPass([], look, other) == "";
    assert LastPass([older], look, other) == older;
  }

  // A record in another state can lose its last pass to the early stop: the newest commit has a proof run that passes
  // the one automated record, so the walk stops there, and the other record passed only at the commit before.
  lemma {:induction false} AnotherStateCanLoseItsPass(newer: string, older: string, automated: string, other: string,
          state: string)
    requires FullCommit(newer) && FullCommit(older) && newer != older
    requires automated != other && state != AUTOMATED
    ensures exists ledger, tests, look, row ::
      && Decoded(look) && LedgerOf(ledger, tests, [newer, older], look)
      && row in ledger.rows && row.testRecord == other && row.state == state
      && row.lastPassedAt == "" && LastPass([newer, older], look, other) == older
  {
    var look := TwoRuns(newer, older, automated, other);
    TwoRunsPass(newer, older, automated, other);
    var tests: Tests := map[automated := AUTOMATED, other := state];
    var row := Row(other, state, NoResult, "");
    var ledger := TwoRows(newer, older, tests, look, Row(automated, AUTOMATED, Passed, newer), row);
    assert LedgerOf(ledger, tests, [newer, older], look) && row in ledger.rows;
  }

  lemma {:induction false} TwoRows(newer: string, older: string, tests: Tests, look: Lookup, first: Row, row: Row)
    returns (ledger: Ledger)
    requires first.testRecord != row.testRecord && row.state != AUTOMATED && first.state == AUTOMATED
    requires tests == map[first.testRecord := first.state, row.testRecord := row.state]
    requires ProofAt(look, newer).Some? && first.lastPassedAt == LastPass([newer], look, first.testRecord) == newer != ""
    requires row.lastPassedAt == LastPass([newer], look, row.testRecord)
    requires first.result == ResultIn(ProofAt(look, newer).value.outcomes, first.testRecord)
    requires row.result == ResultIn(ProofAt(look, newer).value.outcomes, row.testRecord)
    ensures LedgerOf(ledger, tests, [newer, older], look) && row in ledger.rows
  {
    var rows := if Less(first.testRecord, row.testRecord) then [first, row] else [row, first];
    ledger := Ledger(rows, ProofAt(look, newer), 1, [], []);
    LessTotal(first.testRecord, row.testRecord);
    assert AutomatedRecords(tests) == {first.testRecord};
    StopsAtOnce({first.testRecord}, newer, older, look);
    assert [newer, older][..1] == [newer];
    assert row in rows && first in rows;
  }

  lemma {:induction false} StopsAtOnce(automated: set<string>, newer: string, older: string, look: Lookup)
    requires ProofAt(look, newer).Some? && forall id | id in automated :: LastPass([newer], look, id) != ""
    ensures StopsAt(automated, [newer, older], look, 1)
  {
    assert [newer, older][..1] == [newer];
    assert MayStop(automated, [newer, older], look, 1);
  }

  // ---- The query, and the release gate ----

  function NotPassed(rows: seq<Row>): seq<Row> {
    if rows == [] then []
    else
      var last := rows[|rows| - 1];
      NotPassed(rows[..|rows| - 1]) + if last.state != AUTOMATED || last.result != Passed then [last] else []
  }

  // Lists the rows to look at, as the ledger has them: automated records without a pass, and all in another state.
  method NotPassedAt(ledger: Ledger) returns (rows: seq<Row>)
    ensures rows == NotPassed(ledger.rows)
    ensures forall row :: row in rows <==> row in ledger.rows && (row.state != AUTOMATED || row.result != Passed)
  {
    rows := [];
    for i := 0 to |ledger.rows|
      invariant rows == NotPassed(ledger.rows[..i])
      invariant forall row :: row in rows <==> row in ledger.rows[..i] && (row.state != AUTOMATED || row.result != Passed)
    {
      assert ledger.rows[..i + 1] == ledger.rows[..i] + [ledger.rows[i]];
      assert ledger.rows[..i + 1][..i] == ledger.rows[..i];
      if ledger.rows[i].state != AUTOMATED || ledger.rows[i].result != Passed {
        rows := rows + [ledger.rows[i]];
      }
    }
    assert ledger.rows[..|ledger.rows|] == ledger.rows;
  }

  // The judgement of the release gate: no reason for any automated record.
  ghost predicate GivesNoReason(proof: Option<Verified>, tests: Tests) {
    proof.Some? && forall id | id in AutomatedRecords(tests) :: PassedIn(proof.value.outcomes, id)
  }

  // The ledger has a proof and no automated row that did not pass, exactly when the release gate's judgement of the
  // commit gives no reason.
  lemma {:induction false} LedgerAgreesWithTheReleaseGate(ledger: Ledger, tests: Tests, history: seq<string>,
          look: Lookup)
    requires LedgerOf(ledger, tests, history, look)
    ensures
      (ledger.proof.Some? && forall row | row in ledger.rows && row.state == AUTOMATED :: row.result == Passed)
      <==>
      GivesNoReason(ProofAt(look, history[0]), tests)
  {
    if ledger.proof.Some? && forall row | row in ledger.rows && row.state == AUTOMATED :: row.result == Passed {
      forall id | id in AutomatedRecords(tests)
        ensures PassedIn(ledger.proof.value.outcomes, id)
      {
        var row :| row in ledger.rows && row.testRecord == id;
      }
    }
    if GivesNoReason(ProofAt(look, history[0]), tests) {
      forall row | row in ledger.rows && row.state == AUTOMATED
        ensures row.result == Passed
      {
        assert row.testRecord in AutomatedRecords(tests);
      }
    }
  }
}
