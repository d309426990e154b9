// internal/assure/gate.go, internal/assure/release.go and the rules of internal/assure/decision.go: the decision of
// a gate, built from its causes and checked by its own rules.
module Gate {
  import opened Coverage
  import opened Decision
  import opened Order
  import opened ProofRun
  import opened Ratchet
  import opened Reasons
  import opened Verify
  import opened Wrappers

  datatype GateKind = ChangeGate | ReleaseGate

  // What a provider's attestation action is to attest.
  datatype Attestation = Attestation(predicateType: string, subject: string, signer: Signer, logEntry: string)

  datatype GateDecision = GateDecision(
    commit: string, kind: GateKind, baseCommit: string, coverage: Coverage, baseCoverage: Option<Coverage>,
    passed: bool, reasons: seq<string>, retirements: seq<string>, attestation: Option<Attestation>)

  // ---- The three rules of a decision ----

  predicate NamesBothCommits(d: GateDecision) {
    && FullCommit(d.commit)
    && match d.kind
       case ChangeGate => FullCommit(d.baseCommit) && d.baseCoverage.Some?
       case ReleaseGate => d.baseCommit == "" && d.baseCoverage.None?
  }

  method NamesEveryCause(d: GateDecision, causes: seq<string>) returns (ok: bool)
    ensures ok <==> d.passed == (d.reasons == []) && forall cause | cause in causes :: cause in d.reasons
  {
    if d.passed != (|d.reasons| == 0) { return false; }
    var named: set<string> := {};
    for i := 0 to |d.reasons|
      invariant forall reason :: reason in named <==> reason in d.reasons[..i]
    {
      assert d.reasons[..i + 1] == d.reasons[..i] + [d.reasons[i]];
      named := named + {d.reasons[i]};
    }
    assert d.reasons[..|d.reasons|] == d.reasons;
    var missing: seq<string> := [];
    for i := 0 to |causes|
      invariant missing == [] <==> forall cause | cause in causes[..i] :: cause in d.reasons
    {
      assert causes[..i + 1] == causes[..i] + [causes[i]];
      if causes[i] !in named { missing := missing + [causes[i]]; }
    }
    assert causes[..|causes|] == causes;
    ok := |missing| == 0;
  }

  // Each reason comes before the next. The order is total, so each comes before all that follow it.
  method InFixedOrder(reasons: seq<string>, before: (string, string) -> bool) returns (ok: bool)
    requires StrictTotal(before)
    ensures ok <==> Increasing(before, reasons)
  {
    var i := 1;
    while i < |reasons|
      invariant i >= 1 && (|reasons| > 0 ==> i <= |reasons|)
      invariant |reasons| > 0 ==> Increasing(before, reasons[..i])
    {
      if !before(reasons[i - 1], reasons[i]) { return false; }
      NextInOrder(before, reasons, i);
      i := i + 1;
    }
    assert |reasons| > 0 ==> reasons[..i] == reasons;
    ok := true;
  }

  lemma {:induction false} NextInOrder(before: (string, string) -> bool, reasons: seq<string>, i: nat)
    requires StrictTotal(before) && 0 < i < |reasons|
    requires Increasing(before, reasons[..i]) && before(reasons[i - 1], reasons[i])
    ensures Increasing(before, reasons[..i + 1])
  {
    forall k | 0 <= k < i
      ensures before(reasons[k], reasons[i])
    {
      assert k == i - 1 || before(reasons[..i][k], reasons[..i][i - 1]);
    }
    forall k, j | 0 <= k < j < i
      ensures before(reasons[k], reasons[j])
    {
      assert before(reasons[..i][k], reasons[..i][j]);
    }
  }

  // The checks at the end of a gate: no error when every rule holds.
  method CheckRules(d: GateDecision, causes: seq<string>) returns (ok: bool)
    ensures ok <==>
      && NamesBothCommits(d)
      && d.passed == (d.reasons == [])
      && (forall cause | cause in causes :: cause in d.reasons)
      && Increasing(BEFORE, d.reasons)
  {
    FixedOrderIsTotal();
    var every := NamesEveryCause(d, causes);
    var order := InFixedOrder(d.reasons, BEFORE);
    ok := NamesBothCommits(d) && every && order;
  }

  // ---- Gate a change ----

  // The base head has a fault of the same rule and key.
  predicate AtBase(fault: CodeFault, baseFaults: seq<CodeFault>) {
    exists b | b in baseFaults :: b.rule == fault.rule && b.key == fault.key
  }

  method NewFaults(faults: seq<CodeFault>, baseFaults: seq<CodeFault>) returns (causes: seq<string>)
    ensures forall cause :: cause in causes <==>
      exists f :: f in faults && !AtBase(f, baseFaults) && cause == CodeFaultReason(f)
    ensures causes == [] <==> forall f | f in faults :: AtBase(f, baseFaults)
  {
    var atBase: set<(string, string)> := {};
    for i := 0 to |baseFaults|
      invariant forall rule, key :: (rule, key) in atBase <==> exists b :: b in baseFaults[..i] && b.rule == rule && b.key == key
    {
      assert baseFaults[..i + 1] == baseFaults[..i] + [baseFaults[i]];
      atBase := atBase + {(baseFaults[i].rule, baseFaults[i].key)};
    }
    assert baseFaults[..|baseFaults|] == baseFaults;
    causes := [];
    for i := 0 to |faults|
      invariant forall cause :: cause in causes <==>
        exists f :: f in faults[..i] && !AtBase(f, baseFaults) && cause == CodeFaultReason(f)
    {
      assert faults[..i + 1] == faults[..i] + [faults[i]];
      if (faults[i].rule, faults[i].key) !in atBase {
        causes := causes + [CodeFaultReason(faults[i])];
      }
    }
    assert faults[..|faults|] == faults;
    assert causes != [] ==> causes[0] in causes;
    forall f | f in faults && !AtBase(f, baseFaults)
      ensures CodeFaultReason(f) in causes
    {
    }
  }

  ghost predicate AllPassed(proof: Option<Verified>, automated: set<string>) {
    proof.Some? && forall id | id in automated :: PassedIn(proof.value.outcomes, id)
  }

  // A reason of the proof run: there is none, or an automated record did not pass in it.
  ghost predicate ProofCause(proof: Option<Verified>, automated: set<string>, why: string, reason: string) {
    match proof
    case None => reason == why
    case Some(p) => exists id :: id in automated && !PassedIn(p.outcomes, id) && reason == WhyNot(OutcomeFor(p.outcomes, id), id)
  }

  ghost predicate NewFaultCause(faults: seq<CodeFault>, baseFaults: seq<CodeFault>, reason: string) {
    exists f :: f in faults && !AtBase(f, baseFaults) && reason == CodeFaultReason(f)
  }

  // The workflow files are a reason only where a proof run was refused for them and none was taken.
  ghost predicate WorkflowCause(verification: Verification, changed: seq<string>, reason: string) {
    verification.proof.None? && verification.workflowsChanged && exists file :: file in changed && reason == WorkflowReason(file)
  }

  method JudgeProof(proof: Option<Verified>, automated: set<string>, why: string) returns (causes: seq<string>)
    ensures forall reason :: reason in causes <==> ProofCause(proof, automated, why, reason)
    ensures causes == [] <==> AllPassed(proof, automated)
    ensures causes == if proof.None? then [why] else ReasonsFor(proof.value.outcomes, KeysInOrder(automated))
  {
    var outcomes := if proof.Some? then Some(proof.value.outcomes) else None;
    causes := ProofRunPassed(outcomes, automated, why);
  }

  method WorkflowCauses(verification: Verification, changed: seq<string>) returns (causes: seq<string>)
    ensures forall reason :: reason in causes <==> WorkflowCause(verification, changed, reason)
    ensures verification.proof.Some? ==> causes == []
  {
    causes := [];
    if verification.proof.None? && verification.workflowsChanged {
      for i := 0 to |changed|
        invariant forall reason :: reason in causes <==> exists file :: file in changed[..i] && reason == WorkflowReason(file)
      {
        assert changed[..i + 1] == changed[..i] + [changed[i]];
        causes := causes + [WorkflowReason(changed[i])];
      }
      assert changed[..|changed|] == changed;
    }
  }

  // The decision is made whenever both commits are full commits: its own rules never refuse it. It passes exactly
  // when no obligation falls, every automated test record passed in a verified proof run, and the change brings no
  // code-standard fault of its own. Its reasons are exactly those causes, each once, in the fixed order.
  method GateChange(commit: string, baseCommit: string, base: Measurement, change: Measurement,
          retirements: seq<Retirement>, verification: Verification, automated: set<string>, faults: seq<CodeFault>,
          baseFaults: seq<CodeFault>, changed: seq<string>, why: string)
    returns (result: Result<GateDecision, ()>)
    ensures result.Ok? <==> FullCommit(commit) && FullCommit(baseCommit)
    ensures result.Ok? ==>
      (result.value.passed <==>
         && Holds(base.obligations, change.obligations, retirements)
         && AllPassed(verification.proof, automated)
         && forall f | f in faults :: AtBase(f, baseFaults))
    ensures result.Ok? ==>
      && Increasing(BEFORE, result.value.reasons)
      && forall reason :: reason in result.value.reasons <==>
           || Cause(base.obligations, change.obligations, retirements, reason)
           || ProofCause(verification.proof, automated, why, reason)
           || NewFaultCause(faults, baseFaults, reason)
           || WorkflowCause(verification, changed, reason)
    ensures result.Ok? ==> forall line :: line in result.value.retirements <==>
      Reported(base.obligations, change.obligations, retirements, line)
  {
    if !FullCommit(commit) || !FullCommit(baseCommit) { return Err(()); }
    var causes, retired;
    ghost var origins, orders;
    causes, retired, origins, orders := HoldsRatchet(base.obligations, change.obligations, retirements);
    var proof := JudgeProof(verification.proof, automated, why);
    var brought := NewFaults(faults, baseFaults);
    var workflows := WorkflowCauses(verification, changed);
    causes := causes + proof + brought + workflows;
    var reasons := SortReasons(causes);
    NoneFromNone(reasons, causes);
    var d := GateDecision(commit, ChangeGate, baseCommit, change.coverage, Some(base.coverage), |reasons| == 0, reasons, retired, None);
    var ok := CheckRules(d, causes);
    if !ok { return Err(()); }
    result := Ok(d);
  }

  lemma {:induction false} NoneFromNone(reasons: seq<string>, causes: seq<string>)
    requires forall reason :: reason in reasons <==> reason in causes
    ensures reasons == [] <==> causes == []
  {
    assert reasons != [] ==> reasons[0] in reasons;
    assert causes != [] ==> causes[0] in causes;
  }

  // The same causes, in any order and any number of times, give the same reasons.
  lemma {:induction false} SameCausesSameReasons(reasons: seq<string>, others: seq<string>)
    requires Increasing(BEFORE, reasons) && Increasing(BEFORE, others)
    requires forall reason :: reason in reasons <==> reason in others
    ensures reasons == others
  {
    FixedOrderIsTotal();
    IncreasingIsUnique(BEFORE, reasons, others);
  }

  // ---- Gate a release ----

  ghost predicate FullyStanding(obligations: Obligations) {
    obligations != map[] && forall id, share | id in obligations :: obligations[id].Has(share)
  }

  // The reasons of one obligation for these shares, in their order.
  function MissingShares(standing: Standing, id: string, shares: seq<Share>): seq<string> {
    if shares == [] then []
    else
      var share := shares[|shares| - 1];
      MissingShares(standing, id, shares[..|shares| - 1]) + if standing.Has(share) then [] else [NotReason(id, share)]
  }

  // The reasons of these obligations, in their order.
  function LackingIn(obligations: Obligations, ids: seq<string>): seq<string> {
    if ids == [] then []
    else
      var id := ids[|ids| - 1];
      LackingIn(obligations, ids[..|ids| - 1]) + MissingShares(StandingOf(obligations, id), id, SHARES)
  }

  lemma {:induction false} MissingSharesEach(standing: Standing, id: string, shares: seq<Share>)
    ensures forall reason :: reason in MissingShares(standing, id, shares) <==>
      exists share :: share in shares && !standing.Has(share) && reason == NotReason(id, share)
  {
    if shares != [] {
      assert shares == shares[..|shares| - 1] + [shares[|shares| - 1]];
      MissingSharesEach(standing, id, shares[..|shares| - 1]);
    }
  }

  ghost predicate LackAmong(obligations: Obligations, ids: seq<string>, reason: string) {
    exists id, share: Share :: id in ids && !StandingOf(obligations, id).Has(share) && reason == NotReason(id, share)
  }

  lemma {:induction false} LackingInEach(obligations: Obligations, ids: seq<string>)
    ensures forall reason :: reason in LackingIn(obligations, ids) <==> LackAmong(obligations, ids, reason)
  {
    if ids != [] {
      var id := ids[|ids| - 1];
      assert ids == ids[..|ids| - 1] + [id];
      LackingInEach(obligations, ids[..|ids| - 1]);
      MissingSharesEach(StandingOf(obligations, id), id, SHARES);
      forall share: Share {
        EveryShareIsListed(share);
      }
    }
  }

  // The reasons for the shares that obligations lack, by obligation ID and then in the order of the shares.
  method LackingOf(obligations: Obligations) returns (reasons: seq<string>)
    ensures reasons == LackingIn(obligations, KeysInOrder(obligations.Keys))
    ensures forall reason :: reason in reasons <==>
      exists id, share :: id in obligations && !obligations[id].Has(share) && reason == NotReason(id, share)
  {
    reasons := [];
    var ids := SortedKeys(obligations.Keys);
    for i := 0 to |ids|
      invariant reasons == LackingIn(obligations, ids[..i])
    {
      var id := ids[i];
      assert id in ids;
      assert ids[..i + 1][..i] == ids[..i];
      var lacking := LackingOne(obligations[id], id);
      reasons := reasons + lacking;
    }
    assert ids[..|ids|] == ids;
    LackingInEach(obligations, ids);
  }

  method LackingOne(standing: Standing, id: string) returns (reasons: seq<string>)
    ensures reasons == MissingShares(standing, id, SHARES)
  {
    reasons := [];
    for k := 0 to |SHARES|
      invariant reasons == MissingShares(standing, id, SHARES[..k])
    {
      assert SHARES[..k + 1][..k] == SHARES[..k];
      if !standing.Has(SHARES[k]) {
        reasons := reasons + [NotReason(id, SHARES[k])];
      }
    }
    assert SHARES[..|SHARES|] == SHARES;
  }

  function NoObligationReason(commit: string): string {
    NO_OBLIGATION + commit + ": a release needs at least one obligation"
  }

  // A reason not to release: nothing to release, a share that an obligation lacks, or the proof run.
  ghost predicate ReleaseCause(obligations: Obligations, proof: Option<Verified>, automated: set<string>,
          commit: string, why: string, reason: string) {
    || (obligations == map[] && reason == NoObligationReason(commit))
    || (exists id, share :: id in obligations && !obligations[id].Has(share) && reason == NotReason(id, share))
    || ProofCause(proof, automated, why, reason)
  }

  // What a release lacks: any obligation at all, a share of one, or a pass of the proof run. The reasons come by
  // obligation and share, and then by test record.
  method FullyProved(measurement: Measurement, proof: Option<Verified>, automated: set<string>, commit: string,
          why: string)
    returns (reasons: seq<string>)
    ensures forall reason :: reason in reasons <==> ReleaseCause(measurement.obligations, proof, automated, commit, why, reason)
    ensures reasons ==
      (if measurement.obligations == map[] then [NoObligationReason(commit)] else []) +
      LackingIn(measurement.obligations, KeysInOrder(measurement.obligations.Keys)) +
      (if proof.None? then [why] else ReasonsFor(proof.value.outcomes, KeysInOrder(automated)))
    ensures reasons == [] <==> FullyStanding(measurement.obligations) && AllPassed(proof, automated)
  {
    reasons := [];
    if |measurement.obligations| == 0 {
      reasons := [NoObligationReason(commit)];
    }
    var lacking := LackingOf(measurement.obligations);
    assert lacking != [] ==> lacking[0] in lacking;
    assert lacking == [] ==> forall id, share | id in measurement.obligations :: measurement.obligations[id].Has(share) by {
      forall id, share | id in measurement.obligations && !measurement.obligations[id].Has(share)
        ensures NotReason(id, share) in lacking
      {
      }
    }
    var judged := JudgeProof(proof, automated, why);
    reasons := reasons + lacking + judged;
  }

  // ---- The attestation of a release decision ----

  const RELEASE_DECISION_TYPE := "https://github.com/jsell-rh/stego/assure/release-decision/v1"

  function NewAttestation(predicateType: string, subject: string, signer: Signer,
          logEntry: string): Option<Attestation> {
    if !FullCommit(subject) || predicateType == "" || signer.issuer == "" || signer.subject == "" then None
    else Some(Attestation(predicateType, subject, signer, logEntry))
  }

  // A passed release decision names its attestation, by the trusted signer at main, and no other decision names one.
  predicate ReleaseAttested(d: GateDecision, trusted: TrustedSigner) {
    if d.kind != ReleaseGate || !d.passed then d.attestation.None?
    else
      && d.attestation.Some?
      && d.attestation.value.subject == d.commit
      && d.attestation.value.predicateType == RELEASE_DECISION_TYPE
      && trusted.Grade(d.attestation.value.signer, "") == ReleaseGrade
  }

  // The job signs as the trusted workflow at main.
  predicate SignsAtMain(trusted: TrustedSigner, signer: Signer) {
    trusted.issuer != "" && trusted.workflow != "" && signer == Signer(trusted.issuer, trusted.workflow + "@" + MAIN_REF)
  }

  // The release is fully proved, and its tree has no code-standard fault.
  ghost predicate ReleasePasses(obligations: Obligations, proof: Option<Verified>, automated: set<string>,
          faults: seq<CodeFault>) {
    FullyStanding(obligations) && AllPassed(proof, automated) && faults == []
  }

  // A decision is made whenever the commit is a full commit, except that one which passes is made only where the job
  // signs as the trusted workflow at main: it names that attestation, and a refused one names none.
  method GateRelease(commit: string, measurement: Measurement, proof: Option<Verified>, automated: set<string>,
          faults: seq<CodeFault>, why: string, trusted: TrustedSigner, signer: Signer)
    returns (result: Result<GateDecision, ()>)
    ensures result.Ok? <==>
      FullCommit(commit) && (ReleasePasses(measurement.obligations, proof, automated, faults) ==> SignsAtMain(trusted, signer))
    ensures result.Ok? ==>
      && (result.value.passed <==> ReleasePasses(measurement.obligations, proof, automated, faults))
      && result.value.attestation ==
           if result.value.passed then Some(Attestation(RELEASE_DECISION_TYPE, commit, signer, "")) else None
    ensures result.Ok? ==>
      && Increasing(BEFORE, result.value.reasons)
      && forall reason :: reason in result.value.reasons <==>
           ReleaseCause(measurement.obligations, proof, automated, commit, why, reason) || NewFaultCause(faults, [], reason)
  {
    if !FullCommit(commit) { return Err(()); }
    var causes := ReleaseCauses(measurement, proof, automated, faults, commit, why);
    var reasons := SortReasons(causes);
    NoneFromNone(reasons, causes);
    GradeIsRelease(trusted, signer, "");
    var d := GateDecision(commit, ReleaseGate, "", measurement.coverage, None, |reasons| == 0, reasons, [], None);
    if d.passed {
      var attestation := NewAttestation(RELEASE_DECISION_TYPE, commit, signer, "");
      if attestation.None? { return Err(()); }
      d := d.(attestation := attestation);
    }
    var ok := CheckRules(d, causes);
    if !ok || !ReleaseAttested(d, trusted) { return Err(()); }
    result := Ok(d);
  }

  method ReleaseCauses(measurement: Measurement, proof: Option<Verified>, automated: set<string>,
          faults: seq<CodeFault>, commit: string, why: string)
    returns (causes: seq<string>)
    ensures causes == [] <==> ReleasePasses(measurement.obligations, proof, automated, faults)
    ensures forall reason :: reason in causes <==>
      ReleaseCause(measurement.obligations, proof, automated, commit, why, reason) || NewFaultCause(faults, [], reason)
  {
    causes := FullyProved(measurement, proof, automated, commit, why);
    var found := NewFaults(faults, []);
    assert found == [] <==> faults == [] by {
      assert faults != [] ==> faults[0] in faults;
    }
    causes := causes + found;
  }
}
