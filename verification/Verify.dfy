// internal/assure/attestation.go and internal/assure/verify.go: which proof run of a commit a gate takes.
module Verify {
  import opened Order
  import opened ProofRun
  import opened Text
  import opened Wrappers

  datatype Signer = Signer(issuer: string, subject: string)

  datatype TrustGrade = NoGrade | ChangeGrade | ReleaseGrade

  const MAIN_REF := "refs/heads/main"
  const PROOF_RUN_TYPE := "https://github.com/jsell-rh/stego/assure/proof-run/v1"
  const PULL_REFS := "refs/pull/"
  const WORKFLOWS_IN := "/.github/workflows/"

  // Whom the gate trusts: an issuer, and a workflow by its full name.
  datatype TrustedSigner = TrustedSigner(issuer: string, workflow: string) {
    // What follows the at-sign after the trusted workflow in a certificate of the trusted issuer, unless that is empty.
    function Reference(signer: Signer): Option<string> {
      if issuer == "" || workflow == "" || signer.issuer != issuer then None
      else if !HasPrefix(signer.subject, workflow + "@") then None
      else
        var reference := signer.subject[|workflow| + 1..];
        if reference == "" then None else Some(reference)
    }

    function Grade(signer: Signer, changeRef: string): TrustGrade {
      match Reference(signer)
      case None => NoGrade
      case Some(reference) =>
        if reference == MAIN_REF then ReleaseGrade
        else if changeRef != "" && changeRef != MAIN_REF && reference == changeRef then ChangeGrade
        else NoGrade
    }
  }

  predicate FullCommit(text: string) {
    |text| == 40 && forall i | 0 <= i < |text| :: '0' <= text[i] <= '9' || 'a' <= text[i] <= 'f'
  }

  datatype Subject = Subject(name: string, digest: string)

  // A bundle once its signature holds: what it is about, who signed it and where. The commit and the run are decoded
  // from its predicate, each absent when that fails.
  datatype Statement = Statement(
    subjects: seq<Subject>, predicateType: string, commit: Option<string>, run: Option<seq<Outcome>>,
    signer: Signer, sourceRepository: string, sourceRef: string, sourceDigest: string, logIndex: int)

  // What a gate trusts a signature at, and the digest the store indexes a commit by.
  datatype Trust = Trust(signer: TrustedSigner, changeRef: string, workflowChanges: seq<string>, digest: string -> string)

  // Why a statement is refused; the reference is given when only that reference, not main, is what is wrong.
  datatype Refusal = Refusal(why: RefusedFor, signedAt: string)

  datatype RefusedFor =
    | NotAFullCommit
    | SubjectCount
    | OtherSubject
    | OtherPredicateType
    | OtherCommit
    | OtherSource
    | OtherDigest
    | WorkflowsDiffer
    | NotAtMain
    | NotTrusted

  // The grade of a statement, and the refusal when it fails.
  datatype Check = Check(grade: TrustGrade, refusal: Option<Refusal>)

  function Refuse(grade: TrustGrade, why: RefusedFor): Check {
    Check(grade, Some(Refusal(why, "")))
  }

  function AttestationVerified(s: Statement, commit: string, trust: Trust): Check {
    if !FullCommit(commit) then Refuse(NoGrade, NotAFullCommit)
    else if |s.subjects| != 1 then Refuse(NoGrade, SubjectCount)
    else if s.subjects[0].digest != trust.digest(commit) || !HasSuffix(s.subjects[0].name, "@" + commit) then
      Refuse(NoGrade, OtherSubject)
    else if s.predicateType != PROOF_RUN_TYPE then Refuse(NoGrade, OtherPredicateType)
    else if s.commit != Some(commit) then Refuse(NoGrade, OtherCommit)
    else
      var grade := trust.signer.Grade(s.signer, trust.changeRef);
      var repository := Cut(trust.signer.workflow, WORKFLOWS_IN).before;
      if grade != NoGrade && (s.sourceRepository != repository || s.sourceRef != Cut(s.signer.subject, "@").after) then
        Refuse(NoGrade, OtherSource)
      else
        match grade
        case ReleaseGrade => if s.sourceDigest != commit then Refuse(NoGrade, OtherDigest) else Check(ReleaseGrade, None)
        case ChangeGrade => if |trust.workflowChanges| > 0 then Refuse(ChangeGrade, WorkflowsDiffer) else Check(ChangeGrade, None)
        case NoGrade =>
          var reference := trust.signer.Reference(s.signer);
          if trust.changeRef != "" || reference.None? then Refuse(NoGrade, NotTrusted)
          else if s.sourceRepository != repository || s.sourceRef != reference.value then Refuse(NoGrade, OtherSource)
          else Check(NoGrade, Some(Refusal(NotAtMain, reference.value)))
  }

  // The outcomes of an accepted bundle, with what ranks it among others.
  datatype Verified = Verified(outcomes: seq<Outcome>, signer: Signer, logIndex: int, grade: TrustGrade)

  datatype ChangeGradeAttestation = ChangeGradeAttestation(ref: string, refused: Refused)

  datatype Refused =
    | SignatureFails(bundle: string)
    | StatementFails(logIndex: int, refusal: Refusal)
    | HoldsNoRun(logIndex: int)
    | BadAttestation(logIndex: int)

  datatype Verification = Verification(
    proof: Option<Verified>, refused: seq<Refused>, workflowsChanged: bool, changeGrade: seq<ChangeGradeAttestation>)

  // The bundle verifier: the statement a bundle signs, or nothing when any check of it fails.
  type Verifier = string -> Option<Statement>

  // What a bundle is accepted as: nothing unless every check passes.
  function Accept(bundle: string, verifier: Verifier, commit: string, trust: Trust): Option<Verified> {
    match verifier(bundle)
    case None => None
    case Some(s) =>
      var check := AttestationVerified(s, commit, trust);
      if check.refusal.Some? || s.run.None? || s.signer.issuer == "" || s.signer.subject == "" then None
      else Some(Verified(s.run.value, s.signer, s.logIndex, check.grade))
  }

  // Grade decides, and within a grade the later log entry.
  predicate Better(a: Verified, b: Verified) {
    if a.grade != b.grade then a.grade == ReleaseGrade else a.logIndex > b.logIndex
  }

  // Some bundle is accepted as the proof run.
  ghost predicate Accepted(bundles: seq<string>, verifier: Verifier, commit: string, trust: Trust, proof: Verified) {
    exists b :: b in bundles && Accept(b, verifier, commit, trust) == Some(proof)
  }

  // The choice: an accepted proof run that no accepted one is better than, and none only when none is accepted.
  ghost predicate Chosen(bundles: seq<string>, verifier: Verifier, commit: string, trust: Trust,
          proof: Option<Verified>) {
    && (proof.Some? ==> Accepted(bundles, verifier, commit, trust, proof.value))
    && (forall other :: Accepted(bundles, verifier, commit, trust, other) ==> proof.Some? && !Better(other, proof.value))
  }

  // Some bundle's statement is refused at change grade, for the workflow files alone.
  ghost predicate RefusedForWorkflows(bundles: seq<string>, verifier: Verifier, commit: string, trust: Trust) {
    exists b :: b in bundles && verifier(b).Some? &&
      AttestationVerified(verifier(b).value, commit, trust) == Refuse(ChangeGrade, WorkflowsDiffer)
  }

  // Only the change-grade path gives a grade with a refusal.
  lemma {:induction false} GradeWithRefusal(s: Statement, commit: string, trust: Trust)
    ensures
      var check := AttestationVerified(s, commit, trust);
      check.refusal.Some? && check.grade == ChangeGrade <==> check == Refuse(ChangeGrade, WorkflowsDiffer)
    ensures
      var check := AttestationVerified(s, commit, trust);
      check.refusal.None? ==> check.grade != NoGrade
  {
  }

  // Why a bundle is not accepted.
  function RefusalOf(bundle: string, verifier: Verifier, commit: string, trust: Trust): Option<Refused> {
    match verifier(bundle)
    case None => Some(SignatureFails(bundle))
    case Some(s) =>
      var check := AttestationVerified(s, commit, trust);
      if check.refusal.Some? then Some(StatementFails(s.logIndex, check.refusal.value))
      else if s.run.None? then Some(HoldsNoRun(s.logIndex))
      else if s.signer.issuer == "" || s.signer.subject == "" then Some(BadAttestation(s.logIndex))
      else None
  }

  // The attestation that counts in the gate of another change alone.
  function ElsewhereOf(bundle: string, verifier: Verifier, commit: string,
          trust: Trust): Option<ChangeGradeAttestation> {
    match RefusalOf(bundle, verifier, commit, trust)
    case Some(StatementFails(logIndex, refusal)) =>
      if HasPrefix(refusal.signedAt, PULL_REFS) then
        Some(ChangeGradeAttestation(refusal.signedAt, StatementFails(logIndex, refusal)))
      else None
    case _ => None
  }

  // What the bundles that have one give, in their order.
  function Given<T>(bundles: seq<string>, of: string -> Option<T>): seq<T> {
    if bundles == [] then []
    else
      var given := of(bundles[|bundles| - 1]);
      Given(bundles[..|bundles| - 1], of) + if given.Some? then [given.value] else []
  }

  function Refusals(verifier: Verifier, commit: string, trust: Trust): string -> Option<Refused> {
    bundle => RefusalOf(bundle, verifier, commit, trust)
  }

  function Elsewhere(verifier: Verifier, commit: string, trust: Trust): string -> Option<ChangeGradeAttestation> {
    bundle => ElsewhereOf(bundle, verifier, commit, trust)
  }

  // The reason of an attestation for another change.
  function ReasonIn(text: Refused -> string): ChangeGradeAttestation -> string {
    (c: ChangeGradeAttestation) => text(c.refused)
  }

  // Every refusal, and every attestation for another change, once for each bundle that gives it and in the order of
  // their texts.
  ghost predicate Listed(bundles: seq<string>, verifier: Verifier, commit: string, trust: Trust,
          text: Refused -> string, v: Verification) {
    && multiset(v.refused) == multiset(Given(bundles, Refusals(verifier, commit, trust)))
    && SortedBy(ByKey(text), v.refused)
    && multiset(v.changeGrade) == multiset(Given(bundles, Elsewhere(verifier, commit, trust)))
    && SortedBy(ByKey(ReasonIn(text)), v.changeGrade)
  }

  // What the loop over the bundles has so far.
  ghost predicate Sifted(bundles: seq<string>, verifier: Verifier, commit: string, trust: Trust,
          accepted: seq<Verified>, refused: seq<Refused>, changed: bool, changeGrade: seq<ChangeGradeAttestation>) {
    && (forall p :: p in accepted <==> Accepted(bundles, verifier, commit, trust, p))
    && refused == Given(bundles, Refusals(verifier, commit, trust))
    && changeGrade == Given(bundles, Elsewhere(verifier, commit, trust))
    && (changed <==> RefusedForWorkflows(bundles, verifier, commit, trust))
  }

  // Sifts the bundles into those that are accepted and those that are refused.
  method Sift(bundles: seq<string>, commit: string, verifier: Verifier, trust: Trust)
    returns (accepted: seq<Verified>, refused: seq<Refused>, changed: bool, changeGrade: seq<ChangeGradeAttestation>)
    ensures Sifted(bundles, verifier, commit, trust, accepted, refused, changed, changeGrade)
  {
    accepted, refused, changed, changeGrade := [], [], false, [];
    ghost var done: seq<string> := [];
    for i := 0 to |bundles|
      invariant done == bundles[..i]
      invariant Sifted(done, verifier, commit, trust, accepted, refused, changed, changeGrade)
    {
      var bundle := bundles[i];
      SiftedNext(done, bundle, verifier, commit, trust, accepted, refused, changed, changeGrade);
      done := done + [bundle];
      var signed := verifier(bundle);
      if signed.None? {
        refused := refused + [SignatureFails(bundle)];
        continue;
      }
      var s := signed.value;
      var check := AttestationVerified(s, commit, trust);
      if check.refusal.Some? {
        var reason := StatementFails(s.logIndex, check.refusal.value);
        refused := refused + [reason];
        changed := changed || check.grade == ChangeGrade;
        if HasPrefix(check.refusal.value.signedAt, PULL_REFS) {
          changeGrade := changeGrade + [ChangeGradeAttestation(check.refusal.value.signedAt, reason)];
        }
        continue;
      }
      if s.run.None? {
        refused := refused + [HoldsNoRun(s.logIndex)];
        continue;
      }
      if s.signer.issuer == "" || s.signer.subject == "" {
        refused := refused + [BadAttestation(s.logIndex)];
        continue;
      }
      accepted := accepted + [Verified(s.run.value, s.signer, s.logIndex, check.grade)];
    }
    assert done == bundles;
  }

  lemma {:induction false} SiftedNext(bundles: seq<string>, bundle: string, verifier: Verifier, commit: string,
          trust: Trust, accepted: seq<Verified>, refused: seq<Refused>, changed: bool,
          changeGrade: seq<ChangeGradeAttestation>)
    requires Sifted(bundles, verifier, commit, trust, accepted, refused, changed, changeGrade)
    ensures
      var proof, refusal, elsewhere := Accept(bundle, verifier, commit, trust), RefusalOf(bundle, verifier, commit, trust),
                                       ElsewhereOf(bundle, verifier, commit, trust);
      Sifted(bundles + [bundle], verifier, commit, trust,
             accepted + (if proof.Some? then [proof.value] else []),
             refused + (if refusal.Some? then [refusal.value] else []),
             changed || (verifier(bundle).Some? && AttestationVerified(verifier(bundle).value, commit, trust).grade == ChangeGrade
                         && AttestationVerified(verifier(bundle).value, commit, trust).refusal.Some?),
             changeGrade + (if elsewhere.Some? then [elsewhere.value] else []))
  {
    NextBundle(bundles, bundle, verifier, commit, trust);
    if verifier(bundle).Some? { GradeWithRefusal(verifier(bundle).value, commit, trust); }
    assert (bundles + [bundle])[..|bundles|] == bundles;
  }

  // The accepted proof run that no accepted one is better than.
  method Best(accepted: seq<Verified>) returns (best: Option<Verified>)
    requires forall p | p in accepted :: p.grade != NoGrade
    ensures best.Some? <==> accepted != []
    ensures best.Some? ==> best.value in accepted && forall p | p in accepted :: !Better(p, best.value)
  {
    best := None;
    for i := 0 to |accepted|
      invariant best.Some? <==> i > 0
      invariant best.Some? ==> best.value in accepted
      invariant best.Some? ==> forall k | 0 <= k < i :: !Better(accepted[k], best.value)
    {
      assert accepted[i] in accepted;
      if best.None? || Better(accepted[i], best.value) {
        best := Some(accepted[i]);
      }
    }
  }

  // The proof run taken for a commit, and why each other attestation was refused.
  method VerifyAttestation(commit: string, bundles: Option<seq<string>>, verifier: Verifier, trust: Trust,
          text: Refused -> string)
    returns (result: Result<Verification, ()>)
    ensures result.Ok? <==> FullCommit(commit) && bundles.Some?
    ensures result.Ok? ==>
      && Chosen(bundles.value, verifier, commit, trust, result.value.proof)
      && Listed(bundles.value, verifier, commit, trust, text, result.value)
      && (result.value.workflowsChanged <==>
            result.value.proof.None? && RefusedForWorkflows(bundles.value, verifier, commit, trust))
  {
    if !FullCommit(commit) || bundles.None? { return Err(()); }
    var accepted, refused, changed, changeGrade := Sift(bundles.value, commit, verifier, trust);
    refused := SortByKey(refused, text);
    changeGrade := SortByKey(changeGrade, ReasonIn(text));
    forall p | p in accepted
      ensures p.grade != NoGrade
    {
      AcceptedHasAGrade(bundles.value, verifier, commit, trust, p);
    }
    var best := Best(accepted);
    result := Ok(Verification(best, refused, changed && best.None?, changeGrade));
  }

  lemma {:induction false} NextBundle(bundles: seq<string>, bundle: string, verifier: Verifier, commit: string,
          trust: Trust)
    ensures forall p :: Accepted(bundles + [bundle], verifier, commit, trust, p) <==>
      Accepted(bundles, verifier, commit, trust, p) || Accept(bundle, verifier, commit, trust) == Some(p)
    ensures RefusedForWorkflows(bundles + [bundle], verifier, commit, trust) <==>
      RefusedForWorkflows(bundles, verifier, commit, trust) ||
      (verifier(bundle).Some? && AttestationVerified(verifier(bundle).value, commit, trust) == Refuse(ChangeGrade, WorkflowsDiffer))
  {
  }

  // ---- What the choice does not depend on, and what it never takes ----

  // Log indexes that differ: two accepted proof runs with one log index are the same.
  ghost predicate LogIndexesDiffer(bundles: seq<string>, verifier: Verifier, commit: string, trust: Trust) {
    forall p, q | Accepted(bundles, verifier, commit, trust, p) && Accepted(bundles, verifier, commit, trust, q) ::
      p.logIndex == q.logIndex ==> p == q
  }

  lemma {:induction false} AcceptedHasAGrade(bundles: seq<string>, verifier: Verifier, commit: string, trust: Trust,
          p: Verified)
    requires Accepted(bundles, verifier, commit, trust, p)
    ensures p.grade != NoGrade
  {
    var b :| b in bundles && Accept(b, verifier, commit, trust) == Some(p);
    GradeWithRefusal(verifier(b).value, commit, trust);
  }

  // The same bundles in any order, and any number of times, give the same proof run.
  lemma {:induction false} OrderDoesNotMatter(bundles: seq<string>, others: seq<string>, verifier: Verifier,
          commit: string, trust: Trust, p: Option<Verified>, q: Option<Verified>)
    requires forall b :: b in bundles <==> b in others
    requires LogIndexesDiffer(bundles, verifier, commit, trust)
    requires Chosen(bundles, verifier, commit, trust, p) && Chosen(others, verifier, commit, trust, q)
    ensures p == q
  {
    forall v
      ensures Accepted(bundles, verifier, commit, trust, v) <==> Accepted(others, verifier, commit, trust, v)
    {
    }
    if p.Some? && q.Some? {
      AcceptedHasAGrade(bundles, verifier, commit, trust, p.value);
      AcceptedHasAGrade(bundles, verifier, commit, trust, q.value);
      assert !Better(p.value, q.value) && !Better(q.value, p.value);
    }
  }

  // A release-grade proof run is taken whenever there is one, and the newest of those.
  lemma {:induction false} ReleaseGradeWins(bundles: seq<string>, verifier: Verifier, commit: string, trust: Trust,
          p: Option<Verified>, other: Verified)
    requires Chosen(bundles, verifier, commit, trust, p)
    requires Accepted(bundles, verifier, commit, trust, other) && other.grade == ReleaseGrade
    ensures p.Some? && p.value.grade == ReleaseGrade && p.value.logIndex >= other.logIndex
  {
    assert !Better(other, p.value);
  }

  // While the change alters the workflow files, no change-grade proof run is taken.
  lemma {:induction false} NoChangeGradeWhileWorkflowsDiffer(bundles: seq<string>, verifier: Verifier, commit: string,
          trust: Trust, p: Option<Verified>)
    requires trust.workflowChanges != []
    requires Chosen(bundles, verifier, commit, trust, p)
    ensures p.Some? ==> p.value.grade == ReleaseGrade
  {
    if p.Some? {
      var b :| b in bundles && Accept(b, verifier, commit, trust) == Some(p.value);
      GradeWithRefusal(verifier(b).value, commit, trust);
    }
  }

  // The trusted workflow signed the statement at main, from a run at the commit, about exactly the commit.
  predicate SignedAtMainAbout(s: Statement, commit: string, trust: Trust) {
    && FullCommit(commit)
    && trust.signer.issuer != "" && trust.signer.workflow != ""
    && s.signer == Signer(trust.signer.issuer, trust.signer.workflow + "@" + MAIN_REF)
    && |s.subjects| == 1 && s.subjects[0].digest == trust.digest(commit) && HasSuffix(s.subjects[0].name, "@" + commit)
    && s.predicateType == PROOF_RUN_TYPE && s.commit == Some(commit)
    && s.sourceRepository == Cut(trust.signer.workflow, WORKFLOWS_IN).before
    && s.sourceRef == Cut(s.signer.subject, "@").after
    && s.sourceDigest == commit
  }

  lemma {:induction false} GradeIsRelease(t: TrustedSigner, signer: Signer, changeRef: string)
    ensures t.Grade(signer, changeRef) == ReleaseGrade <==>
      t.issuer != "" && t.workflow != "" && signer == Signer(t.issuer, t.workflow + "@" + MAIN_REF)
  {
    var at := t.workflow + "@";
    if HasPrefix(signer.subject, at) {
      assert signer.subject == at + signer.subject[|at|..];
    }
    assert HasPrefix(at + MAIN_REF, at) && (at + MAIN_REF)[|at|..] == MAIN_REF;
  }

  // Release grade is given exactly to such a statement, whatever the change reference and the workflow files.
  lemma {:induction false} ReleaseGradeExactly(s: Statement, commit: string, trust: Trust)
    ensures AttestationVerified(s, commit, trust) == Check(ReleaseGrade, None) <==> SignedAtMainAbout(s, commit, trust)
  {
    GradeIsRelease(trust.signer, s.signer, trust.changeRef);
  }

  // The trusted workflow signed the statement at the change's own reference, about exactly the commit.
  predicate SignedAtTheChangeAbout(s: Statement, commit: string, trust: Trust) {
    && FullCommit(commit)
    && trust.signer.issuer != "" && trust.signer.workflow != ""
    && trust.changeRef != "" && trust.changeRef != MAIN_REF
    && s.signer == Signer(trust.signer.issuer, trust.signer.workflow + "@" + trust.changeRef)
    && |s.subjects| == 1 && s.subjects[0].digest == trust.digest(commit) && HasSuffix(s.subjects[0].name, "@" + commit)
    && s.predicateType == PROOF_RUN_TYPE && s.commit == Some(commit)
    && s.sourceRepository == Cut(trust.signer.workflow, WORKFLOWS_IN).before
    && s.sourceRef == Cut(s.signer.subject, "@").after
  }

  lemma {:induction false} GradeIsChange(t: TrustedSigner, signer: Signer, changeRef: string)
    ensures t.Grade(signer, changeRef) == ChangeGrade <==>
      && t.issuer != "" && t.workflow != "" && changeRef != "" && changeRef != MAIN_REF
      && signer == Signer(t.issuer, t.workflow + "@" + changeRef)
  {
    var at := t.workflow + "@";
    if HasPrefix(signer.subject, at) {
      assert signer.subject == at + signer.subject[|at|..];
    }
    assert HasPrefix(at + changeRef, at) && (at + changeRef)[|at|..] == changeRef;
  }

  // Change grade is given exactly to such a statement, wherever its run ran, while no workflow file differs.
  lemma {:induction false} ChangeGradeExactly(s: Statement, commit: string, trust: Trust)
    ensures AttestationVerified(s, commit, trust) == Check(ChangeGrade, None) <==>
      SignedAtTheChangeAbout(s, commit, trust) && trust.workflowChanges == []
    ensures AttestationVerified(s, commit, trust) == Refuse(ChangeGrade, WorkflowsDiffer) <==>
      SignedAtTheChangeAbout(s, commit, trust) && trust.workflowChanges != []
  {
    GradeIsChange(trust.signer, s.signer, trust.changeRef);
  }

  // The trusted workflow signed the statement at a pull request's reference, about exactly the commit.
  ghost predicate SignedAtAPullAbout(s: Statement, commit: string, trust: Trust) {
    && FullCommit(commit)
    && trust.signer.issuer != "" && trust.signer.workflow != ""
    && HasPrefix(s.sourceRef, PULL_REFS)
    && s.signer == Signer(trust.signer.issuer, trust.signer.workflow + "@" + s.sourceRef)
    && |s.subjects| == 1 && s.subjects[0].digest == trust.digest(commit) && HasSuffix(s.subjects[0].name, "@" + commit)
    && s.predicateType == PROOF_RUN_TYPE && s.commit == Some(commit)
    && s.sourceRepository == Cut(trust.signer.workflow, WORKFLOWS_IN).before
  }

  // An attestation is kept for another change exactly when no reference is gated and it is signed like that.
  lemma {:induction false} ElsewhereExactly(bundle: string, verifier: Verifier, commit: string, trust: Trust)
    ensures ElsewhereOf(bundle, verifier, commit, trust).Some? <==>
      trust.changeRef == "" && verifier(bundle).Some? && SignedAtAPullAbout(verifier(bundle).value, commit, trust)
  {
    if verifier(bundle).Some? {
      var s := verifier(bundle).value;
      var at := trust.signer.workflow + "@";
      if HasPrefix(s.signer.subject, at) {
        assert s.signer.subject == at + s.signer.subject[|at|..];
      }
      assert HasPrefix(at + s.sourceRef, at) && (at + s.sourceRef)[|at|..] == s.sourceRef;
      assert HasPrefix(s.sourceRef, PULL_REFS) ==> s.sourceRef[5] == 'p' == PULL_REFS[5] && MAIN_REF[5] == 'h';
    }
  }

  // With no change reference, only a statement signed at main about that very commit is taken.
  lemma {:induction false} WithNoChangeRefOnlyMain(bundles: seq<string>, verifier: Verifier, commit: string,
          trust: Trust, p: Option<Verified>)
    requires trust.changeRef == ""
    requires Chosen(bundles, verifier, commit, trust, p)
    ensures p.Some? ==> exists b ::
      b in bundles && verifier(b).Some? && SignedAtMainAbout(verifier(b).value, commit, trust) &&
      verifier(b).value.run == Some(p.value.outcomes)
    ensures p.None? ==> forall b | b in bundles && verifier(b).Some? ::
      !SignedAtMainAbout(verifier(b).value, commit, trust) || verifier(b).value.run.None?
  {
    if p.Some? {
      var b :| b in bundles && Accept(b, verifier, commit, trust) == Some(p.value);
      ReleaseGradeExactly(verifier(b).value, commit, trust);
      GradeWithRefusal(verifier(b).value, commit, trust);
    } else {
      forall b | b in bundles && verifier(b).Some?
        ensures !SignedAtMainAbout(verifier(b).value, commit, trust) || verifier(b).value.run.None?
      {
        ReleaseGradeExactly(verifier(b).value, commit, trust);
        assert Accept(b, verifier, commit, trust).None? by {
          if Accept(b, verifier, commit, trust).Some? {
            assert Accepted(bundles, verifier, commit, trust, Accept(b, verifier, commit, trust).value);
          }
        }
      }
    }
  }
}
