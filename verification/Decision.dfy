// internal/assure/decision.go: the reasons a gate writes.
module Decision {
  import opened Coverage
  import opened Text

  datatype Retirement = Retirement(id: string, retired: string, successors: seq<string>)

  function ShareText(share: Share): string {
    match share
    case Designed => "designed"
    case Built => "built"
    case Proved => "proved"
  }

  function ShareTexts(shares: seq<Share>): seq<string> {
    seq(|shares|, i requires 0 <= i < |shares| => ShareText(shares[i]))
  }

  const FELL_FROM := " fell from "
  const DIFFERS_FROM_BASE := " differs from the base head"
  const NO_VERIFIED_PROOF_RUN := "no verified proof run at "
  const NO_OBLIGATION := "no obligation at "
  const ABSENT_AT_CHANGE := " is absent at the change (was "
  const RETIRED_BY := " is retired by "
  const BUT_ITS_SUCCESSOR := ", but its successor "
  const IS_NOT := " is not "
  const CODE_RULE := " (ST-STD-CODE-R"

  function FellReason(obligation: string, share: Share): string {
    obligation + FELL_FROM + ShareText(share)
  }

  function AbsentReason(obligation: string, had: seq<Share>): string {
    obligation + ABSENT_AT_CHANGE + Join(ShareTexts(had), ", ") + " at the base)"
  }

  function RetiredReason(obligation: string, retirement: string, successor: string, share: Share): string {
    obligation + RETIRED_BY + retirement + BUT_ITS_SUCCESSOR + successor + IS_NOT + ShareText(share)
  }

  function RetirementLine(retirement: Retirement): string {
    if |retirement.successors| == 0 then
      "retirement " + retirement.id + ": " + retirement.retired + " has no successor"
    else
      "retirement " + retirement.id + ": " + retirement.retired + " succeeded by " + Join(retirement.successors, ", ")
  }

  // The reason of a release for an obligation that does not have a share.
  function NotReason(obligation: string, share: Share): string {
    obligation + IS_NOT + ShareText(share)
  }

  function WorkflowReason(file: string): string {
    file + DIFFERS_FROM_BASE
  }

  datatype CodeFault = CodeFault(rule: string, key: string, path: string, why: string)

  function CodeFaultReason(fault: CodeFault): string {
    fault.path + " (" + fault.rule + ", " + fault.key + "): " + fault.why
  }

  // The reasons for a test record that did not pass, as proofRunPassed writes them.
  function NoOutcomeReason(id: string): string {
    id + " has no outcome in the proof run"
  }

  function DidNotRunReason(id: string): string {
    id + " failed: did not run"
  }

  function ResultReason(id: string, result: string): string {
    id + " " + result
  }
}
