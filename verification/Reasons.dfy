// internal/assure/decision.go: how reasons are placed, compared and sorted.
module Reasons {
  import opened Coverage
  import opened Decision
  import opened Order
  import opened Text
  import opened Wrappers

  datatype Section = Obligations | ProofRuns | CodeFaults | Workflows {
    function Rank(): nat {
      match this
      case Obligations => 0
      case ProofRuns => 1
      case CodeFaults => 2
      case Workflows => 3
    }
  }

  datatype Place = Place(section: Section, key: string)

  datatype FaultKey = FaultKey(rule: string, key: string)

  // Takes a fault's reason apart again, if the text looks like one.
  function CodeFaultKey(reason: string): Option<FaultKey> {
    var at := Index(reason, CODE_RULE);
    if at < 0 then None
    else
      var inner := Cut(reason[at + 2..], "): ");
      var parts := Cut(inner.before, ", ");
      if !inner.found || !parts.found || ' ' in parts.before || parts.after == "" then None
      else Some(FaultKey(parts.before, parts.after))
  }

  function ShareDigit(share: Share): char {
    match share
    case Designed => '0'
    case Built => '1'
    case Proved => '2'
  }

  function ShareKey(obligation: string, share: Share): string {
    obligation + ['\0', ShareDigit(share)]
  }

  // The first share that the text is, or that the text ends with after the words before it.
  function ShareNamed(text: string): Option<Share> {
    if text == ShareText(Designed) then Some(Designed)
    else if text == ShareText(Built) then Some(Built)
    else if text == ShareText(Proved) then Some(Proved)
    else None
  }

  function ShareAtEnd(text: string): Option<Share> {
    if HasSuffix(text, IS_NOT + ShareText(Designed)) then Some(Designed)
    else if HasSuffix(text, IS_NOT + ShareText(Built)) then Some(Built)
    else if HasSuffix(text, IS_NOT + ShareText(Proved)) then Some(Proved)
    else None
  }

  function ReasonOrder(reason: string): Place {
    var fell, retired, absent := Cut(reason, FELL_FROM), Cut(reason, RETIRED_BY), Cut(reason, ABSENT_AT_CHANGE);
    var fault := CodeFaultKey(reason);
    var lacks := ShareAtEnd(reason);
    if HasSuffix(reason, DIFFERS_FROM_BASE) then Place(Workflows, CutSuffix(reason, DIFFERS_FROM_BASE).before)
    else if HasPrefix(reason, NO_OBLIGATION) then Place(Obligations, "")
    else if HasPrefix(reason, NO_VERIFIED_PROOF_RUN) then Place(ProofRuns, "")
    else if fault.Some? then Place(CodeFaults, fault.value.rule + "\0" + fault.value.key)
    else if fell.found && ' ' !in fell.before && ShareNamed(fell.after).Some? then
      Place(Obligations, ShareKey(fell.before, ShareNamed(fell.after).value))
    else if retired.found && ' ' !in retired.before && ShareAtEnd(retired.after).Some? then
      Place(Obligations, ShareKey(retired.before, ShareAtEnd(retired.after).value))
    else if lacks.Some? && ' ' !in CutSuffix(reason, IS_NOT + ShareText(lacks.value)).before then
      Place(Obligations, ShareKey(CutSuffix(reason, IS_NOT + ShareText(lacks.value)).before, lacks.value))
    else if absent.found && ' ' !in absent.before then Place(Obligations, absent.before)
    else Place(ProofRuns, Cut(reason, " ").before)
  }

  // By section, then by key, then by the whole text.
  predicate ReasonBefore(a: string, b: string) {
    var at, than := ReasonOrder(a), ReasonOrder(b);
    if at.section != than.section then at.section.Rank() < than.section.Rank()
    else if at.key != than.key then Less(at.key, than.key)
    else Less(a, b)
  }

  const BEFORE: (string, string) -> bool := (a, b) => ReasonBefore(a, b)

  lemma ReasonBeforeTransitive(a: string, b: string, c: string)
    requires ReasonBefore(a, b) && ReasonBefore(b, c)
    ensures ReasonBefore(a, c)
  {
    var x, y, z := ReasonOrder(a), ReasonOrder(b), ReasonOrder(c);
    if x.section == y.section == z.section {
      if x.key == y.key == z.key {
        LessTransitive(a, b, c);
      } else if x.key != y.key && y.key != z.key {
        LessTransitive(x.key, y.key, z.key);
        LessIrreflexive(x.key);
      }
    }
  }

  // The fixed order puts any two different reasons in one order only.
  lemma FixedOrderIsTotal()
    ensures StrictTotal(BEFORE)
  {
    forall x ensures !BEFORE(x, x) { LessIrreflexive(x); }
    forall x, y, z | BEFORE(x, y) && BEFORE(y, z) ensures BEFORE(x, z) { ReasonBeforeTransitive(x, y, z); }
    forall x, y ensures x == y || BEFORE(x, y) || BEFORE(y, x)
    {
      LessTotal(x, y);
      LessTotal(ReasonOrder(x).key, ReasonOrder(y).key);
    }
  }

  // ---- The sort, in place ----

  // Sorts a copy of the reasons and drops each repeat in place.
  method SortReasons(reasons: seq<string>) returns (unique: seq<string>)
    ensures Increasing(BEFORE, unique)
    ensures forall reason :: reason in unique <==> reason in reasons
  {
    FixedOrderIsTotal();
    unique := SortUnique(reasons, BEFORE);
  }
}
