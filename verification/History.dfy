// What the ratchet keeps over a whole history of accepted changes: internal/assure/gate.go, read step after step.
module History {
  import opened Coverage
  import opened Decision
  import opened Ratchet

  // One accepted change: the standings at its commit, and the retirements its spec has.
  datatype Step = Step(change: Obligations, retirements: seq<Retirement>)

  ghost predicate Accepted(start: Obligations, steps: seq<Step>)
    decreases |steps|
  {
    steps == [] ||
    (Holds(start, steps[0].change, steps[0].retirements) && Accepted(steps[0].change, steps[1..]))
  }

  function Final(start: Obligations, steps: seq<Step>): Obligations {
    if steps == [] then start else steps[|steps| - 1].change
  }

  // The obligations that stand for the obligation at the end: itself while each step has it, and from the step that
  // drops it, the heirs of every successor of every retirement there that names it.
  ghost function Heirs(id: string, steps: seq<Step>): set<string>
    decreases |steps|
  {
    if steps == [] then {id}
    else if id in steps[0].change then Heirs(id, steps[1..])
    else
      set r, s, heir |
        r in steps[0].retirements && Names(r, id) && s in r.successors &&
        heir in Heirs(SuccessorAt(steps[0].change, id, s), steps[1..]) :: heir
  }

  // Some branch of the retirements ends in one with no successor.
  ghost predicate Removed(id: string, steps: seq<Step>)
    decreases |steps|
  {
    && steps != []
    && if id in steps[0].change then Removed(id, steps[1..])
       else exists r | r in steps[0].retirements && Names(r, id) ::
         r.successors == [] || exists s | s in r.successors :: Removed(SuccessorAt(steps[0].change, id, s), steps[1..])
  }

  // Every share an obligation had at the start is held at the end by each of its heirs.
  lemma {:induction false} EveryHeirHoldsTheShare(start: Obligations, steps: seq<Step>, id: string, share: Share,
          heir: string)
    requires Accepted(start, steps)
    requires id in start && start[id].Has(share)
    requires heir in Heirs(id, steps)
    ensures heir in Final(start, steps) && Final(start, steps)[heir].Has(share)
    decreases |steps|
  {
    if steps != [] {
      var change, retirements := steps[0].change, steps[0].retirements;
      if id in change {
        assert !Fell(start, change, id, share);
        EveryHeirHoldsTheShare(change, steps[1..], id, share, heir);
      } else {
        var r, s :| r in retirements && Names(r, id) && s in r.successors &&
          heir in Heirs(SuccessorAt(change, id, s), steps[1..]);
        assert !Lacks(start, change, r, id, s, share);
        EveryHeirHoldsTheShare(change, steps[1..], SuccessorAt(change, id, s), share, heir);
      }
    }
  }

  // No obligation with a share is left without an heir, unless a branch ends in a plain removal.
  lemma {:induction false} NoHeirOnlyByRemoval(start: Obligations, steps: seq<Step>, id: string, share: Share)
    requires Accepted(start, steps)
    requires id in start && start[id].Has(share)
    requires !Removed(id, steps)
    ensures Heirs(id, steps) != {}
    decreases |steps|
  {
    if steps != [] {
      var change, retirements := steps[0].change, steps[0].retirements;
      if id in change {
        assert !Fell(start, change, id, share);
        NoHeirOnlyByRemoval(change, steps[1..], id, share);
      } else {
        assert !Vanished(start, change, retirements, id);
        var r :| r in retirements && Names(r, id);
        assert r.successors != [];
        var s := r.successors[0];
        assert s in r.successors;
        var next := SuccessorAt(change, id, s);
        assert !Lacks(start, change, r, id, s, share);
        NoHeirOnlyByRemoval(change, steps[1..], next, share);
        var heir :| heir in Heirs(next, steps[1..]);
        assert heir in Heirs(id, steps);
      }
    }
  }

  // While a history has no retirement that names it, an obligation with a share stands for itself alone.
  lemma {:induction false} UnretiredStandsForItself(start: Obligations, steps: seq<Step>, id: string, share: Share)
    requires Accepted(start, steps)
    requires id in start && start[id].Has(share)
    requires forall step, r | step in steps && r in step.retirements :: !Names(r, id)
    ensures Heirs(id, steps) == {id} && !Removed(id, steps)
    ensures id in Final(start, steps) && Final(start, steps)[id].Has(share)
    decreases |steps|
  {
    if steps != [] {
      assert steps[0] in steps;
      assert !Vanished(start, steps[0].change, steps[0].retirements, id);
      assert !Fell(start, steps[0].change, id, share);
      UnretiredStandsForItself(steps[0].change, steps[1..], id, share);
    }
  }

  // A pattern rule keeps a scope's obligations together: when a step of the history drops rule@scope and a retirement
  // there follows the rule to a successor that has the scope, the heirs of successor@scope are heirs of rule@scope.
  lemma {:induction false} PatternRuleStaysInItsScope(steps: seq<Step>, at: nat, rule: string, scope: string,
          r: Retirement, successor: string)
    requires '@' !in rule && at < |steps|
    requires forall k | 0 <= k < at :: PatternRuleIn(rule, scope) in steps[k].change
    requires PatternRuleIn(rule, scope) !in steps[at].change
    requires PatternRuleIn(successor, scope) in steps[at].change
    requires r in steps[at].retirements && r.retired == rule && successor in r.successors
    ensures Heirs(PatternRuleIn(successor, scope), steps[at + 1..]) <= Heirs(PatternRuleIn(rule, scope), steps)
    decreases at
  {
    if at > 0 {
      PatternRuleStaysInItsScope(steps[1..], at - 1, rule, scope, r, successor);
      assert steps[1..][at..] == steps[at + 1..];
    } else {
      CutPatternRule(rule, scope);
      assert SuccessorAt(steps[0].change, PatternRuleIn(rule, scope), successor) == PatternRuleIn(successor, scope);
    }
  }

  // The name of a pattern rule's obligation gives back the rule and the scope.
  lemma CutPatternRule(rule: string, scope: string)
    requires '@' !in rule
    ensures Text.Cut(PatternRuleIn(rule, scope), "@") == Text.Pieces(rule, scope, true)
  {
    Text.CutAtCharacter(rule, '@', scope);
  }

  // ---- Counts ----

  // None of these obligations ends in a plain removal, and no two of them have one heir.
  ghost predicate EachHasItsOwnHeirs(ids: set<string>, steps: seq<Step>) {
    && (forall id | id in ids :: !Removed(id, steps))
    && (forall a, b | a in ids && b in ids && a != b :: Heirs(a, steps) !! Heirs(b, steps))
  }

  // Then one heir can be taken for each.
  lemma {:induction false} OneHeirEach(start: Obligations, steps: seq<Step>, share: Share, ids: set<string>)
    returns (heirs: set<string>)
    requires Accepted(start, steps)
    requires ids <= Holding(start, share) && EachHasItsOwnHeirs(ids, steps)
    ensures |heirs| == |ids|
    ensures forall heir | heir in heirs :: exists id :: id in ids && heir in Heirs(id, steps)
    decreases |ids|
  {
    if ids == {} {
      heirs := {};
    } else {
      var id :| id in ids;
      var others := OneHeirEach(start, steps, share, ids - {id});
      NoHeirOnlyByRemoval(start, steps, id, share);
      var heir :| heir in Heirs(id, steps);
      NotAnothers(steps, ids, id, heir, others);
      heirs := others + {heir};
    }
  }

  lemma {:induction false} NotAnothers(steps: seq<Step>, ids: set<string>, id: string, heir: string,
          others: set<string>)
    requires EachHasItsOwnHeirs(ids, steps) && id in ids && heir in Heirs(id, steps)
    requires forall h | h in others :: exists other :: other in ids - {id} && h in Heirs(other, steps)
    ensures heir !in others
  {
    forall other | other in ids - {id}
      ensures heir !in Heirs(other, steps)
    {
      assert Heirs(other, steps) !! Heirs(id, steps);
    }
  }

  // Over any history of accepted changes, a count does not fall unless an obligation ends in a plain removal or two of
  // them have one heir.
  lemma {:induction false} OwnHeirsKeepTheCount(start: Obligations, steps: seq<Step>, share: Share)
    requires Accepted(start, steps)
    requires EachHasItsOwnHeirs(Holding(start, share), steps)
    ensures |Holding(start, share)| <= |Holding(Final(start, steps), share)|
  {
    var heirs := OneHeirEach(start, steps, share, Holding(start, share));
    forall heir | heir in heirs
      ensures heir in Holding(Final(start, steps), share)
    {
      var id :| id in Holding(start, share) && heir in Heirs(id, steps);
      EveryHeirHoldsTheShare(start, steps, id, share, heir);
    }
    SubsetIsNoLarger(heirs, Holding(Final(start, steps), share));
  }

  // With no retirement in the history, no obligation with a share is lost, and no count falls.
  lemma {:induction false} NoCountFalls(start: Obligations, steps: seq<Step>, share: Share)
    requires Accepted(start, steps)
    requires forall step | step in steps :: step.retirements == []
    ensures Holding(start, share) <= Holding(Final(start, steps), share)
    ensures |Holding(start, share)| <= |Holding(Final(start, steps), share)|
  {
    forall id | id in Holding(start, share)
      ensures Heirs(id, steps) == {id} && !Removed(id, steps) && id in Holding(Final(start, steps), share)
    {
      UnretiredStandsForItself(start, steps, id, share);
    }
    OwnHeirsKeepTheCount(start, steps, share);
  }

  // One change that retires both obligations in favour of a third.
  function MergeInto(a: string, b: string, c: string, held: Standing): Step {
    Step(map[c := held], [Retirement("", a, [c]), Retirement("", b, [c])])
  }

  lemma {:induction false} MergeIsAccepted(a: string, b: string, c: string, held: Standing)
    ensures Holds(map[a := held, b := held], map[c := held], MergeInto(a, b, c, held).retirements)
  {
    var step := MergeInto(a, b, c, held);
    FollowedTo(step.change, a, c);
    FollowedTo(step.change, b, c);
    assert step.retirements[0] in step.retirements && step.retirements[1] in step.retirements;
  }

  lemma {:induction false} HeirsOfMerged(a: string, b: string, c: string, held: Standing, id: string)
    requires id != c && (id == a || id == b)
    ensures Heirs(id, [MergeInto(a, b, c, held)]) == {c} && !Removed(id, [MergeInto(a, b, c, held)])
  {
    var step := MergeInto(a, b, c, held);
    FollowedTo(step.change, id, c);
    assert step.retirements[0] in step.retirements && step.retirements[1] in step.retirements;
    assert [step][1..] == [];
    assert Heirs(c, []) == {c} && !Removed(c, []);
    assert c in Heirs(c, [step][1..]);
  }

  lemma {:induction false} CountsOfMerged(a: string, b: string, c: string, held: Standing, share: Share)
    requires a != b && held.Has(share)
    ensures Holding(map[a := held, b := held], share) == {a, b} && Holding(map[c := held], share) == {c}
  {
  }

  // Neither condition can go: a count falls when two obligations have one heir, whichever they are.
  lemma {:induction false} MergeLowersACount(a: string, b: string, c: string, held: Standing, share: Share)
    requires a != b && a != c && b != c && held.Has(share)
    ensures exists start, steps ::
      && Accepted(start, steps) && Holding(start, share) == {a, b}
      && !Removed(a, steps) && !Removed(b, steps) && Heirs(a, steps) == Heirs(b, steps)
      && |Holding(Final(start, steps), share)| < |Holding(start, share)|
  {
    var start: Obligations := map[a := held, b := held];
    var steps := [MergeInto(a, b, c, held)];
    MergeIsAccepted(a, b, c, held);
    HeirsOfMerged(a, b, c, held, a);
    HeirsOfMerged(a, b, c, held, b);
    assert Accepted(start, steps) by { assert steps[1..] == []; }
    CountsOfMerged(a, b, c, held, share);
  }

  lemma {:induction false} FollowedTo(change: Obligations, id: string, successor: string)
    requires change.Keys == {successor}
    ensures SuccessorAt(change, id, successor) == successor
  {
    assert |PatternRuleIn(successor, Text.Cut(id, "@").after)| > |successor|;
  }

  // And it falls when one is retired with no successor.
  lemma {:induction false} RemovalLowersACount(a: string, held: Standing, share: Share)
    requires held.Has(share)
    ensures exists start, steps ::
      && Accepted(start, steps) && Holding(start, share) == {a} && Heirs(a, steps) == {}
      && Holding(Final(start, steps), share) == {}
  {
    var start: Obligations := map[a := held];
    var step := Step(map[], [Retirement("", a, [])]);
    assert [step][1..] == [];
    assert step.retirements[0] in step.retirements;
    assert Holds(start, step.change, step.retirements);
    assert Accepted(start, [step]);
    assert Holding(start, share) == {a} && Holding(Final(start, [step]), share) == {};
  }
}
