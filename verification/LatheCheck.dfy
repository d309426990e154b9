// internal/assure/coverage.go: reading the coverage and the standing of each obligation from lathe check --json.
module LatheCheck {
  import opened Coverage
  import opened Decision
  import opened Ratchet
  import opened Text
  import opened Wrappers

  datatype Gap = Gap(id: string, kind: string, missing: string)

  datatype Scope = Scope(product: string, domain: Option<string>, obligations: seq<Coverage>, patternRules: seq<string>, gaps: seq<Gap>) {
    function Name(): string {
      if domain.Some? then domain.value else product
    }
  }

  datatype Record = Record(id: string, kind: string)

  datatype Workspace = Workspace(coverage: seq<Scope>, chains: seq<string>, records: seq<Record>)

  datatype Error =
    | NoWorkspace
    | BadCount
    | NamelessChain
    | TwoChains(id: string)
    | NoRuleChain(rule: string)
    | StrayGap(id: string)
    | CountsDiffer

  const PATTERN_RULE := "pattern_rule"

  // ---- What the output says ----

  function RecordRules(records: seq<Record>): set<string> {
    set r | r in records && r.kind == PATTERN_RULE :: r.id
  }

  function ScopeRules(scopes: seq<Scope>): set<string> {
    set s, rule | s in scopes && rule in s.patternRules :: rule
  }

  function PatternRules(workspace: Workspace): set<string> {
    RecordRules(workspace.records) + ScopeRules(workspace.coverage)
  }

  function Sum(kinds: seq<Coverage>): Coverage {
    if kinds == [] then NO_COVERAGE else Sum(kinds[..|kinds| - 1]).Plus(kinds[|kinds| - 1])
  }

  // The counts over every scope and kind.
  function Totals(scopes: seq<Scope>): Coverage {
    if scopes == [] then NO_COVERAGE else Totals(scopes[..|scopes| - 1]).Plus(Sum(scopes[|scopes| - 1].obligations))
  }

  function RulesIn(rules: seq<string>, scope: string): seq<string> {
    seq(|rules|, i requires 0 <= i < |rules| => PatternRuleIn(rules[i], scope))
  }

  // The obligations that the pattern rules are, one for each scope that lists the rule.
  function ScopedNames(scopes: seq<Scope>): seq<string> {
    if scopes == [] then []
    else ScopedNames(scopes[..|scopes| - 1]) + RulesIn(scopes[|scopes| - 1].patternRules, scopes[|scopes| - 1].Name())
  }

  // The chains that give an obligation of their own, and those of pattern rules.
  function Chains(chains: seq<string>, rules: set<string>, ofRules: bool): seq<string> {
    if chains == [] then []
    else
      var before := Chains(chains[..|chains| - 1], rules, ofRules);
      var last := chains[|chains| - 1];
      if (last in rules) == ofRules then before + [last] else before
  }

  function GapID(rules: set<string>, scope: Scope, gap: Gap): string {
    if gap.kind == PATTERN_RULE || gap.id in rules then PatternRuleIn(gap.id, scope.Name()) else gap.id
  }

  // Some gap says that the obligation misses the share.
  ghost predicate Misses(rules: set<string>, scopes: seq<Scope>, id: string, share: Share) {
    exists s, g :: s in scopes && g in s.gaps && GapID(rules, s, g) == id && g.missing == ShareText(share)
  }

  ghost function Missing(rules: set<string>, scopes: seq<Scope>, id: string): set<Share> {
    set share | share in {Designed, Built, Proved} && Misses(rules, scopes, id, share)
  }

  function StandingFrom(gaps: set<Share>): Standing {
    Standing(Designed !in gaps, Designed !in gaps && Built !in gaps, Proved !in gaps)
  }

  function NamesIn(workspace: Workspace): seq<string> {
    Chains(workspace.chains, PatternRules(workspace), false) + ScopedNames(workspace.coverage)
  }

  ghost function ObligationsOf(workspace: Workspace): Obligations {
    map id | id in NamesIn(workspace) :: StandingFrom(Missing(PatternRules(workspace), workspace.coverage, id))
  }

  ghost predicate Distinct(list: seq<string>) {
    forall i, j | 0 <= i < j < |list| :: list[i] != list[j]
  }

  // The output names each obligation once, no gap names another, and the standings add up to its own counts.
  ghost predicate Acceptable(workspace: Workspace) {
    var rules := PatternRules(workspace);
    && "" !in workspace.chains
    && Distinct(Chains(workspace.chains, rules, true))
    && Distinct(NamesIn(workspace))
    && (forall id | id in ScopedNames(workspace.coverage) :: Cut(id, "@").before in Chains(workspace.chains, rules, true))
    && (forall id, share | Misses(rules, workspace.coverage, id, share) :: id in NamesIn(workspace))
    && CoverageOf(ObligationsOf(workspace)) == Totals(workspace.coverage)
  }

  // ---- Reading it ----

  type Gaps = map<string, set<Share>>

  function GapsOf(missing: Gaps, id: string): set<Share> {
    if id in missing then missing[id] else {}
  }

  // The map holds exactly the shares that the gaps of the scopes, and of one more scope so far, say are missing.
  ghost predicate Collected(missing: Gaps, rules: set<string>, scopes: seq<Scope>) {
    && (forall id, share :: share in GapsOf(missing, id) <==> Misses(rules, scopes, id, share))
    && (forall id | id in missing :: missing[id] != {})
  }

  function ParseShare(text: string): Option<Share> {
    if text == "designed" then Some(Designed)
    else if text == "built" then Some(Built)
    else if text == "proved" then Some(Proved)
    else None
  }

  lemma ParseShareIsShareText(text: string, share: Share)
    ensures ParseShare(text) == Some(share) <==> text == ShareText(share)
  {
    assert ShareText(Designed)[0] != ShareText(Built)[0];
    assert ShareText(Designed)[0] != ShareText(Proved)[0];
    assert ShareText(Built)[0] != ShareText(Proved)[0];
  }

  lemma MissesOneMore(rules: set<string>, scopes: seq<Scope>, scope: Scope, gap: Gap, id: string, share: Share)
    ensures Misses(rules, scopes + [scope.(gaps := scope.gaps + [gap])], id, share) <==>
      Misses(rules, scopes + [scope], id, share) || (GapID(rules, scope, gap) == id && gap.missing == ShareText(share))
  {
    var more := scope.(gaps := scope.gaps + [gap]);
    if Misses(rules, scopes + [more], id, share) {
      var s, g :| s in scopes + [more] && g in s.gaps && GapID(rules, s, g) == id && g.missing == ShareText(share);
      if s !in scopes {
        assert g == gap || g in scope.gaps;
        assert scope in scopes + [scope];
        assert GapID(rules, scope, g) == id;
      }
    }
    if s, g :| s in scopes + [scope] && g in s.gaps && GapID(rules, s, g) == id && g.missing == ShareText(share) {
      if s !in scopes {
        assert more in scopes + [more] && g in more.gaps && GapID(rules, more, g) == id;
      }
    }
    if GapID(rules, scope, gap) == id && gap.missing == ShareText(share) {
      assert more in scopes + [more] && gap in more.gaps && GapID(rules, more, gap) == id;
    }
  }

  method CollectGaps(missing: Gaps, rules: set<string>, ghost scopes: seq<Scope>, scope: Scope) returns (grown: Gaps)
    requires Collected(missing, rules, scopes)
    ensures Collected(grown, rules, scopes + [scope])
  {
    grown := missing;
    ghost var none := scope.(gaps := []);
    forall id, share
      ensures Misses(rules, scopes + [none], id, share) <==> Misses(rules, scopes, id, share)
    {
      if s, g :| s in scopes + [none] && g in s.gaps && GapID(rules, s, g) == id && g.missing == ShareText(share) {
        assert s in scopes;
      }
    }
    for i := 0 to |scope.gaps|
      invariant Collected(grown, rules, scopes + [scope.(gaps := scope.gaps[..i])])
    {
      var gap := scope.gaps[i];
      var share := ParseShare(gap.missing);
      var id := GapID(rules, scope, gap);
      ghost var before := scope.(gaps := scope.gaps[..i]);
      ghost var was := grown;
      assert before.(gaps := before.gaps + [gap]) == scope.(gaps := scope.gaps[..i + 1]);
      if share.Some? {
        grown := grown[id := GapsOf(grown, id) + {share.value}];
      }
      forall other, wanted
        ensures wanted in GapsOf(grown, other) <==> Misses(rules, scopes + [scope.(gaps := scope.gaps[..i + 1])], other, wanted)
      {
        MissesOneMore(rules, scopes, before, gap, other, wanted);
        ParseShareIsShareText(gap.missing, wanted);
        assert wanted in GapsOf(was, other) <==> Misses(rules, scopes + [before], other, wanted);
      }
    }
    assert scope.(gaps := scope.gaps[..|scope.gaps|]) == scope;
  }

  method SumKinds(kinds: seq<Coverage>) returns (sum: Coverage)
    ensures sum == Sum(kinds)
  {
    sum := NO_COVERAGE;
    for i := 0 to |kinds|
      invariant sum == Sum(kinds[..i])
    {
      sum := sum.Plus(kinds[i]);
      assert kinds[..i + 1][..i] == kinds[..i];
    }
    assert kinds[..|kinds|] == kinds;
  }

  method NameRules(rules: seq<string>, scope: string) returns (names: seq<string>)
    ensures names == RulesIn(rules, scope)
  {
    names := [];
    for k := 0 to |rules|
      invariant names == RulesIn(rules, scope)[..k]
    {
      names := names + [PatternRuleIn(rules[k], scope)];
    }
  }

  method ReadScopes(scopes: seq<Scope>, rules: set<string>)
    returns (total: Coverage, missing: Gaps, scoped: seq<string>)
    ensures total == Totals(scopes)
    ensures Collected(missing, rules, scopes)
    ensures scoped == ScopedNames(scopes)
  {
    total, missing, scoped := NO_COVERAGE, map[], [];
    for i := 0 to |scopes|
      invariant total == Totals(scopes[..i])
      invariant Collected(missing, rules, scopes[..i])
      invariant scoped == ScopedNames(scopes[..i])
    {
      assert scopes[..i + 1] == scopes[..i] + [scopes[i]];
      var kinds := SumKinds(scopes[i].obligations);
      total := total.Plus(kinds);
      var rulesHere := NameRules(scopes[i].patternRules, scopes[i].Name());
      scoped := scoped + rulesHere;
      missing := CollectGaps(missing, rules, scopes[..i], scopes[i]);
    }
    assert scopes[..|scopes|] == scopes;
  }

  method CollectRules(workspace: Workspace) returns (rules: set<string>)
    ensures rules == PatternRules(workspace)
  {
    rules := {};
    for i := 0 to |workspace.records|
      invariant rules == RecordRules(workspace.records[..i])
    {
      assert workspace.records[..i + 1] == workspace.records[..i] + [workspace.records[i]];
      if workspace.records[i].kind == PATTERN_RULE {
        rules := rules + {workspace.records[i].id};
      }
    }
    assert workspace.records[..|workspace.records|] == workspace.records;
    ghost var named := rules;
    for i := 0 to |workspace.coverage|
      invariant rules == named + ScopeRules(workspace.coverage[..i])
    {
      assert workspace.coverage[..i + 1] == workspace.coverage[..i] + [workspace.coverage[i]];
      var listed := workspace.coverage[i].patternRules;
      ghost var before := rules;
      for k := 0 to |listed|
        invariant rules == before + set rule | rule in listed[..k]
      {
        assert listed[..k + 1] == listed[..k] + [listed[k]];
        rules := rules + {listed[k]};
      }
      assert listed[..|listed|] == listed;
    }
    assert workspace.coverage[..|workspace.coverage|] == workspace.coverage;
  }

  lemma {:induction false} ChainsGrow(chains: seq<string>, k: nat, rules: set<string>, ofRules: bool)
    requires k <= |chains|
    ensures Chains(chains[..k], rules, ofRules) <= Chains(chains, rules, ofRules)
  {
    if k < |chains| {
      ChainsGrow(chains[..|chains| - 1], k, rules, ofRules);
      assert chains[..|chains| - 1][..k] == chains[..k];
    } else {
      assert chains[..k] == chains;
    }
  }

  // The obligations read so far: each name once, with the standing its gaps leave.
  ghost predicate Reads(obligations: Obligations, names: seq<string>, missing: Gaps) {
    && Distinct(names)
    && (forall id :: id in obligations <==> id in names)
    && (forall id | id in obligations :: obligations[id] == StandingFrom(GapsOf(missing, id)))
  }

  lemma ReadsOneMore(obligations: Obligations, names: seq<string>, missing: Gaps, id: string)
    requires Reads(obligations, names, missing)
    ensures id in obligations ==> !Distinct(names + [id])
    ensures id !in obligations ==> Reads(obligations[id := StandingFrom(GapsOf(missing, id))], names + [id], missing)
  {
    if id in obligations {
      var i :| 0 <= i < |names| && names[i] == id;
      assert (names + [id])[i] == (names + [id])[|names|];
    }
  }

  lemma PrefixStaysIndistinct(prefix: seq<string>, list: seq<string>)
    requires prefix <= list && !Distinct(prefix)
    ensures !Distinct(list)
  {
    var i, j :| 0 <= i < j < |prefix| && prefix[i] == prefix[j];
    assert list[i] == list[j];
  }

  lemma {:induction false} TwiceIsIndistinct(list: seq<string>, id: string, all: seq<string>)
    requires id in list && list + [id] <= all
    ensures !Distinct(all)
  {
    var k :| 0 <= k < |list| && list[k] == id;
    assert (list + [id])[k] == (list + [id])[|list|];
    PrefixStaysIndistinct(list + [id], all);
  }

  // What the first so many chains gave.
  ghost predicate ChainsRead(chains: seq<string>, rules: set<string>, missing: Gaps, i: nat, obligations: Obligations,
          chained: set<string>)
    requires i <= |chains|
  {
    && "" !in chains[..i]
    && Distinct(Chains(chains[..i], rules, true))
    && Reads(obligations, Chains(chains[..i], rules, false), missing)
    && forall rule :: rule in chained <==> rule in Chains(chains[..i], rules, true)
  }

  method ReadChains(workspace: Workspace, rules: set<string>, missing: Gaps)
    returns (result: Result<Obligations, Error>, chained: set<string>)
    requires rules == PatternRules(workspace)
    ensures result.Ok? ==>
      && "" !in workspace.chains
      && Distinct(Chains(workspace.chains, rules, true))
      && Reads(result.value, Chains(workspace.chains, rules, false), missing)
      && (forall rule :: rule in chained <==> rule in Chains(workspace.chains, rules, true))
    ensures result.Err? ==> !Acceptable(workspace)
  {
    var obligations: Obligations := map[];
    var chains := workspace.chains;
    chained := {};
    for i := 0 to |chains|
      invariant ChainsRead(chains, rules, missing, i, obligations, chained)
    {
      var chain := chains[i];
      ChainsGrow(chains, i + 1, rules, true);
      ChainsGrow(chains, i + 1, rules, false);
      if chain == "" {
        assert chain in chains;
        return Err(NamelessChain), chained;
      }
      NextChain(chains, rules, missing, i, obligations, chained);
      if chain in rules {
        if chain in chained { return Err(TwoChains(chain)), chained; }
        chained := chained + {chain};
      } else {
        if chain in obligations {
          PrefixStaysIndistinct(Chains(chains[..i + 1], rules, false), NamesIn(workspace));
          return Err(TwoChains(chain)), chained;
        }
        obligations := obligations[chain := StandingFrom(GapsOf(missing, chain))];
      }
    }
    assert chains[..|chains|] == chains;
    result := Ok(obligations);
  }

  // One more chain is new, or the chains name one rule or obligation twice.
  lemma {:induction false} NextChain(chains: seq<string>, rules: set<string>, missing: Gaps, i: nat,
          obligations: Obligations, chained: set<string>)
    requires i < |chains| && chains[i] != "" && ChainsRead(chains, rules, missing, i, obligations, chained)
    requires Chains(chains[..i + 1], rules, true) <= Chains(chains, rules, true)
    ensures chains[i] in rules && chains[i] in chained ==> !Distinct(Chains(chains, rules, true))
    ensures chains[i] in rules && chains[i] !in chained ==>
      ChainsRead(chains, rules, missing, i + 1, obligations, chained + {chains[i]})
    ensures chains[i] !in rules && chains[i] in obligations ==> !Distinct(Chains(chains[..i + 1], rules, false))
    ensures chains[i] !in rules && chains[i] !in obligations ==>
      ChainsRead(chains, rules, missing, i + 1, obligations[chains[i] := StandingFrom(GapsOf(missing, chains[i]))], chained)
  {
    var chain := chains[i];
    assert chains[..i + 1] == chains[..i] + [chain] && chains[..i + 1][..i] == chains[..i];
    if chain in rules {
      if chain in chained { TwiceIsIndistinct(Chains(chains[..i], rules, true), chain, Chains(chains, rules, true)); }
    } else {
      ReadsOneMore(obligations, Chains(chains[..i], rules, false), missing, chain);
    }
  }

  lemma {:induction false} TwiceIsNotAcceptable(workspace: Workspace, plain: seq<string>, scoped: seq<string>, i: nat)
    requires plain == Chains(workspace.chains, PatternRules(workspace), false) && scoped == ScopedNames(workspace.coverage)
    requires i <= |scoped| && !Distinct(plain + scoped[..i])
    ensures !Acceptable(workspace)
  {
    PrefixStaysIndistinct(plain + scoped[..i], plain + scoped);
  }

  lemma {:induction false} NoChainIsNotAcceptable(workspace: Workspace, chained: set<string>, id: string)
    requires forall rule :: rule in chained <==> rule in Chains(workspace.chains, PatternRules(workspace), true)
    requires id in ScopedNames(workspace.coverage) && Cut(id, "@").before !in chained
    ensures !Acceptable(workspace)
  {
  }

  // One more obligation, unless it was there before.
  method ReadOne(obligations: Obligations, ghost names: seq<string>, missing: Gaps, id: string)
    returns (more: Option<Obligations>)
    requires Reads(obligations, names, missing)
    ensures more.None? ==> !Distinct(names + [id])
    ensures more.Some? ==> Reads(more.value, names + [id], missing)
  {
    ReadsOneMore(obligations, names, missing, id);
    if id in obligations { return None; }
    more := Some(obligations[id := StandingFrom(GapsOf(missing, id))]);
  }

  method ReadScoped(workspace: Workspace, before: Obligations, scoped: seq<string>, chained: set<string>, missing: Gaps)
    returns (result: Result<Obligations, Error>)
    requires scoped == ScopedNames(workspace.coverage)
    requires Reads(before, Chains(workspace.chains, PatternRules(workspace), false), missing)
    requires forall rule :: rule in chained <==> rule in Chains(workspace.chains, PatternRules(workspace), true)
    ensures result.Ok? ==>
      && Reads(result.value, NamesIn(workspace), missing)
      && (forall id | id in scoped :: Cut(id, "@").before in chained)
    ensures result.Err? ==> !Acceptable(workspace)
  {
    ghost var plain := Chains(workspace.chains, PatternRules(workspace), false);
    var obligations := before;
    assert plain + scoped[..0] == plain;
    for i := 0 to |scoped|
      invariant Reads(obligations, plain + scoped[..i], missing)
      invariant forall k | 0 <= k < i :: Cut(scoped[k], "@").before in chained
    {
      var id := scoped[i];
      if Cut(id, "@").before !in chained {
        NoChainIsNotAcceptable(workspace, chained, id);
        return Err(NoRuleChain(Cut(id, "@").before));
      }
      var more := ReadOne(obligations, plain + scoped[..i], missing, id);
      assert plain + scoped[..i] + [id] == plain + scoped[..i + 1];
      if more.None? {
        TwiceIsNotAcceptable(workspace, plain, scoped, i + 1);
        return Err(TwoChains(id));
      }
      obligations := more.value;
    }
    assert scoped[..|scoped|] == scoped;
    result := Ok(obligations);
  }

  // The output is accepted exactly when it is acceptable, and then gives the standing of each obligation it names.
  method ReadLatheCheck(workspace: Option<Workspace>) returns (result: Result<Measurement, Error>)
    ensures result.Ok? <==> workspace.Some? && Acceptable(workspace.value)
    ensures result.Ok? ==> result.value == Measurement(Totals(workspace.value.coverage), ObligationsOf(workspace.value))
  {
    if workspace.None? { return Err(NoWorkspace); }
    var check := workspace.value;
    var rules := CollectRules(check);
    var coverage, missing, scoped := ReadScopes(check.coverage, rules);
    if !coverage.Valid() { return Err(BadCount); }
    var chains, chained := ReadChains(check, rules, missing);
    if chains.Err? { return Err(chains.error); }
    var all := ReadScoped(check, chains.value, scoped, chained, missing);
    if all.Err? { return Err(all.error); }
    var obligations := all.value;
    ReadsAreObligations(check, obligations, missing);
    var left := missing.Keys;
    while left != {}
      invariant left <= missing.Keys && missing.Keys - left <= obligations.Keys
      decreases left
    {
      var id :| id in left;
      if id !in obligations {
        ghost var share :| share in missing[id];
        assert share in GapsOf(missing, id);
        return Err(StrayGap(id));
      }
      left := left - {id};
    }
    var counted := CountStandings(obligations);
    if counted != coverage { return Err(CountsDiffer); }
    result := Ok(Measurement(coverage, obligations));
  }

  lemma GapsAreMissing(missing: Gaps, rules: set<string>, scopes: seq<Scope>, id: string)
    requires Collected(missing, rules, scopes)
    ensures GapsOf(missing, id) == Missing(rules, scopes, id)
  {
    forall share
      ensures share in GapsOf(missing, id) <==> share in Missing(rules, scopes, id)
    {
    }
  }

  lemma ReadsAreObligations(workspace: Workspace, obligations: Obligations, missing: Gaps)
    requires Collected(missing, PatternRules(workspace), workspace.coverage)
    requires Reads(obligations, NamesIn(workspace), missing)
    ensures obligations == ObligationsOf(workspace)
  {
    var rules := PatternRules(workspace);
    var expected := ObligationsOf(workspace);
    assert obligations.Keys == expected.Keys;
    forall id | id in obligations
      ensures obligations[id] == expected[id]
    {
      GapsAreMissing(missing, rules, workspace.coverage, id);
    }
  }

  // ---- What an accepted output means ----

  // A share is lost exactly by a gap that names the obligation, and being built also by the gap in the design.
  lemma EachGapRemovesItsShare(workspace: Workspace, id: string)
    requires Acceptable(workspace) && id in NamesIn(workspace)
    ensures
      var rules := PatternRules(workspace);
      var standing := ObligationsOf(workspace)[id];
      && (standing.Has(Designed) <==> !Misses(rules, workspace.coverage, id, Designed))
      && (standing.Has(Proved) <==> !Misses(rules, workspace.coverage, id, Proved))
      && (standing.Has(Built) <==> standing.Has(Designed) && !Misses(rules, workspace.coverage, id, Built))
  {
  }

  // The reported totals are the numbers of obligations that have each share, and built is never more than designed.
  lemma TotalsAreCounts(workspace: Workspace)
    requires Acceptable(workspace)
    ensures
      var totals := Totals(workspace.coverage);
      && totals.total == |ObligationsOf(workspace)| == |NamesIn(workspace)|
      && (forall share: Share :: totals.Count(share) == |Holding(ObligationsOf(workspace), share)|)
      && Holding(ObligationsOf(workspace), Built) <= Holding(ObligationsOf(workspace), Designed)
      && totals.built <= totals.designed
  {
    DistinctCount(NamesIn(workspace));
    assert ObligationsOf(workspace).Keys == set id | id in NamesIn(workspace);
    SubsetIsNoLarger(Holding(ObligationsOf(workspace), Built), Holding(ObligationsOf(workspace), Designed));
    assert CoverageOf(ObligationsOf(workspace)).Count(Built) <= CoverageOf(ObligationsOf(workspace)).Count(Designed);
  }

  lemma {:induction false} DistinctCount(list: seq<string>)
    requires Distinct(list)
    ensures |set id | id in list| == |list|
  {
    if list != [] {
      var front, last := list[..|list| - 1], list[|list| - 1];
      DistinctCount(front);
      assert list == front + [last];
      assert (set id | id in list) == (set id | id in front) + {last};
    }
  }

  // Across an accepted change with no retirement, no count that Lathe reports falls.
  lemma ReportedCountsDoNotFall(base: Workspace, change: Workspace, share: Share)
    requires Acceptable(base) && Acceptable(change)
    requires Holds(ObligationsOf(base), ObligationsOf(change), [])
    ensures Totals(base.coverage).Count(share) <= Totals(change.coverage).Count(share)
  {
    var before, after := ObligationsOf(base), ObligationsOf(change);
    forall id | id in Holding(before, share)
      ensures id in Holding(after, share)
    {
      assert !Vanished(before, after, [], id);
      assert !Fell(before, after, id, share);
    }
    SubsetIsNoLarger(Holding(before, share), Holding(after, share));
    TotalsAreCounts(base);
    TotalsAreCounts(change);
  }
}
