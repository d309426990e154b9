// internal/assure/coverage.go: the shares, the standing of an obligation, and the coverage of a commit.
module Coverage {

  datatype Share = Designed | Built | Proved

  // All shares. A reason that lists several keeps to this sequence.
  const SHARES: seq<Share> := [Designed, Built, Proved]

  lemma EveryShareIsListed(share: Share)
    ensures share in SHARES
  {
    match share
    case Designed => assert SHARES[0] == share;
    case Built => assert SHARES[1] == share;
    case Proved => assert SHARES[2] == share;
  }

  datatype Standing = Standing(designed: bool, built: bool, proved: bool) {
    predicate Has(share: Share) {
      match share
      case Designed => designed
      case Built => built
      case Proved => proved
    }
  }

  // What Go's zero value gives for an obligation that a measurement does not have.
  const NO_STANDING := Standing(false, false, false)

  type Obligations = map<string, Standing>

  function StandingOf(obligations: Obligations, id: string): Standing {
    if id in obligations then obligations[id] else NO_STANDING
  }

  // A pattern rule and a scope make an ID of their own, with an at-sign between the two.
  function PatternRuleIn(rule: string, scope: string): string {
    rule + "@" + scope
  }

  // The obligations that have the share.
  function Holding(obligations: Obligations, share: Share): set<string> {
    set id | id in obligations && obligations[id].Has(share)
  }

  // The counts of a report, one per share beside the total. Any four integers are one.
  datatype Coverage = Coverage(total: int, designed: int, built: int, proved: int) {
    function Count(share: Share): int {
      match share
      case Designed => designed
      case Built => built
      case Proved => proved
    }

    function Plus(other: Coverage): Coverage {
      Coverage(total + other.total, designed + other.designed, built + other.built, proved + other.proved)
    }

    // What NewCoverage asks of the counts.
    predicate Valid() {
      total >= 0 && forall share: Share :: 0 <= Count(share) <= total
    }
  }

  datatype Measurement = Measurement(coverage: Coverage, obligations: Obligations)

  const NO_COVERAGE := Coverage(0, 0, 0, 0)

  function CoverageOf(obligations: Obligations): (c: Coverage)
    ensures c.Valid()
    ensures forall share: Share :: c.Count(share) == |Holding(obligations, share)|
  {
    HoldingIsBounded(obligations, Designed);
    HoldingIsBounded(obligations, Built);
    HoldingIsBounded(obligations, Proved);
    Coverage(|obligations|, |Holding(obligations, Designed)|, |Holding(obligations, Built)|, |Holding(obligations, Proved)|)
  }

  lemma HoldingIsBounded(obligations: Obligations, share: Share)
    ensures |Holding(obligations, share)| <= |obligations|
  {
    SubsetIsNoLarger(Holding(obligations, share), obligations.Keys);
  }

  lemma SubsetIsNoLarger<T>(a: set<T>, b: set<T>)
    requires a <= b
    ensures |a| <= |b|
  {
    assert b == a + (b - a);
  }

  // How many of the IDs hold.
  ghost function Amount(holding: set<string>, of: set<string>): nat {
    |holding * of|
  }

  lemma AmountNext(holding: set<string>, left: set<string>, id: string)
    requires id in left
    ensures Amount(holding, left) == Amount(holding, left - {id}) + if id in holding then 1 else 0
  {
    if id in holding {
      assert holding * left == holding * (left - {id}) + {id};
    } else {
      assert holding * left == holding * (left - {id});
    }
  }

  method CountEach(obligations: Obligations, ghost d: set<string>, ghost b: set<string>, ghost p: set<string>)
    returns (designed: int, built: int, proved: int)
    requires forall id | id in obligations :: id in d <==> obligations[id].designed
    requires forall id | id in obligations :: id in b <==> obligations[id].built
    requires forall id | id in obligations :: id in p <==> obligations[id].proved
    ensures designed == Amount(d, obligations.Keys)
    ensures built == Amount(b, obligations.Keys)
    ensures proved == Amount(p, obligations.Keys)
  {
    designed, built, proved := 0, 0, 0;
    var left := obligations.Keys;
    while left != {}
      invariant left <= obligations.Keys
      invariant designed + Amount(d, left) == Amount(d, obligations.Keys)
      invariant built + Amount(b, left) == Amount(b, obligations.Keys)
      invariant proved + Amount(p, left) == Amount(p, obligations.Keys)
      decreases left
    {
      var id :| id in left;
      AmountNext(d, left, id);
      AmountNext(b, left, id);
      AmountNext(p, left, id);
      if obligations[id].designed { designed := designed + 1; }
      if obligations[id].built { built := built + 1; }
      if obligations[id].proved { proved := proved + 1; }
      left := left - {id};
    }
  }

  // Counts the standings one by one, in any order of the map.
  method CountStandings(obligations: Obligations) returns (counted: Coverage)
    ensures counted == CoverageOf(obligations)
  {
    ghost var d, b, p := Holding(obligations, Designed), Holding(obligations, Built), Holding(obligations, Proved);
    var designed, built, proved := CountEach(obligations, d, b, p);
    assert d * obligations.Keys == d && b * obligations.Keys == b && p * obligations.Keys == p;
    counted := Coverage(|obligations|, designed, built, proved);
  }
}
