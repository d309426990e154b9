// internal/assure/gate.go: the ratchet, and what it keeps over a history of accepted changes.
module Ratchet {
  import opened Coverage
  import opened Decision
  import opened Order
  import opened Text

  // ---- What the ratchet asks of one change ----

  predicate Scoped(id: string) { Cut(id, "@").found }

  // The retirement names the obligation, or the pattern rule the obligation is in one scope.
  predicate Names(retirement: Retirement, id: string) {
    retirement.retired == id || (Scoped(id) && retirement.retired == Cut(id, "@").before)
  }

  // Where to look for a successor: under its own ID, or under that ID in the scope of what it replaces.
  function SuccessorAt(change: Obligations, id: string, successor: string): string {
    var there := PatternRuleIn(successor, Cut(id, "@").after);
    if Scoped(id) && there in change then there else successor
  }

  // The shares of a standing, in the fixed order.
  function Had(standing: Standing): seq<Share> {
    (if standing.designed then [Designed] else []) +
    (if standing.built then [Built] else []) +
    (if standing.proved then [Proved] else [])
  }

  lemma HadIsHas(standing: Standing, share: Share)
    ensures share in Had(standing) <==> standing.Has(share)
  {
  }

  predicate Fell(base: Obligations, change: Obligations, id: string, share: Share) {
    id in base && id in change && base[id].Has(share) && !change[id].Has(share)
  }

  predicate Vanished(base: Obligations, change: Obligations, retirements: seq<Retirement>, id: string) {
    id in base && id !in change && base[id] != NO_STANDING && forall r | r in retirements :: !Names(r, id)
  }

  // A successor that a retirement names for an absent obligation lacks a share the obligation had.
  predicate Lacks(base: Obligations, change: Obligations, retirement: Retirement, id: string, successor: string,
          share: Share) {
    && id in base && id !in change && Names(retirement, id)
    && successor in retirement.successors && base[id].Has(share)
    && !StandingOf(change, SuccessorAt(change, id, successor)).Has(share)
  }

  ghost predicate Holds(base: Obligations, change: Obligations, retirements: seq<Retirement>) {
    && (forall id, share :: !Fell(base, change, id, share))
    && (forall id :: !Vanished(base, change, retirements, id))
    && (forall r, id, successor, share | r in retirements :: !Lacks(base, change, r, id, successor, share))
  }

  // The text is the reason for one of the ways the obligation breaks the ratchet.
  ghost predicate CauseOf(base: Obligations, change: Obligations, retirements: seq<Retirement>, id: string,
          reason: string) {
    || (exists share :: Fell(base, change, id, share) && reason == FellReason(id, share))
    || (Vanished(base, change, retirements, id) && reason == AbsentReason(id, Had(base[id])))
    || (exists r, successor, share ::
          r in retirements && Lacks(base, change, r, id, successor, share) &&
          reason == RetiredReason(id, r.id, SuccessorAt(change, id, successor), share))
  }

  ghost predicate Cause(base: Obligations, change: Obligations, retirements: seq<Retirement>, reason: string) {
    exists id :: CauseOf(base, change, retirements, id, reason)
  }

  // The retirement lets an absent obligation of the base go with no reason.
  ghost predicate Follows(base: Obligations, change: Obligations, r: Retirement, id: string) {
    id in base && id !in change && Names(r, id) && forall successor, share :: !Lacks(base, change, r, id, successor, share)
  }

  ghost predicate Reported(base: Obligations, change: Obligations, retirements: seq<Retirement>, line: string) {
    exists r, id :: r in retirements && Follows(base, change, r, id) && line == RetirementLine(r)
  }

  // ---- The ratchet as the gate runs it ----

  type RetirementIndex = map<string, seq<Retirement>>

  function At(retiring: RetirementIndex, key: string): seq<Retirement> {
    if key in retiring then retiring[key] else []
  }

  // Each retirement is listed under the obligation it retires.
  ghost predicate Indexes(retiring: RetirementIndex, retirements: seq<Retirement>) {
    forall key, r :: r in At(retiring, key) <==> r in retirements && r.retired == key
  }

  lemma {:induction false} IndexesNext(retiring: RetirementIndex, done: seq<Retirement>, retirement: Retirement)
    requires Indexes(retiring, done)
    ensures Indexes(retiring[retirement.retired := At(retiring, retirement.retired) + [retirement]], done + [retirement])
  {
    var next := retiring[retirement.retired := At(retiring, retirement.retired) + [retirement]];
    forall key, r
      ensures r in At(next, key) <==> r in done + [retirement] && r.retired == key
    {
      assert r in At(retiring, key) <==> r in done && r.retired == key;
      if key == retirement.retired {
        assert r in At(next, key) <==> r in At(retiring, key) || r == retirement;
      } else {
        assert At(next, key) == At(retiring, key);
      }
      assert r in done + [retirement] <==> r in done || r == retirement;
    }
  }

  method IndexRetirements(retirements: seq<Retirement>) returns (retiring: RetirementIndex)
    ensures Indexes(retiring, retirements)
  {
    retiring := map[];
    for i := 0 to |retirements|
      invariant Indexes(retiring, retirements[..i])
    {
      var retirement := retirements[i];
      IndexesNext(retiring, retirements[..i], retirement);
      assert retirements[..i + 1] == retirements[..i] + [retirement];
      retiring := retiring[retirement.retired := At(retiring, retirement.retired) + [retirement]];
    }
    assert retirements[..|retirements|] == retirements;
  }

  predicate ByID(list: seq<Retirement>) {
    forall i, j | 0 <= i < j < |list| :: !Less(list[j].id, list[i].id)
  }

  const RETIREMENT: Retirement -> string := (r: Retirement) => r.id

  // Sorts by ID. The order of two retirements with one ID is not fixed, as Go's sort.Slice leaves it open.
  method SortByID(list: seq<Retirement>) returns (sorted: seq<Retirement>)
    ensures ByID(sorted)
    ensures forall r :: r in sorted <==> r in list
  {
    sorted := SortByKey(list, RETIREMENT);
    forall i, j | 0 <= i < j < |sorted|
      ensures !Less(sorted[j].id, sorted[i].id)
    {
      assert !ByKey(RETIREMENT)(sorted[j], sorted[i]);
    }
  }

  // The reasons of one retirement for the shares an absent obligation had.
  ghost predicate LackReason(change: Obligations, id: string, had: seq<Share>, retirement: Retirement,
          successors: seq<string>, reason: string) {
    exists successor, share ::
      successor in successors && share in had && !StandingOf(change, SuccessorAt(change, id, successor)).Has(share) &&
      reason == RetiredReason(id, retirement.id, SuccessorAt(change, id, successor), share)
  }

  // ---- The reasons in their order ----

  // The shares that an obligation of both commits fell from, in the order of the shares.
  function FellReasons(base: Obligations, change: Obligations, id: string, shares: seq<Share>): seq<string> {
    if shares == [] then []
    else
      var share := shares[|shares| - 1];
      FellReasons(base, change, id, shares[..|shares| - 1]) + if Fell(base, change, id, share) then [FellReason(id, share)] else []
  }

  // The shares that one successor lacks.
  function SharesLacked(change: Obligations, id: string, had: seq<Share>, retirement: string,
          named: string): seq<string> {
    if had == [] then []
    else
      var share := had[|had| - 1];
      SharesLacked(change, id, had[..|had| - 1], retirement, named) +
      if StandingOf(change, named).Has(share) then [] else [RetiredReason(id, retirement, named, share)]
  }

  // What the successors of one retirement lack, in their order.
  function SuccessorsLack(change: Obligations, id: string, had: seq<Share>, retirement: string,
          successors: seq<string>): seq<string> {
    if successors == [] then []
    else
      SuccessorsLack(change, id, had, retirement, successors[..|successors| - 1]) +
      SharesLacked(change, id, had, retirement, SuccessorAt(change, id, successors[|successors| - 1]))
  }

  // What the retirements that name an absent obligation lack, in their order.
  function RetirementsLack(change: Obligations, id: string, had: seq<Share>, named: seq<Retirement>): seq<string> {
    if named == [] then []
    else
      var r := named[|named| - 1];
      RetirementsLack(change, id, had, named[..|named| - 1]) + SuccessorsLack(change, id, had, r.id, r.successors)
  }

  function ReasonsOf(base: Obligations, change: Obligations, id: string, named: seq<Retirement>): seq<string> {
    var had := Had(StandingOf(base, id));
    if id in change then FellReasons(base, change, id, SHARES)
    else if named != [] then RetirementsLack(change, id, had, named)
    else if had != [] then [AbsentReason(id, had)] else []
  }

  // The reasons obligation by obligation, each with its retirements in some order.
  function AllReasons(base: Obligations, change: Obligations, ids: seq<string>,
          orders: seq<seq<Retirement>>): seq<string>
    requires |ids| == |orders|
  {
    if ids == [] then []
    else
      var n := |ids| - 1;
      AllReasons(base, change, ids[..n], orders[..n]) + ReasonsOf(base, change, ids[n], orders[n])
  }

  // The retirements that name the obligation, by ID.
  ghost predicate IsNamed(retirements: seq<Retirement>, id: string, named: seq<Retirement>) {
    ByID(named) && forall r :: r in named <==> r in retirements && Names(r, id)
  }

  // The reasons come by obligation ID, and for an absent one by retirement ID.
  ghost predicate ReasonsInOrder(base: Obligations, change: Obligations, retirements: seq<Retirement>,
          ids: seq<string>, orders: seq<seq<Retirement>>, reasons: seq<string>) {
    && |orders| == |ids| && reasons == AllReasons(base, change, ids, orders)
    && forall i | 0 <= i < |ids| && ids[i] !in change :: IsNamed(retirements, ids[i], orders[i])
  }

  lemma {:induction false} ReasonsInOrderNext(base: Obligations, change: Obligations, retirements: seq<Retirement>,
          ids: seq<string>, orders: seq<seq<Retirement>>, reasons: seq<string>, id: string, named: seq<Retirement>)
    requires ReasonsInOrder(base, change, retirements, ids, orders, reasons)
    requires id !in change ==> IsNamed(retirements, id, named)
    ensures ReasonsInOrder(base, change, retirements, ids + [id], orders + [named], reasons + ReasonsOf(base, change, id, named))
  {
    assert (ids + [id])[..|ids|] == ids && (orders + [named])[..|ids|] == orders;
  }

  method LackingShares(change: Obligations, id: string, had: seq<Share>, retirement: Retirement, named: string)
    returns (lacking: seq<string>)
    ensures forall reason :: reason in lacking <==>
      exists share :: share in had && !StandingOf(change, named).Has(share) && reason == RetiredReason(id, retirement.id, named, share)
    ensures lacking == SharesLacked(change, id, had, retirement.id, named)
  {
    lacking := [];
    for i := 0 to |had|
      invariant lacking == SharesLacked(change, id, had[..i], retirement.id, named)
      invariant forall reason :: reason in lacking <==>
        exists share :: share in had[..i] && !StandingOf(change, named).Has(share) && reason == RetiredReason(id, retirement.id, named, share)
    {
      assert had[..i + 1] == had[..i] + [had[i]];
      assert had[..i + 1][..i] == had[..i];
      if !StandingOf(change, named).Has(had[i]) {
        lacking := lacking + [RetiredReason(id, retirement.id, named, had[i])];
      }
    }
    assert had[..|had|] == had;
  }

  method Lacking(change: Obligations, id: string, had: seq<Share>, retirement: Retirement)
    returns (lacking: seq<string>)
    ensures forall reason :: reason in lacking <==> LackReason(change, id, had, retirement, retirement.successors, reason)
    ensures lacking == SuccessorsLack(change, id, had, retirement.id, retirement.successors)
  {
    lacking := [];
    var successors := retirement.successors;
    for i := 0 to |successors|
      invariant lacking == SuccessorsLack(change, id, had, retirement.id, successors[..i])
      invariant forall reason :: reason in lacking <==> LackReason(change, id, had, retirement, successors[..i], reason)
    {
      var more := LackingShares(change, id, had, retirement, SuccessorAt(change, id, successors[i]));
      assert successors[..i + 1] == successors[..i] + [successors[i]];
      assert successors[..i + 1][..i] == successors[..i];
      forall reason
        ensures reason in lacking + more <==> LackReason(change, id, had, retirement, successors[..i + 1], reason)
      {
        if LackReason(change, id, had, retirement, successors[..i + 1], reason) && !LackReason(change, id, had, retirement, successors[..i], reason) {
          assert reason in more;
        }
      }
      lacking := lacking + more;
    }
    assert successors[..|successors|] == successors;
  }

  // What a followed line was written for.
  datatype Origin = Origin(id: string, retirement: Retirement)

  // Each line once, each from a retirement that is followed, by the obligation's ID and then the retirement's ID.
  ghost predicate InOrder(followed: seq<string>, origins: seq<Origin>) {
    && |followed| == |origins|
    && (forall i | 0 <= i < |followed| :: followed[i] == RetirementLine(origins[i].retirement))
    && (forall i, j | 0 <= i < j < |followed| :: followed[i] != followed[j])
    && (forall i, j | 0 <= i < j < |origins| ::
          Less(origins[i].id, origins[j].id) ||
          (origins[i].id == origins[j].id && !Less(origins[j].retirement.id, origins[i].retirement.id)))
  }

  // The shares an obligation that both commits have fell from.
  method FallenShares(base: Obligations, change: Obligations, id: string) returns (reasons: seq<string>)
    requires id in base && id in change
    ensures forall reason :: reason in reasons <==> exists share :: Fell(base, change, id, share) && reason == FellReason(id, share)
    ensures reasons == FellReasons(base, change, id, SHARES)
  {
    reasons := [];
    for i := 0 to |SHARES|
      invariant reasons == FellReasons(base, change, id, SHARES[..i])
      invariant forall reason :: reason in reasons <==>
        exists share :: share in SHARES[..i] && Fell(base, change, id, share) && reason == FellReason(id, share)
    {
      assert SHARES[..i + 1] == SHARES[..i] + [SHARES[i]];
      assert SHARES[..i + 1][..i] == SHARES[..i];
      if base[id].Has(SHARES[i]) && !change[id].Has(SHARES[i]) {
        reasons := reasons + [FellReason(id, SHARES[i])];
      }
    }
    assert SHARES[..|SHARES|] == SHARES;
    forall share
      ensures share in SHARES
    {
      EveryShareIsListed(share);
    }
  }

  // The shares a standing has, collected in the fixed order.
  method SharesHad(standing: Standing) returns (had: seq<Share>)
    ensures had == Had(standing)
  {
    had := [];
    for i := 0 to |SHARES|
      invariant had == (if i > 0 && standing.designed then [Designed] else []) +
        (if i > 1 && standing.built then [Built] else []) + (if i > 2 && standing.proved then [Proved] else [])
    {
      if standing.Has(SHARES[i]) { had := had + [SHARES[i]]; }
    }
  }

  // The retirements at the change that name the obligation, by ID.
  method NamedBy(retiring: RetirementIndex, id: string, ghost retirements: seq<Retirement>)
    returns (named: seq<Retirement>)
    requires Indexes(retiring, retirements)
    ensures ByID(named)
    ensures forall r :: r in named <==> r in retirements && Names(r, id)
  {
    named := At(retiring, id);
    var cut := Cut(id, "@");
    if cut.found {
      named := named + At(retiring, cut.before);
    }
    named := SortByID(named);
  }

  ghost predicate SomeLack(change: Obligations, id: string, had: seq<Share>, named: seq<Retirement>, reason: string) {
    exists r :: r in named && LackReason(change, id, had, r, r.successors, reason)
  }

  ghost predicate FollowedLine(base: Obligations, change: Obligations, named: seq<Retirement>, id: string,
          line: string) {
    exists r :: r in named && Follows(base, change, r, id) && line == RetirementLine(r)
  }

  lemma LackReasonIsLacks(base: Obligations, change: Obligations, r: Retirement, id: string, reason: string)
    requires id in base && id !in change && Names(r, id)
    ensures LackReason(change, id, Had(base[id]), r, r.successors, reason) <==>
      exists successor, share :: Lacks(base, change, r, id, successor, share) &&
        reason == RetiredReason(id, r.id, SuccessorAt(change, id, successor), share)
  {
    var had := Had(base[id]);
    forall share
      ensures share in had <==> base[id].Has(share)
    {
      HadIsHas(base[id], share);
    }
    if LackReason(change, id, had, r, r.successors, reason) {
      var successor, share :| successor in r.successors && share in had &&
        !StandingOf(change, SuccessorAt(change, id, successor)).Has(share) &&
        reason == RetiredReason(id, r.id, SuccessorAt(change, id, successor), share);
      assert Lacks(base, change, r, id, successor, share);
    }
  }

  lemma NoLackReasonIsFollowed(base: Obligations, change: Obligations, r: Retirement, id: string, lacking: seq<string>)
    requires id in base && id !in change && Names(r, id)
    requires forall reason :: reason in lacking <==> LackReason(change, id, Had(base[id]), r, r.successors, reason)
    ensures lacking == [] <==> Follows(base, change, r, id)
  {
    forall reason
      ensures LackReason(change, id, Had(base[id]), r, r.successors, reason) <==>
        exists successor, share :: Lacks(base, change, r, id, successor, share) &&
          reason == RetiredReason(id, r.id, SuccessorAt(change, id, successor), share)
    {
      LackReasonIsLacks(base, change, r, id, reason);
    }
    if lacking != [] {
      assert lacking[0] in lacking;
    } else {
      forall successor, share
        ensures !Lacks(base, change, r, id, successor, share)
      {
        var reason := RetiredReason(id, r.id, SuccessorAt(change, id, successor), share);
        assert reason !in lacking;
      }
    }
  }

  lemma CausesOfAbsent(base: Obligations, change: Obligations, retirements: seq<Retirement>, named: seq<Retirement>,
          id: string, reason: string)
    requires id in base && id !in change
    requires forall r :: r in named <==> r in retirements && Names(r, id)
    ensures named != [] ==> (SomeLack(change, id, Had(base[id]), named, reason) <==> CauseOf(base, change, retirements, id, reason))
    ensures named == [] ==> (CauseOf(base, change, retirements, id, reason) <==>
                             Had(base[id]) != [] && reason == AbsentReason(id, Had(base[id])))
  {
    if named != [] {
      assert named[0] in named;
      if SomeLack(change, id, Had(base[id]), named, reason) {
        var r :| r in named && LackReason(change, id, Had(base[id]), r, r.successors, reason);
        LackReasonIsLacks(base, change, r, id, reason);
      }
      if CauseOf(base, change, retirements, id, reason) {
        var r, successor, share :| r in retirements && Lacks(base, change, r, id, successor, share) &&
          reason == RetiredReason(id, r.id, SuccessorAt(change, id, successor), share);
        LackReasonIsLacks(base, change, r, id, reason);
        assert r in named;
      }
    } else {
      assert forall r :: r !in named;
    }
  }

  // Handles an ID that is missing in the change by way of its retirements.
  method Absent(base: Obligations, change: Obligations, retiring: RetirementIndex, id: string, followed: seq<string>,
          ghost origins: seq<Origin>, ghost retirements: seq<Retirement>)
    returns (reasons: seq<string>, lines: seq<string>, ghost sources: seq<Origin>, ghost order: seq<Retirement>)
    requires Indexes(retiring, retirements)
    requires id in base && id !in change
    requires InOrder(followed, origins)
    requires forall o | o in origins :: Less(o.id, id)
    ensures forall reason :: reason in reasons <==> CauseOf(base, change, retirements, id, reason)
    ensures IsNamed(retirements, id, order) && reasons == ReasonsOf(base, change, id, order)
    ensures InOrder(lines, sources)
    ensures forall o | o in sources :: o.id == id || o in origins
    ensures forall line :: line in lines <==> line in followed || FollowedLine(base, change, retirements, id, line)
  {
    var had := SharesHad(base[id]);
    var named := NamedBy(retiring, id, retirements);
    order := named;
    forall reason {
      CausesOfAbsent(base, change, retirements, named, id, reason);
    }
    forall line
      ensures FollowedLine(base, change, named, id, line) <==> FollowedLine(base, change, retirements, id, line)
    {
    }
    if |named| == 0 {
      reasons, lines, sources := if |had| > 0 then [AbsentReason(id, had)] else [], followed, origins;
      return;
    }
    reasons, lines, sources := FollowAll(base, change, id, had, named, followed, origins);
  }

  // Follows each retirement that names an absent obligation.
  method FollowAll(base: Obligations, change: Obligations, id: string, had: seq<Share>, named: seq<Retirement>,
          followed: seq<string>, ghost origins: seq<Origin>)
    returns (reasons: seq<string>, lines: seq<string>, ghost sources: seq<Origin>)
    requires id in base && id !in change && had == Had(base[id])
    requires ByID(named) && forall r | r in named :: Names(r, id)
    requires InOrder(followed, origins) && forall o | o in origins :: Less(o.id, id)
    ensures Followed(base, change, id, named, reasons, lines, sources, followed, origins)
  {
    reasons, lines, sources := [], followed, origins;
    for i := 0 to |named|
      invariant Followed(base, change, id, named[..i], reasons, lines, sources, followed, origins)
    {
      var r := named[i];
      assert r in named;
      var lacking := Lacking(change, id, had, r);
      assert named[..i + 1] == named[..i] + [r];
      NoLackReasonIsFollowed(base, change, r, id, lacking);
      FollowedNext(base, change, id, named[..i], reasons, lines, sources, followed, origins, r, lacking);
      if |lacking| == 0 && RetirementLine(r) !in lines {
        lines := lines + [RetirementLine(r)];
        sources := sources + [Origin(id, r)];
      }
      reasons := reasons + lacking;
    }
    assert named[..|named|] == named;
  }

  // What the retirements so far came to.
  ghost predicate Followed(base: Obligations, change: Obligations, id: string, named: seq<Retirement>,
          reasons: seq<string>, lines: seq<string>, sources: seq<Origin>, followed: seq<string>, origins: seq<Origin>)
    requires id in base
  {
    && AreLacking(change, id, Had(base[id]), named, reasons)
    && AreLines(base, change, id, named, lines, sources, followed, origins)
  }

  ghost predicate AreLacking(change: Obligations, id: string, had: seq<Share>, named: seq<Retirement>,
          reasons: seq<string>) {
    reasons == RetirementsLack(change, id, had, named) && forall reason :: reason in reasons <==> SomeLack(change, id, had, named, reason)
  }

  ghost predicate AreLines(base: Obligations, change: Obligations, id: string, named: seq<Retirement>,
          lines: seq<string>, sources: seq<Origin>, followed: seq<string>, origins: seq<Origin>) {
    && InOrder(lines, sources)
    && (forall o | o in sources :: o in origins || (o.id == id && o.retirement in named))
    && (forall line :: line in lines <==> line in followed || FollowedLine(base, change, named, id, line))
  }

  lemma {:induction false} LackingNext(change: Obligations, id: string, had: seq<Share>, named: seq<Retirement>,
          reasons: seq<string>, r: Retirement, lacking: seq<string>)
    requires AreLacking(change, id, had, named, reasons)
    requires forall reason :: reason in lacking <==> LackReason(change, id, had, r, r.successors, reason)
    requires lacking == SuccessorsLack(change, id, had, r.id, r.successors)
    ensures AreLacking(change, id, had, named + [r], reasons + lacking)
  {
    assert (named + [r])[..|named|] == named;
    forall reason
      ensures SomeLack(change, id, had, named + [r], reason) <==>
        SomeLack(change, id, had, named, reason) || LackReason(change, id, had, r, r.successors, reason)
    {
      if LackReason(change, id, had, r, r.successors, reason) { assert r in named + [r]; }
    }
  }

  lemma {:induction false} LineNext(base: Obligations, change: Obligations, id: string, named: seq<Retirement>,
          r: Retirement)
    ensures forall line :: FollowedLine(base, change, named + [r], id, line) <==>
      FollowedLine(base, change, named, id, line) || (Follows(base, change, r, id) && line == RetirementLine(r))
  {
    forall line
      ensures FollowedLine(base, change, named + [r], id, line) <==>
        FollowedLine(base, change, named, id, line) || (Follows(base, change, r, id) && line == RetirementLine(r))
    {
      if Follows(base, change, r, id) && line == RetirementLine(r) { assert r in named + [r]; }
    }
  }

  lemma {:induction false} LinesNext(base: Obligations, change: Obligations, id: string, named: seq<Retirement>,
          lines: seq<string>, sources: seq<Origin>, followed: seq<string>, origins: seq<Origin>, r: Retirement)
    requires ByID(named + [r]) && forall o | o in origins :: Less(o.id, id)
    requires AreLines(base, change, id, named, lines, sources, followed, origins)
    ensures
      var adds := Follows(base, change, r, id) && RetirementLine(r) !in lines;
      AreLines(base, change, id, named + [r], if adds then lines + [RetirementLine(r)] else lines,
               if adds then sources + [Origin(id, r)] else sources, followed, origins)
  {
    LineNext(base, change, id, named, r);
    if Follows(base, change, r, id) && RetirementLine(r) !in lines { InOrderNext(lines, sources, named, id, origins, r); }
  }

  lemma {:induction false} FollowedNext(base: Obligations, change: Obligations, id: string, named: seq<Retirement>,
          reasons: seq<string>, lines: seq<string>, sources: seq<Origin>, followed: seq<string>, origins: seq<Origin>,
          r: Retirement, lacking: seq<string>)
    requires id in base
    requires ByID(named + [r]) && forall o | o in origins :: Less(o.id, id)
    requires Followed(base, change, id, named, reasons, lines, sources, followed, origins)
    requires forall reason :: reason in lacking <==> LackReason(change, id, Had(base[id]), r, r.successors, reason)
    requires lacking == SuccessorsLack(change, id, Had(base[id]), r.id, r.successors)
    requires lacking == [] <==> Follows(base, change, r, id)
    ensures
      var adds := lacking == [] && RetirementLine(r) !in lines;
      Followed(base, change, id, named + [r], reasons + lacking, if adds then lines + [RetirementLine(r)] else lines,
               if adds then sources + [Origin(id, r)] else sources, followed, origins)
  {
    LackingNext(change, id, Had(base[id]), named, reasons, r, lacking);
    LinesNext(base, change, id, named, lines, sources, followed, origins, r);
  }

  lemma {:induction false} InOrderNext(lines: seq<string>, sources: seq<Origin>, named: seq<Retirement>, id: string,
          origins: seq<Origin>, r: Retirement)
    requires InOrder(lines, sources) && RetirementLine(r) !in lines
    requires ByID(named + [r]) && forall o | o in origins :: Less(o.id, id)
    requires forall o | o in sources :: o in origins || (o.id == id && o.retirement in named)
    ensures InOrder(lines + [RetirementLine(r)], sources + [Origin(id, r)])
  {
    forall i | 0 <= i < |sources|
      ensures Less(sources[i].id, id) || (sources[i].id == id && !Less(r.id, sources[i].retirement.id))
    {
      assert sources[i] in sources;
      if sources[i] !in origins {
        var k :| 0 <= k < |named| && named[k] == sources[i].retirement;
        assert (named + [r])[k] == named[k] && (named + [r])[|named|] == r;
      }
    }
  }

  ghost predicate CauseAmong(base: Obligations, change: Obligations, retirements: seq<Retirement>, ids: seq<string>,
          reason: string) {
    exists id :: id in ids && CauseOf(base, change, retirements, id, reason)
  }

  ghost predicate ReportedAmong(base: Obligations, change: Obligations, retirements: seq<Retirement>, ids: seq<string>,
          line: string) {
    exists id :: id in ids && id in base && id !in change && FollowedLine(base, change, retirements, id, line)
  }

  lemma CauseAmongNext(base: Obligations, change: Obligations, retirements: seq<Retirement>, ids: seq<string>,
          id: string)
    ensures forall reason :: CauseAmong(base, change, retirements, ids + [id], reason) <==>
      CauseAmong(base, change, retirements, ids, reason) || CauseOf(base, change, retirements, id, reason)
    ensures forall line :: ReportedAmong(base, change, retirements, ids + [id], line) <==>
      ReportedAmong(base, change, retirements, ids, line) ||
      (id in base && id !in change && FollowedLine(base, change, retirements, id, line))
  {
  }

  lemma CauseAmongAll(base: Obligations, change: Obligations, retirements: seq<Retirement>, ids: seq<string>)
    requires SortedListOf(ids, base.Keys)
    ensures forall reason :: CauseAmong(base, change, retirements, ids, reason) <==> Cause(base, change, retirements, reason)
    ensures forall line :: ReportedAmong(base, change, retirements, ids, line) <==> Reported(base, change, retirements, line)
  {
    forall line | Reported(base, change, retirements, line)
      ensures ReportedAmong(base, change, retirements, ids, line)
    {
      var r, id :| r in retirements && Follows(base, change, r, id) && line == RetirementLine(r);
      assert FollowedLine(base, change, retirements, id, line);
    }
  }

  // No obligation falls: the reason for each way the change breaks the ratchet, and the retirements it follows.
  method HoldsRatchet(base: Obligations, change: Obligations, retirements: seq<Retirement>)
    returns (reasons: seq<string>, followed: seq<string>, ghost origins: seq<Origin>, ghost orders: seq<seq<Retirement>>)
    ensures forall reason :: reason in reasons <==> Cause(base, change, retirements, reason)
    ensures ReasonsInOrder(base, change, retirements, KeysInOrder(base.Keys), orders, reasons)
    ensures reasons == [] <==> Holds(base, change, retirements)
    ensures InOrder(followed, origins)
    ensures forall line :: line in followed <==> Reported(base, change, retirements, line)
  {
    var retiring := IndexRetirements(retirements);
    var ids := SortedKeys(base.Keys);
    reasons, followed, origins, orders := [], [], [], [];
    for i := 0 to |ids|
      invariant JudgedTo(base, change, retirements, ids[..i], reasons, followed, origins, orders)
    {
      assert ids[i] in ids;
      assert ids[..i + 1] == ids[..i] + [ids[i]];
      EarlierIDs(ids, base.Keys, i, origins);
      reasons, followed, origins, orders :=
        JudgeOne(base, change, retirements, retiring, ids[..i], ids[i], reasons, followed, origins, orders);
    }
    assert ids[..|ids|] == ids;
    AllJudged(base, change, retirements, ids, reasons, followed, origins, orders);
  }

  // Judges one more obligation of the base.
  method JudgeOne(base: Obligations, change: Obligations, ghost retirements: seq<Retirement>,
          retiring: RetirementIndex, ghost ids: seq<string>, id: string, before: seq<string>, lines: seq<string>,
          ghost sources: seq<Origin>, ghost named: seq<seq<Retirement>>)
    returns (reasons: seq<string>, followed: seq<string>, ghost origins: seq<Origin>, ghost orders: seq<seq<Retirement>>)
    requires id in base && Indexes(retiring, retirements) && forall o | o in sources :: Less(o.id, id)
    requires JudgedTo(base, change, retirements, ids, before, lines, sources, named)
    ensures JudgedTo(base, change, retirements, ids + [id], reasons, followed, origins, orders)
  {
    if id !in change {
      var more;
      ghost var order;
      more, followed, origins, order := Absent(base, change, retiring, id, lines, sources, retirements);
      JudgedAbsent(base, change, retirements, ids, before, lines, sources, named, id, more, followed, origins, order);
      reasons, orders := before + more, named + [order];
    } else {
      var fallen := FallenShares(base, change, id);
      JudgedPresent(base, change, retirements, ids, before, lines, sources, named, id, fallen);
      reasons, followed, origins, orders := before + fallen, lines, sources, named + [[]];
    }
  }

  lemma {:induction false} AllJudged(base: Obligations, change: Obligations, retirements: seq<Retirement>,
          ids: seq<string>, reasons: seq<string>, followed: seq<string>, origins: seq<Origin>,
          orders: seq<seq<Retirement>>)
    requires SortedListOf(ids, base.Keys) && JudgedTo(base, change, retirements, ids, reasons, followed, origins, orders)
    ensures forall reason :: reason in reasons <==> Cause(base, change, retirements, reason)
    ensures reasons == [] <==> Holds(base, change, retirements)
    ensures forall line :: line in followed <==> Reported(base, change, retirements, line)
  {
    CauseAmongAll(base, change, retirements, ids);
    NoCauseIsHolds(base, change, retirements);
    assert reasons != [] ==> reasons[0] in reasons;
  }

  lemma {:induction false} EarlierIDs(ids: seq<string>, keys: set<string>, i: nat, origins: seq<Origin>)
    requires i < |ids| && SortedListOf(ids, keys) && forall o | o in origins :: o.id in ids[..i]
    ensures forall o | o in origins :: Less(o.id, ids[i])
  {
    forall o | o in origins
      ensures Less(o.id, ids[i])
    {
      var k :| 0 <= k < i && ids[..i][k] == o.id;
      assert ids[k] == o.id;
    }
  }

  // What the obligations so far came to.
  ghost predicate JudgedTo(base: Obligations, change: Obligations, retirements: seq<Retirement>, ids: seq<string>,
          reasons: seq<string>, followed: seq<string>, origins: seq<Origin>, orders: seq<seq<Retirement>>) {
    && ReasonsInOrder(base, change, retirements, ids, orders, reasons)
    && (forall reason :: reason in reasons <==> CauseAmong(base, change, retirements, ids, reason))
    && InOrder(followed, origins) && (forall o | o in origins :: o.id in ids)
    && (forall line :: line in followed <==> ReportedAmong(base, change, retirements, ids, line))
  }

  lemma {:induction false} JudgedAbsent(base: Obligations, change: Obligations, retirements: seq<Retirement>,
          ids: seq<string>, reasons: seq<string>, followed: seq<string>, origins: seq<Origin>,
          orders: seq<seq<Retirement>>, id: string, more: seq<string>, lines: seq<string>, sources: seq<Origin>,
          order: seq<Retirement>)
    requires id in base && id !in change
    requires JudgedTo(base, change, retirements, ids, reasons, followed, origins, orders)
    requires forall reason :: reason in more <==> CauseOf(base, change, retirements, id, reason)
    requires IsNamed(retirements, id, order) && more == ReasonsOf(base, change, id, order)
    requires InOrder(lines, sources) && forall o | o in sources :: o.id == id || o in origins
    requires forall line :: line in lines <==> line in followed || FollowedLine(base, change, retirements, id, line)
    ensures JudgedTo(base, change, retirements, ids + [id], reasons + more, lines, sources, orders + [order])
  {
    CauseAmongNext(base, change, retirements, ids, id);
    ReasonsInOrderNext(base, change, retirements, ids, orders, reasons, id, order);
  }

  lemma {:induction false} JudgedPresent(base: Obligations, change: Obligations, retirements: seq<Retirement>,
          ids: seq<string>, reasons: seq<string>, followed: seq<string>, origins: seq<Origin>,
          orders: seq<seq<Retirement>>, id: string, fallen: seq<string>)
    requires id in base && id in change
    requires JudgedTo(base, change, retirements, ids, reasons, followed, origins, orders)
    requires forall reason :: reason in fallen <==> exists share :: Fell(base, change, id, share) && reason == FellReason(id, share)
    requires fallen == FellReasons(base, change, id, SHARES)
    ensures JudgedTo(base, change, retirements, ids + [id], reasons + fallen, followed, origins, orders + [[]])
  {
    CauseAmongNext(base, change, retirements, ids, id);
    ReasonsInOrderNext(base, change, retirements, ids, orders, reasons, id, []);
  }

  lemma NoCauseIsHolds(base: Obligations, change: Obligations, retirements: seq<Retirement>)
    ensures (forall reason :: !Cause(base, change, retirements, reason)) <==> Holds(base, change, retirements)
  {
    if !Holds(base, change, retirements) {
      if id, share :| Fell(base, change, id, share) {
        assert CauseOf(base, change, retirements, id, FellReason(id, share));
        assert Cause(base, change, retirements, FellReason(id, share));
      } else if id :| Vanished(base, change, retirements, id) {
        assert CauseOf(base, change, retirements, id, AbsentReason(id, Had(base[id])));
        assert Cause(base, change, retirements, AbsentReason(id, Had(base[id])));
      } else {
        var r, id, successor, share :| r in retirements && Lacks(base, change, r, id, successor, share);
        var reason := RetiredReason(id, r.id, SuccessorAt(change, id, successor), share);
        assert CauseOf(base, change, retirements, id, reason);
        assert Cause(base, change, retirements, reason);
      }
    }
  }
}
