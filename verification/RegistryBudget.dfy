// internal/appbuild/image_registry_transport.go: the request count and the byte budget that the responses of one
// registry connection share.
module RegistryBudget {
  import opened Text
  import opened Wrappers

  const INT64 := 0x8000_0000_0000_0000

  // Two's complement, as Go's int64 wraps around.
  function Wrap64(x: int): (r: int)
    ensures -INT64 <= r < INT64
    ensures -INT64 <= x < INT64 ==> r == x
  {
    (x + INT64) % (2 * INT64) - INT64
  }

  const METADATA_LIMIT := 64 * 1024
  const LAYER_LIMIT := 128 * 1024 * 1024 + 1024 * 1024 + 64 * 1024
  const REQUEST_LIMIT := 128

  // ---- Which requests go through, and how much each response may carry ----

  datatype Artifact = Artifact(sha256: string, size: int)

  datatype Boundary = Boundary(
    origin: string, prefix: string, tokens: set<string>, blobs: set<string>, layer: Artifact, config: Artifact, scope: string)

  // An image record is accepted only with these sizes.
  predicate ValidSizes(b: Boundary) {
    1 <= b.layer.size <= LAYER_LIMIT && 1 <= b.config.size <= METADATA_LIMIT
  }

  // The URL and header checks come as one answer, and so does the form of a request body: the scopes in it, or none
  // when it is not a form or is too large.
  datatype Request = Request(
    wellFormed: bool, origin: string, path: string, verb: string, authorized: bool, hasBody: bool,
    scopes: seq<string>, form: Option<seq<string>>)

  predicate Reads(r: Request) {
    r.verb == "GET" || r.verb == "HEAD"
  }

  // The limit of the response by its destination, if the destination is allowed.
  function LimitFor(b: Boundary, r: Request): Option<int> {
    if r.origin == b.origin then
      if HasPrefix(r.path, "/v2/") && r.path != "/v2/" && !HasPrefix(r.path, b.prefix) then None
      else if Reads(r) && r.path == b.prefix + "blobs/sha256:" + b.config.sha256 then Some(b.config.size)
      else if Reads(r) && r.path == b.prefix + "blobs/sha256:" + b.layer.sha256 then Some(b.layer.size)
      else Some(METADATA_LIMIT)
    else if r.origin in b.tokens then
      if r.verb == "GET" || r.verb == "POST" then Some(METADATA_LIMIT) else None
    else if r.origin in b.blobs then
      if Reads(r) && !r.authorized && !r.hasBody then Some(b.layer.size) else None
    else None
  }

  predicate IsToken(b: Boundary, r: Request) {
    r.origin in b.tokens || (r.origin == b.origin && !HasPrefix(r.path, "/v2/"))
  }

  // A token exchange names the selected repository's scope and no other.
  predicate ScopeAllowed(b: Boundary, r: Request) {
    (IsToken(b, r) || r.scopes != []) ==>
    && (r.verb == "POST" ==> r.form.Some?)
    && r.scopes + (if r.verb == "POST" && r.form.Some? then r.form.value else []) == [b.scope]
    && b.scope != ""
  }

  function Admit(b: Boundary, r: Request): Option<int> {
    if !r.wellFormed || !ScopeAllowed(b, r) then None else LimitFor(b, r)
  }

  // The limit of a response, if its body is handed on.
  function Answered(b: Boundary, r: Request, limit: int, status: int, length: int): Option<int> {
    if r.origin in b.blobs && status >= 400 then None
    else
      var final := if 200 <= status < 300 then limit else METADATA_LIMIT;
      if length > final then None else Some(final)
  }

  // No body is allowed more than the layer or the metadata limit, and only the layer more than the metadata limit.
  lemma {:induction false} OnlyTheLayerIsLarge(b: Boundary, r: Request, status: int, length: int)
    requires ValidSizes(b) && Admit(b, r).Some?
    requires Answered(b, r, Admit(b, r).value, status, length).Some?
    ensures var limit := Answered(b, r, Admit(b, r).value, status, length).value;
      && 1 <= limit && (limit <= METADATA_LIMIT || limit == b.layer.size)
      && length <= limit
      && (limit > METADATA_LIMIT ==>
            && 200 <= status < 300 && Reads(r)
            && (r.origin == b.origin ==> r.path == b.prefix + "blobs/sha256:" + b.layer.sha256)
            && (r.origin != b.origin ==> r.origin in b.blobs && !r.authorized && !r.hasBody))
  {
  }

  // ---- One read, in its three steps ----

  // How many bytes a read asks the connection for, unless the body or the budget is spent. It is one byte more
  // than the body has left at most, to notice a body that is too long.
  function Ask(left: int, remaining: int, length: nat): Option<nat> {
    if left < 0 || remaining < 0 then None else Some(if length > left + 1 then left + 1 else length)
  }

  // What the caller gets of the bytes that came.
  function Hand(left: int, remaining: int, n: nat): nat {
    if remaining < 0 || left < 0 then 0 else n
  }

  // The budget that all bodies of the connection share.
  class AtomicInt64 {
    var value: int

    constructor (value: int)
      ensures this.value == value
    {
      this.value := value;
    }

    method Add(delta: int) returns (v: int)
      modifies this
      ensures v == value == Wrap64(old(value) + delta)
    {
      value := Wrap64(value + delta);
      v := value;
    }
  }

  datatype ReadResult = ReadResult(n: nat, failed: bool)

  class RegistryBody {
    var left: int
    const budget: AtomicInt64

    constructor (limit: int, budget: AtomicInt64)
      ensures left == limit && this.budget == budget
    {
      left, this.budget := limit, budget;
    }

    // The connection gives so many bytes of those that it is asked for.
    method Read(length: nat, connection: nat -> nat) returns (result: ReadResult)
      requires forall k :: connection(k) <= k
      modifies this, budget
      ensures length == 0 || Ask(old(left), old(budget.value), length).None? ==>
        left == old(left) && budget.value == old(budget.value) && result == ReadResult(0, length > 0)
      ensures length > 0 && Ask(old(left), old(budget.value), length).Some? ==>
        var n := connection(Ask(old(left), old(budget.value), length).value);
        && left == old(left) - n && budget.value == Wrap64(old(budget.value) - n)
        && result == ReadResult(Hand(left, budget.value, n), left < 0 || budget.value < 0)
    {
      if length == 0 { return ReadResult(0, false); }
      if left < 0 || budget.value < 0 { return ReadResult(0, true); }
      var most := length;
      if most > left + 1 { most := left + 1; }
      var n: int := connection(most);
      left := left - n;
      var remaining := budget.Add(-n);
      if remaining < 0 || left < 0 { return ReadResult(0, true); }
      return ReadResult(n, false);
    }
  }

  function Budget(b: Boundary): int {
    2 * b.layer.size + 4 * 1024 * 1024
  }

  datatype Response = Response(status: int, length: int)

  // The boundary of one connection: its counters are shared by all requests and all bodies.
  class RegistryBoundary {
    const policy: Boundary
    const requests: AtomicInt64
    const remaining: AtomicInt64

    constructor (policy: Boundary)
      ensures this.policy == policy && fresh(requests) && fresh(remaining) && requests != remaining
      ensures requests.value == 0 && remaining.value == Budget(policy)
    {
      this.policy := policy;
      requests := new AtomicInt64(0);
      remaining := new AtomicInt64(Budget(policy));
    }

    // A request that is allowed is counted, and goes on to the registry while the count lasts. The body of an
    // accepted response draws on the connection's budget.
    method RoundTrip(request: Request, base: Request -> Option<Response>) returns (body: RegistryBody?, reached: bool)
      requires requests != remaining
      modifies requests
      ensures Admit(policy, request).None? ==> !reached && requests.value == old(requests.value)
      ensures Admit(policy, request).Some? ==>
        requests.value == Wrap64(old(requests.value) + 1) && (reached <==> requests.value <= REQUEST_LIMIT)
      ensures body != null <==>
        && reached && base(request).Some?
        && Answered(policy, request, Admit(policy, request).value, base(request).value.status, base(request).value.length).Some?
      ensures body != null ==>
        && fresh(body) && body.budget == remaining && remaining.value == old(remaining.value)
        && Some(body.left) ==
             Answered(policy, request, Admit(policy, request).value, base(request).value.status, base(request).value.length)
    {
      var admitted := Admit(policy, request);
      if admitted.None? { return null, false; }
      var count := requests.Add(1);
      if count > REQUEST_LIMIT { return null, false; }
      var response := base(request);
      if response.None? { return null, true; }
      var limit := admitted.value;
      if request.origin in policy.blobs && response.value.status >= 400 { return null, true; }
      if response.value.status < 200 || response.value.status >= 300 { limit := METADATA_LIMIT; }
      if response.value.length > limit { return null, true; }
      body := new RegistryBody(limit, remaining);
      reached := true;
    }
  }

  // ---- The connection: requests and reads of any number of callers, step by step ----

  // Where a body's reader stands: between reads; having looked at the budget; having got bytes that it has not yet
  // subtracted from the budget.
  datatype Phase = Idle | Asked(most: nat) | Got(n: nat)

  datatype Body = Body(limit: int, left: int, phase: Phase, delivered: nat)

  datatype State = State(
    requests: int, calls: nat, reached: nat, waiting: seq<Request>, remaining: int, bodies: seq<Body>, delivered: nat)

  datatype Step =
    | Count(request: Request)
    | Answer(k: nat, status: int, length: int)
    | Look(i: nat, room: nat)
    | Fill(i: nat, n: nat)
    | Subtract(i: nat)

  function Init(b: Boundary): State {
    State(0, 0, 0, [], Budget(b), [], 0)
  }

  predicate Enabled(b: Boundary, s: State, step: Step) {
    match step
    case Count(request) => Admit(b, request).Some?
    case Answer(k, _, _) => k < |s.waiting| && Admit(b, s.waiting[k]).Some?
    case Look(i, length) => i < |s.bodies| && s.bodies[i].phase.Idle? && length > 0
    case Fill(i, n) => i < |s.bodies| && s.bodies[i].phase.Asked? && n <= s.bodies[i].phase.most
    case Subtract(i) => i < |s.bodies| && s.bodies[i].phase.Got?
  }

  function Next(b: Boundary, s: State, step: Step): State
    requires Enabled(b, s, step)
  {
    match step
    case Count(request) =>
      var counted := s.(requests := Wrap64(s.requests + 1), calls := s.calls + 1);
      if counted.requests > REQUEST_LIMIT then counted
      else counted.(reached := s.reached + 1, waiting := s.waiting + [request])
    case Answer(k, status, length) =>
      var r := s.waiting[k];
      var limit := Answered(b, r, Admit(b, r).value, status, length);
      var answered := s.(waiting := s.waiting[..k] + s.waiting[k + 1..]);
      if limit.None? then answered else answered.(bodies := s.bodies + [Body(limit.value, limit.value, Idle, 0)])
    case Look(i, length) =>
      var body := s.bodies[i];
      var ask := Ask(body.left, s.remaining, length);
      if ask.None? then s else s.(bodies := s.bodies[i := body.(phase := Asked(ask.value))])
    case Fill(i, n) =>
      var body := s.bodies[i];
      s.(bodies := s.bodies[i := body.(left := body.left - n, phase := Got(n))])
    case Subtract(i) =>
      var body := s.bodies[i];
      var remaining := Wrap64(s.remaining - body.phase.n);
      var n := Hand(body.left, remaining, body.phase.n);
      s.(remaining := remaining, delivered := s.delivered + n,
         bodies := s.bodies[i := body.(phase := Idle, delivered := body.delivered + n)])
  }

  // A read that no other step comes between is the three steps.
  lemma {:induction false} ReadIsThreeSteps(b: Boundary, s: State, i: nat, length: nat, n: nat)
    requires i < |s.bodies| && s.bodies[i].phase.Idle? && length > 0
    requires Ask(s.bodies[i].left, s.remaining, length).Some? && n <= Ask(s.bodies[i].left, s.remaining, length).value
    ensures var looked := Next(b, s, Look(i, length));
      && Enabled(b, looked, Fill(i, n))
      && var filled := Next(b, looked, Fill(i, n));
      && Enabled(b, filled, Subtract(i))
      && var read := Next(b, filled, Subtract(i));
      && read.bodies[i].left == s.bodies[i].left - n && read.remaining == Wrap64(s.remaining - n)
      && read.delivered == s.delivered + Hand(read.bodies[i].left, read.remaining, n)
  {
  }

  ghost predicate Steps(b: Boundary, s: State, t: State) {
    exists step :: Enabled(b, s, step) && Next(b, s, step) == t
  }

  ghost predicate StepsAt(b: Boundary, states: seq<State>, i: nat)
    requires i + 1 < |states|
  {
    Steps(b, states[i], states[i + 1])
  }

  ghost predicate Run(b: Boundary, states: seq<State>) {
    && states != [] && states[0] == Init(b)
    && forall i | 0 <= i < |states| - 1 :: StepsAt(b, states, i)
  }

  // ---- What every state of every run keeps ----

  // The bytes that a body's reader got and has not yet subtracted.
  function Pending(body: Body): nat {
    match body.phase
    case Got(n) => n
    case _ => 0
  }

  // The bytes of the body that were subtracted from the budget.
  function Subtracted(body: Body): int {
    body.limit - body.left - Pending(body)
  }

  function SubtractedOf(bodies: seq<Body>): int {
    if bodies == [] then 0 else Subtracted(bodies[0]) + SubtractedOf(bodies[1..])
  }

  function DeliveredOf(bodies: seq<Body>): nat {
    if bodies == [] then 0 else bodies[0].delivered + DeliveredOf(bodies[1..])
  }

  predicate GoodBody(body: Body) {
    && 1 <= body.limit <= LAYER_LIMIT && -1 <= body.left <= body.limit
    && (body.phase.Asked? ==> 0 <= body.left && body.phase.most <= body.left + 1)
    && body.delivered <= body.limit && body.delivered <= Subtracted(body)
  }

  // Nothing that was read is lost while neither the body nor the budget is spent.
  predicate NothingLost(s: State) {
    s.remaining >= 0 ==> forall body | body in s.bodies && body.left >= 0 :: body.delivered == Subtracted(body)
  }

  ghost predicate Good(b: Boundary, s: State) {
    && s.requests == s.calls && s.reached == (if s.calls <= REQUEST_LIMIT then s.calls else REQUEST_LIMIT)
    && |s.bodies| + |s.waiting| <= s.reached
    && (forall r | r in s.waiting :: Admit(b, r).Some?)
    && (forall body | body in s.bodies :: GoodBody(body))
    && s.remaining == Budget(b) - SubtractedOf(s.bodies)
    && s.delivered == DeliveredOf(s.bodies)
    && s.delivered <= Budget(b) && s.delivered <= SubtractedOf(s.bodies)
    && NothingLost(s)
  }

  lemma {:induction false} SubtractedIsBounded(bodies: seq<Body>)
    requires forall body | body in bodies :: GoodBody(body)
    ensures 0 <= SubtractedOf(bodies) <= |bodies| * (LAYER_LIMIT + 1)
  {
    if bodies != [] {
      assert GoodBody(bodies[0]);
      SubtractedIsBounded(bodies[1..]);
    }
  }

  lemma {:induction false} SumsUpdate(bodies: seq<Body>, i: nat, body: Body)
    requires i < |bodies|
    ensures SubtractedOf(bodies[i := body]) == SubtractedOf(bodies) - Subtracted(bodies[i]) + Subtracted(body)
    ensures DeliveredOf(bodies[i := body]) == DeliveredOf(bodies) - bodies[i].delivered + body.delivered
    decreases i
  {
    if i > 0 {
      SumsUpdate(bodies[1..], i - 1, body);
      assert bodies[i := body][1..] == bodies[1..][i - 1 := body];
    } else {
      assert bodies[i := body][1..] == bodies[1..];
    }
  }

  lemma {:induction false} SumsGrow(bodies: seq<Body>, body: Body)
    ensures SubtractedOf(bodies + [body]) == SubtractedOf(bodies) + Subtracted(body)
    ensures DeliveredOf(bodies + [body]) == DeliveredOf(bodies) + body.delivered
  {
    if bodies == [] {
      assert [body][1..] == [];
      assert bodies + [body] == [body];
    } else {
      SumsGrow(bodies[1..], body);
      assert (bodies + [body])[1..] == bodies[1..] + [body];
    }
  }

  lemma {:induction false} GoodAfterUpdate(bodies: seq<Body>, i: nat, body: Body)
    requires i < |bodies| && GoodBody(body) && forall x | x in bodies :: GoodBody(x)
    ensures forall x | x in bodies[i := body] :: GoodBody(x)
  {
  }

  lemma {:induction false} CountKeeps(b: Boundary, s: State, request: Request)
    requires Good(b, s) && s.calls + 1 < INT64 && Admit(b, request).Some?
    ensures Good(b, Next(b, s, Count(request)))
  {
  }

  lemma {:induction false} AnswerKeeps(b: Boundary, s: State, step: Step)
    requires step.Answer? && ValidSizes(b) && Good(b, s) && Enabled(b, s, step)
    ensures Good(b, Next(b, s, step))
  {
    var t := Next(b, s, step);
    assert s.waiting[step.k] in s.waiting;
    if |t.bodies| > |s.bodies| {
      OnlyTheLayerIsLarge(b, s.waiting[step.k], step.status, step.length);
      SumsGrow(s.bodies, t.bodies[|s.bodies|]);
    }
  }

  lemma {:induction false} LookKeeps(b: Boundary, s: State, step: Step)
    requires step.Look? && Good(b, s) && Enabled(b, s, step)
    ensures Good(b, Next(b, s, step))
  {
    var t := Next(b, s, step);
    if t != s {
      assert s.bodies[step.i] in s.bodies;
      SumsUpdate(s.bodies, step.i, t.bodies[step.i]);
      GoodAfterUpdate(s.bodies, step.i, t.bodies[step.i]);
    }
  }

  lemma {:induction false} FillKeeps(b: Boundary, s: State, step: Step)
    requires step.Fill? && Good(b, s) && Enabled(b, s, step)
    ensures Good(b, Next(b, s, step))
  {
    var t := Next(b, s, step);
    assert s.bodies[step.i] in s.bodies;
    SumsUpdate(s.bodies, step.i, t.bodies[step.i]);
    GoodAfterUpdate(s.bodies, step.i, t.bodies[step.i]);
  }

  // The budget never wraps around: at most 128 bodies overdraw it, each by no more than its limit and one byte.
  lemma {:induction false} BudgetDoesNotWrap(b: Boundary, s: State, i: nat)
    requires ValidSizes(b) && Good(b, s) && i < |s.bodies| && s.bodies[i].phase.Got?
    ensures Wrap64(s.remaining - s.bodies[i].phase.n) == s.remaining - s.bodies[i].phase.n
  {
    SubtractedIsBounded(s.bodies);
    ManyAreBounded(|s.bodies|);
    assert s.bodies[i] in s.bodies;
    assert s.bodies[i].phase.n <= LAYER_LIMIT + 1;
  }

  lemma {:induction false} ManyAreBounded(n: nat)
    requires n <= REQUEST_LIMIT
    ensures n * (LAYER_LIMIT + 1) <= REQUEST_LIMIT * (LAYER_LIMIT + 1)
  {
  }

  // The body after its reader has subtracted what it got.
  function Finished(body: Body, remaining: int): Body
    requires body.phase.Got?
  {
    body.(phase := Idle, delivered := body.delivered + Hand(body.left, remaining, body.phase.n))
  }

  lemma {:induction false} NothingLostAfter(s: State, t: State, i: nat)
    requires NothingLost(s) && i < |s.bodies| && s.bodies[i].phase.Got? && t.remaining == s.remaining - s.bodies[i].phase.n
    requires t.bodies == s.bodies[i := Finished(s.bodies[i], t.remaining)]
    ensures NothingLost(t)
  {
    if t.remaining >= 0 {
      forall body | body in t.bodies && body.left >= 0
        ensures body.delivered == Subtracted(body)
      {
        if body == t.bodies[i] {
          assert s.bodies[i] in s.bodies;
        } else {
          assert body in s.bodies;
        }
      }
    }
  }

  lemma {:induction false} SubtractKeeps(b: Boundary, s: State, step: Step)
    requires step.Subtract? && ValidSizes(b) && Good(b, s) && Enabled(b, s, step)
    ensures Good(b, Next(b, s, step))
  {
    var t := Next(b, s, step);
    var body := s.bodies[step.i];
    assert body in s.bodies;
    BudgetDoesNotWrap(b, s, step.i);
    var after := Finished(body, t.remaining);
    assert t.bodies == s.bodies[step.i := after];
    assert GoodBody(after);
    SumsUpdate(s.bodies, step.i, after);
    GoodAfterUpdate(s.bodies, step.i, after);
    NothingLostAfter(s, t, step.i);
  }

  lemma {:induction false} StepKeeps(b: Boundary, s: State, step: Step)
    requires ValidSizes(b) && Good(b, s) && Enabled(b, s, step) && Next(b, s, step).calls < INT64
    ensures Good(b, Next(b, s, step))
  {
    match step
    case Count(request) => CountKeeps(b, s, request);
    case Answer(_, _, _) => AnswerKeeps(b, s, step);
    case Look(_, _) => LookKeeps(b, s, step);
    case Fill(_, _) => FillKeeps(b, s, step);
    case Subtract(_) => SubtractKeeps(b, s, step);
  }

  // ---- Over whole runs ----

  lemma {:induction false} RunKeeps(b: Boundary, states: seq<State>, i: nat)
    requires ValidSizes(b) && Run(b, states) && i < |states| && states[i].calls < INT64
    ensures Good(b, states[i])
    decreases i
  {
    if i > 0 {
      assert StepsAt(b, states, i - 1);
      var step :| Enabled(b, states[i - 1], step) && Next(b, states[i - 1], step) == states[i];
      RunKeeps(b, states, i - 1);
      StepKeeps(b, states[i - 1], step);
    }
  }

  lemma {:induction false} DeliveredToEach(bodies: seq<Body>, total: nat)
    requires forall body | body in bodies :: GoodBody(body)
    requires total == DeliveredOf(bodies)
    ensures forall body | body in bodies :: body.delivered <= body.limit && body.delivered <= total
  {
    if bodies != [] {
      assert GoodBody(bodies[0]);
      DeliveredToEach(bodies[1..], DeliveredOf(bodies[1..]));
    }
  }

  // In every interleaving of fewer than 2^63 requests and of any reads: at most 128 requests reach the registry, no
  // body delivers more than its own limit, and all of them together no more than the connection's budget.
  lemma {:induction false} WithinTheBudget(b: Boundary, states: seq<State>, i: nat)
    requires ValidSizes(b) && Run(b, states) && i < |states| && states[i].calls < INT64
    ensures states[i].reached <= REQUEST_LIMIT && |states[i].bodies| <= REQUEST_LIMIT
    ensures forall body | body in states[i].bodies :: body.delivered <= body.limit
    ensures DeliveredOf(states[i].bodies) == states[i].delivered <= Budget(b)
  {
    RunKeeps(b, states, i);
    DeliveredToEach(states[i].bodies, states[i].delivered);
  }

  // No request is refused by the count before 128 went through, and while neither the body nor the budget is spent,
  // every byte that was read and subtracted reached the caller.
  lemma {:induction false} NothingIsWithheld(b: Boundary, states: seq<State>, i: nat)
    requires ValidSizes(b) && Run(b, states) && i < |states| && states[i].calls < INT64
    ensures states[i].calls <= REQUEST_LIMIT ==> states[i].reached == states[i].calls
    ensures states[i].remaining >= 0 ==>
      forall body | body in states[i].bodies && body.left >= 0 :: body.delivered == body.limit - body.left - Pending(body)
  {
    RunKeeps(b, states, i);
  }

  lemma {:induction false} SpentStep(b: Boundary, s: State, step: Step)
    requires ValidSizes(b) && Good(b, s) && Enabled(b, s, step) && s.remaining < 0
    ensures Next(b, s, step).remaining < 0 && Next(b, s, step).delivered == s.delivered
  {
    if step.Subtract? { BudgetDoesNotWrap(b, s, step.i); }
  }

  lemma {:induction false} CallsGrow(b: Boundary, states: seq<State>, j: nat)
    requires Run(b, states) && 0 < j < |states|
    ensures states[j - 1].calls <= states[j].calls
  {
    assert StepsAt(b, states, j - 1);
    var step :| Enabled(b, states[j - 1], step) && Next(b, states[j - 1], step) == states[j];
  }

  lemma {:induction false} SpentBefore(b: Boundary, states: seq<State>, j: nat)
    requires ValidSizes(b) && Run(b, states) && 0 < j < |states| && states[j].calls < INT64
    requires states[j - 1].remaining < 0
    ensures states[j].remaining < 0 && states[j].delivered == states[j - 1].delivered
  {
    CallsGrow(b, states, j);
    RunKeeps(b, states, j - 1);
    assert StepsAt(b, states, j - 1);
    var step :| Enabled(b, states[j - 1], step) && Next(b, states[j - 1], step) == states[j];
    SpentStep(b, states[j - 1], step);
  }

  // Once the budget is spent, no body delivers anything more.
  lemma {:induction false} SpentStaysSpent(b: Boundary, states: seq<State>, i: nat, j: nat)
    requires ValidSizes(b) && Run(b, states) && i <= j < |states| && states[j].calls < INT64
    requires states[i].remaining < 0
    ensures states[j].remaining < 0 && states[j].delivered == states[i].delivered
    decreases j
  {
    if j > i {
      CallsGrow(b, states, j);
      SpentStaysSpent(b, states, i, j - 1);
      SpentBefore(b, states, j);
    }
  }

  // A body that gave more than its limit stays refused.
  lemma {:induction false} OverlongStaysRefused(b: Boundary, s: State, step: Step, i: nat)
    requires Enabled(b, s, step) && i < |s.bodies| && s.bodies[i].left < 0 && s.bodies[i].phase.Idle?
    ensures Next(b, s, step).bodies[i] == s.bodies[i]
  {
  }

  // ---- Beyond 2^63 requests ----

  // How many of the first n requests the counter lets through: it is 64 bits wide, and wraps around.
  ghost function Through(n: nat): nat {
    if n == 0 then 0 else Through(n - 1) + if Wrap64(n) <= REQUEST_LIMIT then 1 else 0
  }

  lemma {:induction false} ThroughAtFirst(n: nat)
    requires n < INT64
    ensures Through(n) == if n <= REQUEST_LIMIT then n else REQUEST_LIMIT
  {
    if n > 0 { ThroughAtFirst(n - 1); }
  }

  lemma {:induction false} ThroughGrows(m: nat, n: nat)
    requires m <= n
    ensures Through(m) <= Through(n)
    decreases n
  {
    if m < n { ThroughGrows(m, n - 1); }
  }

  // The counter holds back all but 128 requests exactly while there are fewer than 2^63: the next one wraps it around.
  lemma {:induction false} ThroughExactly(n: nat)
    ensures Through(n) <= REQUEST_LIMIT <==> n < INT64
  {
    if n < INT64 {
      ThroughAtFirst(n);
    } else {
      OneTooMany(INT64);
      ThroughGrows(INT64, n);
    }
  }

  lemma {:induction false} OneTooMany(n: nat)
    requires n == INT64
    ensures Through(n) == REQUEST_LIMIT + 1
  {
    ThroughAtFirst(n - 1);
    assert Wrap64(n) == -INT64;
  }

  lemma {:induction false} ReachedIsThrough(b: Boundary, states: seq<State>, i: nat)
    requires Run(b, states) && i < |states|
    ensures states[i].requests == Wrap64(states[i].calls) && states[i].reached == Through(states[i].calls)
    decreases i
  {
    if i > 0 {
      assert StepsAt(b, states, i - 1);
      var step :| Enabled(b, states[i - 1], step) && Next(b, states[i - 1], step) == states[i];
      ReachedIsThrough(b, states, i - 1);
      StepCounts(b, states[i - 1], step);
    }
  }

  lemma {:induction false} StepCounts(b: Boundary, s: State, step: Step)
    requires Enabled(b, s, step) && s.requests == Wrap64(s.calls) && s.reached == Through(s.calls)
    ensures var t := Next(b, s, step); t.requests == Wrap64(t.calls) && t.reached == Through(t.calls)
  {
    if step.Count? { WrapOneMore(s.calls); }
  }

  lemma {:induction false} WrapOneMore(n: nat)
    ensures Wrap64(Wrap64(n) + 1) == Wrap64(n + 1)
  {
  }

  // In every run, whatever its interleaving and its sizes, at most 128 requests reach the registry exactly while fewer
  // than 2^63 were made.
  lemma {:induction false} AtMost128Exactly(b: Boundary, states: seq<State>, i: nat)
    requires Run(b, states) && i < |states|
    ensures states[i].reached <= REQUEST_LIMIT <==> states[i].calls < INT64
  {
    ReachedIsThrough(b, states, i);
    ThroughExactly(states[i].calls);
  }

  // A request that is allowed can be made any number of times.
  lemma {:induction false} AnyNumberOfCalls(b: Boundary, request: Request, n: nat)
    requires Admit(b, request).Some?
    ensures exists states: seq<State> :: Run(b, states) && |states| == n + 1 && states[n].calls == n
  {
    if n == 0 {
      assert Run(b, [Init(b)]);
      assert [Init(b)][0].calls == 0;
    } else {
      AnyNumberOfCalls(b, request, n - 1);
      var states: seq<State> :| Run(b, states) && |states| == n && states[n - 1].calls == n - 1;
      OneMoreCall(b, states, request);
    }
  }

  lemma {:induction false} OneMoreCall(b: Boundary, states: seq<State>, request: Request)
    requires Run(b, states) && Admit(b, request).Some?
    ensures var last := states[|states| - 1];
      Run(b, states + [Next(b, last, Count(request))]) && Next(b, last, Count(request)).calls == last.calls + 1
  {
    var last := states[|states| - 1];
    var longer := states + [Next(b, last, Count(request))];
    forall i | 0 <= i < |longer| - 1
      ensures StepsAt(b, longer, i)
    {
      if i < |states| - 1 {
        assert StepsAt(b, states, i);
      } else {
        assert Enabled(b, last, Count(request));
      }
    }
  }

  // So wherever a request is allowed at all, some run lets more than 128 through.
  lemma {:induction false} TheCounterWraps(b: Boundary, request: Request)
    requires Admit(b, request).Some?
    ensures exists states: seq<State> :: Run(b, states) && states[|states| - 1].reached > REQUEST_LIMIT
  {
    AnyNumberOfCalls(b, request, INT64);
    var states: seq<State> :| Run(b, states) && |states| == INT64 + 1 && states[INT64].calls == INT64;
    AtMost128Exactly(b, states, INT64);
  }
}
