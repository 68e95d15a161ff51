/** One request on its own: the machine driven by what its environment does, with every timeout
    exact. This is what the request path as written is proved against. */
module Solo {
  import opened Wrappers
  import opened Errors
  import opened HttpsRr
  import opened Client
  import opened Machine
  import opened RequestLaws
  import opened TimeBound

  /** A value the environment gives after some time. */
  datatype Timed<T> = Timed(elapsed: nat, value: T)

  /** `phase` answers the awaits of HTTP/3 attempts in turn, none meaning failure. The caller
      drops the future at the first suspension that would last beyond `dropAt`. */
  datatype Environment = Environment(phase: nat -> Timed<Option<Response>>,
                                     records: Timed<Option<seq<HttpsRecord>>>,
                                     tcp: Timed<Result<Response, Error>>,
                                     dropAt: Option<nat>)

  datatype Alone = Alone(clock: nat, caches: Caches, phases: nat, p: Proc)

  function Until(clock: nat, instant: nat): nat {
    if clock <= instant then instant - clock else 0
  }

  function Deadline(r: Request, since: nat): Option<nat> {
    match r.timeout
    case Some(d) => Some(since + d)
    case None => None
  }

  /** An await that would end after `elapsed` with `input`, unless the deadline passes or the
      caller gives up before. */
  function Await(clock: nat, deadline: Option<nat>, dropAt: Option<nat>, elapsed: nat, input: Input): (nat, Input) {
    var late := deadline.Some? && deadline.value < clock + elapsed;
    var wait := if late then Until(clock, deadline.value) else elapsed;
    if dropAt.Some? && dropAt.value < clock + wait then (Until(clock, dropAt.value), FutureDropped)
    else if late then (wait, TimeoutFires)
    else (elapsed, input)
  }

  /** `tokio::time::timeout`: the answer if it comes within the limit, else `none` at the limit. */
  function Within(limit: Option<nat>, answer: Timed<Input>, none: Input): (nat, Input) {
    if limit.Some? && limit.value < answer.elapsed then (limit.value, none) else (answer.elapsed, answer.value)
  }

  function PhaseInput(a: Timed<Option<Response>>): Timed<Input> {
    Timed(a.elapsed, if a.value.Some? then PhaseDone(a.value.value) else PhaseFailed)
  }

  predicate Waits(pc: Pc) {
    pc.TcpAwait? || (pc.H3? && Suspended(pc.stage))
  }

  function Awaited(env: Environment, s: Alone): (nat, Input)
    requires Waits(s.p.pc)
  {
    match s.p.pc
    case TcpAwait(since) =>
      Await(s.clock, Deadline(s.p.request, since), env.dropAt, env.tcp.elapsed, TcpAnswer(env.tcp.value))
    case H3(_, _, Attempt(_, _, _, phase, _)) =>
      var (elapsed, input) := Within(Limit(phase), PhaseInput(env.phase(s.phases)), PhaseFailed);
      Await(s.clock, Deadline(s.p.request, s.p.started), env.dropAt, elapsed, input)
    case _ =>
      var answer := Timed(env.records.elapsed, HttpsRrAnswer(env.records.value));
      var (elapsed, input) := Within(Some(HTTPS_RR_LIMIT), answer, HttpsRrAnswer(None));
      Await(s.clock, Deadline(s.p.request, s.p.started), env.dropAt, elapsed, input)
  }

  /** The time limits, one by one: an await that would take longer fails at its limit, and waiting
      for headers has none. */
  lemma LimitsAre(env: Environment, s: Alone)
    requires env.dropAt.None? && s.p.request.timeout.None? && s.p.pc.H3? && Suspended(s.p.pc.stage)
    ensures InAttempt(s.p) ==>
              var answer := env.phase(s.phases); var phase := s.p.pc.stage.phase;
              var late := (phase in {Resolve, Open} && answer.elapsed > 150)
                          || (phase in {Connect, Setup, Upload, Finish} && answer.elapsed > 500);
              && (late ==> Awaited(env, s) == (if phase in {Resolve, Open} then 150 else 500, PhaseFailed))
              && (!late && answer.value.Some? ==> Awaited(env, s) == (answer.elapsed, PhaseDone(answer.value.value)))
              && (!late && answer.value.None? ==> Awaited(env, s) == (answer.elapsed, PhaseFailed))
    ensures s.p.pc.stage.HttpsRrAwait? ==>
              Awaited(env, s) == if env.records.elapsed > 150 then (150, HttpsRrAnswer(None))
                                 else (env.records.elapsed, HttpsRrAnswer(env.records.value))
  {
  }

  /** One wait, or one step of the request's own. */
  function Advance(cfg: Config, env: Environment, s: Alone): Alone {
    if Waits(s.p.pc) then
      var (elapsed, input) := Awaited(env, s);
      var (c, q) := Step(cfg, s.clock + elapsed, s.caches, s.p, input);
      Alone(s.clock + elapsed, c, s.phases + (if InAttempt(s.p) then 1 else 0), q)
    else
      var (c, q) := Step(cfg, s.clock, s.caches, s.p, Proceed);
      Alone(s.clock, c, s.phases, q)
  }

  predicate Linked(cfg: Config, env: Environment, trace: seq<Alone>, i: nat)
    requires i + 1 < |trace|
  {
    trace[i + 1] == Advance(cfg, env, trace[i])
  }

  /** `a` leads through these states to `b`. */
  ghost predicate Leads(cfg: Config, env: Environment, a: Alone, b: Alone, trace: seq<Alone>) {
    && trace != [] && trace[0] == a && trace[|trace| - 1] == b
    && forall i: nat | i + 1 < |trace| :: Linked(cfg, env, trace, i)
  }

  ghost predicate Reaches(cfg: Config, env: Environment, a: Alone, b: Alone) {
    exists trace :: Leads(cfg, env, a, b, trace)
  }

  lemma ReachesSelf(cfg: Config, env: Environment, a: Alone)
    ensures Reaches(cfg, env, a, a)
  {
    assert Leads(cfg, env, a, a, [a]);
  }

  lemma ReachesNext(cfg: Config, env: Environment, a: Alone, b: Alone)
    requires Reaches(cfg, env, a, b)
    ensures Reaches(cfg, env, a, Advance(cfg, env, b))
  {
    var trace :| Leads(cfg, env, a, b, trace);
    LeadsNext(cfg, env, a, b, Advance(cfg, env, b), trace);
  }

  lemma LeadsNext(cfg: Config, env: Environment, a: Alone, b: Alone, c: Alone, trace: seq<Alone>)
    requires Leads(cfg, env, a, b, trace) && c == Advance(cfg, env, b)
    ensures Leads(cfg, env, a, c, trace + [c])
  {
    var more := trace + [c];
    forall i: nat | i + 1 < |more|
      ensures Linked(cfg, env, more, i)
    {
      if i + 1 < |trace| {
        assert Linked(cfg, env, trace, i);
      }
    }
  }

  lemma LeadsBefore(cfg: Config, env: Environment, a: Alone, b: Alone, trace: seq<Alone>)
    requires Leads(cfg, env, a, b, trace) && |trace| > 1
    ensures var n := |trace| - 1; Leads(cfg, env, a, trace[n - 1], trace[..n]) && b == Advance(cfg, env, trace[n - 1])
  {
    var n := |trace| - 1;
    assert Linked(cfg, env, trace, n - 1);
    forall i: nat | i + 1 < n
      ensures Linked(cfg, env, trace[..n], i)
    {
      assert Linked(cfg, env, trace, i);
    }
  }

  /** What every wait and every step keeps, holds of all that is reached. */
  lemma ReachedKeeps(cfg: Config, env: Environment, a: Alone, b: Alone, inv: Alone -> bool)
    requires Reaches(cfg, env, a, b) && inv(a)
    requires forall s | inv(s) :: inv(Advance(cfg, env, s))
    ensures inv(b)
  {
    var trace :| Leads(cfg, env, a, b, trace);
    LedKeeps(cfg, env, a, b, trace, inv);
  }

  lemma {:induction false} LedKeeps(cfg: Config, env: Environment, a: Alone, b: Alone, trace: seq<Alone>, inv: Alone -> bool)
    requires Leads(cfg, env, a, b, trace) && inv(a)
    requires forall s | inv(s) :: inv(Advance(cfg, env, s))
    ensures inv(b)
    decreases |trace|
  {
    if |trace| > 1 {
      LeadsBefore(cfg, env, a, b, trace);
      LedKeeps(cfg, env, a, trace[|trace| - 2], trace[..|trace| - 1], inv);
    }
  }

  lemma {:induction false} SameSoFar(cfg: Config, env: Environment, a: Alone, b: Alone, c: Alone, t: seq<Alone>, u: seq<Alone>, k: nat)
    requires Leads(cfg, env, a, b, t) && Leads(cfg, env, a, c, u) && k < |t| && k < |u|
    ensures t[k] == u[k]
  {
    if k > 0 {
      SameSoFar(cfg, env, a, b, c, t, u, k - 1);
      assert Linked(cfg, env, t, k - 1) && Linked(cfg, env, u, k - 1);
    }
  }

  lemma FinishedRests(cfg: Config, env: Environment, s: Alone)
    requires s.p.pc.Finished?
    ensures Advance(cfg, env, s) == s
  {
  }

  lemma {:induction false} FinishedStays(cfg: Config, env: Environment, a: Alone, c: Alone, u: seq<Alone>, k: nat)
    requires Leads(cfg, env, a, c, u) && k < |u| && u[k].p.pc.Finished?
    ensures c == u[k]
    decreases |u| - k
  {
    if k + 1 < |u| {
      assert Linked(cfg, env, u, k);
      FinishedRests(cfg, env, u[k]);
      FinishedStays(cfg, env, a, c, u, k + 1);
    }
  }

  /** The environment determines the end: a finished state that is reached is the only one. */
  lemma OneEnd(cfg: Config, env: Environment, a: Alone, b: Alone, c: Alone)
    requires Reaches(cfg, env, a, b) && Reaches(cfg, env, a, c)
    requires b.p.pc.Finished? && c.p.pc.Finished?
    ensures b == c
  {
    var t :| Leads(cfg, env, a, b, t);
    var u :| Leads(cfg, env, a, c, u);
    if |t| <= |u| {
      SameSoFar(cfg, env, a, b, c, t, u, |t| - 1);
      FinishedStays(cfg, env, a, c, u, |t| - 1);
    } else {
      SameSoFar(cfg, env, a, b, c, t, u, |u| - 1);
      FinishedStays(cfg, env, a, b, t, |u| - 1);
    }
  }

  // ---- A request on its own is a run of the machine, and a timely one ----

  /** The request is followed in `s` under `id`. */
  predicate Follows(s: State, id: nat, a: Alone) {
    id in s.procs && s.procs[id] == a.p && s.clock == a.clock && s.caches == a.caches
  }

  /** Waits begin now and before the deadline. */
  predicate Punctual(a: Alone) {
    match a.p.pc
    case TcpAwait(since) => since == a.clock
    case H3(_, _, stage) =>
      && (stage.Attempt? ==> stage.since == a.clock)
      && (stage.HttpsRrAwait? ==> stage.since == a.clock)
      && (a.p.request.timeout.Some? ==> a.clock <= a.p.started + a.p.request.timeout.value)
    case _ => true
  }

  function Events(env: Environment, a: Alone, id: nat): seq<Event> {
    if Waits(a.p.pc)
    then [Tick(Awaited(env, a).0), On(id, Awaited(env, a).1)]
    else [On(id, Proceed)]
  }

  /** An input of a kind the request is waiting for. */
  predicate Heard(p: Proc, i: Input)
    requires Waits(p.pc)
  {
    || (i.TimeoutFires? && p.request.timeout.Some?)
    || i.FutureDropped?
    || (if p.pc.TcpAwait? then i.TcpAnswer?
        else if p.pc.stage.Attempt? then i.PhaseDone? || i.PhaseFailed?
        else i.HttpsRrAnswer?)
  }

  lemma AwaitedInTime(env: Environment, a: Alone)
    requires Waits(a.p.pc) && Punctual(a)
    ensures MayWait(a.p, a.clock + Awaited(env, a).0)
    ensures Heard(a.p, Awaited(env, a).1)
  {
  }

  lemma AdvancePunctual(cfg: Config, env: Environment, a: Alone)
    requires Punctual(a)
    ensures Punctual(Advance(cfg, env, a))
  {
    if Waits(a.p.pc) {
      AwaitedInTime(env, a);
      var (elapsed, input) := Awaited(env, a);
      WaitPunctual(cfg, a.clock + elapsed, a.caches, a.p, input);
    } else {
      OwnStepPunctual(cfg, a.clock, a.caches, a.p);
    }
  }

  /** The request is where it should be at `t`. */
  predicate PunctualAt(t: nat, p: Proc) {
    Punctual(Alone(t, EMPTY, 0, p))
  }

  lemma WaitPunctual(cfg: Config, t: nat, c: Caches, p: Proc, i: Input)
    requires Waits(p.pc) && MayWait(p, t) && Heard(p, i)
    ensures PunctualAt(t, Step(cfg, t, c, p, i).1)
  {
  }

  lemma ProceedsPunctual(cfg: Config, t: nat, c: Caches, p: Proc)
    requires p.pc.H3? && !Waits(p.pc) && PunctualAt(t, p)
    ensures PunctualAt(t, Proceeds(cfg, t, c, p).1)
  {
    match p.pc.stage
    case AltSvcLookup => assert PunctualAt(t, CheckAltSvc(cfg, t, c, p).1);
    case HttpsRrLookup => assert PunctualAt(t, CheckHttpsRr(cfg, t, c, p).1);
    case HttpsRrStore(_) => assert PunctualAt(t, KeepHttpsRr(t, c, p).1);
    case AltSvcRemove(_) => assert PunctualAt(t, ForgetAltSvc(t, c, p).1);
    case _ =>
  }

  lemma OwnStepPunctual(cfg: Config, t: nat, c: Caches, p: Proc)
    requires !Waits(p.pc) && PunctualAt(t, p)
    ensures PunctualAt(t, Step(cfg, t, c, p, Proceed).1)
  {
    if p.pc.H3? {
      ProceedsPunctual(cfg, t, c, p);
    }
  }

  lemma AdvanceIsEvents(cfg: Config, env: Environment, s: State, id: nat, a: Alone)
    requires Follows(s, id, a) && Punctual(a)
    ensures Follows(Run(cfg, s, Events(env, a, id)), id, Advance(cfg, env, a))
    ensures Timely(cfg, s, Events(env, a, id), id)
  {
    if Waits(a.p.pc) {
      var (elapsed, input) := Awaited(env, a);
      AwaitedInTime(env, a);
      var n := Next(cfg, s, Tick(elapsed));
      assert [Tick(elapsed), On(id, input)][1..] == [On(id, input)];
      assert [On(id, input)][1..] == [];
      assert Run(cfg, s, [Tick(elapsed), On(id, input)]) == Next(cfg, n, On(id, input)) by {
        assert Run(cfg, n, [On(id, input)]) == Next(cfg, n, On(id, input));
      }
    } else {
      assert [On(id, Proceed)][1..] == [];
    }
  }

  lemma {:induction false} TimelyConcat(cfg: Config, s: State, a: seq<Event>, b: seq<Event>, id: nat)
    requires Timely(cfg, s, a, id) && Timely(cfg, Run(cfg, s, a), b, id)
    ensures Timely(cfg, s, a + b, id)
    decreases |a|
  {
    if a == [] {
      assert a + b == b;
    } else {
      assert (a + b)[0] == a[0] && (a + b)[1..] == a[1..] + b;
      TimelyConcat(cfg, Next(cfg, s, a[0]), a[1..], b, id);
    }
  }

  /** What a request on its own reaches, it reaches in a run that keeps to the timeouts: whatever
      holds of every such run holds of it. */
  lemma {:induction false} LedIsARun(cfg: Config, env: Environment, s: State, id: nat, a: Alone, b: Alone, trace: seq<Alone>)
    returns (events: seq<Event>)
    requires Follows(s, id, a) && Punctual(a) && Leads(cfg, env, a, b, trace)
    ensures Follows(Run(cfg, s, events), id, b) && Punctual(b)
    ensures Timely(cfg, s, events, id)
    decreases |trace|
  {
    if |trace| == 1 {
      events := [];
    } else {
      var m := trace[|trace| - 2];
      LeadsBefore(cfg, env, a, b, trace);
      var before := LedIsARun(cfg, env, s, id, a, m, trace[..|trace| - 1]);
      AdvanceIsEvents(cfg, env, Run(cfg, s, before), id, m);
      AdvancePunctual(cfg, env, m);
      events := before + Events(env, m, id);
      RunConcat(cfg, s, before, Events(env, m, id));
      TimelyConcat(cfg, s, before, Events(env, m, id), id);
    }
  }

  /** A client with these caches and this one request. */
  function Only(a: Alone): State {
    State(a.clock, a.caches, map[0 := a.p], map[], map[], {})
  }

  lemma ReachedInRun(cfg: Config, env: Environment, a: Alone, b: Alone) returns (events: seq<Event>)
    requires Punctual(a) && Reaches(cfg, env, a, b)
    ensures Follows(Run(cfg, Only(a), events), 0, b) && Timely(cfg, Only(a), events, 0)
  {
    var trace :| Leads(cfg, env, a, b, trace);
    events := LedIsARun(cfg, env, Only(a), 0, a, b, trace);
  }

  /** So a request with a timeout `d` is over within `2 * d`: it is not found running later, and
      unless its caller drops it, it ended by then. */
  lemma AloneInTime(cfg: Config, env: Environment, a: Alone, b: Alone)
    requires a.p.pc.Created? && Reaches(cfg, env, a, b) && b.p.request.timeout.Some?
    ensures var limit := b.p.started + 2 * b.p.request.timeout.value;
            && (!b.p.pc.Created? && !b.p.pc.Finished? ==> b.clock <= limit)
            && (b.p.pc.Finished? && !b.p.pc.outcome.Dropped? ==> b.p.pc.at <= limit)
  {
    var events := ReachedInRun(cfg, env, a, b);
    TimelyRun(cfg, Only(a), events, 0);
  }
}
