/** How long HTTP/3 can hold a request back before TCP starts. Timeouts are taken as exact: a
    request does not stay suspended past one, and its own steps take no time. */
module TimeBound {
  import opened HttpsRr
  import opened Client
  import opened Machine
  import opened RequestLaws

  /** Whether the request may still be where it is when the clock reads `t`. */
  predicate MayWait(p: Proc, t: nat) {
    match p.pc
    case Created => true
    case Finished(_, _) => true
    case TcpAwait(since) => p.request.timeout.Some? ==> t <= since + p.request.timeout.value
    case H3(_, _, stage) =>
      Suspended(stage) && WithinLimit(stage, t)
      && (p.request.timeout.Some? ==> t <= p.started + p.request.timeout.value)
    case _ => false
  }

  predicate WithinLimit(stage: Stage, t: nat) {
    match stage
    case Attempt(_, _, _, phase, since) => Limit(phase).Some? ==> t <= since + Limit(phase).value
    case HttpsRrAwait(since) => t <= since + HTTPS_RR_LIMIT
    case _ => true
  }

  predicate Timely(cfg: Config, s: State, events: seq<Event>, id: nat)
    decreases |events|
  {
    events != [] ==>
      && (events[0].Tick? && id in s.procs ==>
            events[0].elapsed == 0 || MayWait(s.procs[id], s.clock + events[0].elapsed))
      && Timely(cfg, Next(cfg, s, events[0]), events[1..], id)
  }

  // ---- The worst still to come ----

  const UPLOAD_LEFT: nat := 500 + 500
  const SECOND_ATTEMPT: nat := 150 + 500 + 500 + 150 + UPLOAD_LEFT
  const BRANCH: nat := 150 + 500 + 500 + 150 + SECOND_ATTEMPT
  const FALLBACK_BOUND: nat := BRANCH + HTTPS_RR_LIMIT + BRANCH

  /** From the start of a phase to the end of its branch, header waiting apart. Stream-open may
      fail into a second attempt or lead on to the upload, but not both. */
  function PhaseLeft(phase: Phase, index: nat): nat {
    var open := 150 + (if index == 0 then SECOND_ATTEMPT else UPLOAD_LEFT);
    match phase
    case Resolve => 150 + 500 + 500 + open
    case Connect => 500 + 500 + open
    case Setup => 500 + open
    case Open => open
    case Upload => UPLOAD_LEFT
    case Finish => 500
    case Headers => 0
  }

  function StageLeft(stage: Stage): nat {
    match stage
    case NegativeCheck => FALLBACK_BOUND
    case AltSvcLookup => FALLBACK_BOUND
    case HttpsRrLookup => HTTPS_RR_LIMIT + BRANCH
    case HttpsRrAwait(_) => HTTPS_RR_LIMIT + BRANCH
    case HttpsRrStore(_) => BRANCH
    case Attempt(source, index, _, phase, _) =>
      PhaseLeft(phase, index) + (if source.FromAltSvc? then HTTPS_RR_LIMIT + BRANCH else 0)
    case NegativeWrite(_, then_) => if then_.ToHttpsRr? then HTTPS_RR_LIMIT + BRANCH else 0
    case AltSvcRemove(then_) => if then_.ToHttpsRr? then HTTPS_RR_LIMIT + BRANCH else 0
    case TimeoutStamp => 0
  }

  /** When the current stage began: now, unless the request is suspended in it. */
  function Since(stage: Stage, t: nat): nat {
    match stage
    case Attempt(_, _, _, _, since) => since
    case HttpsRrAwait(since) => since
    case _ => t
  }

  /** The budget holds: what has been spent and the worst still to come fit the bound. */
  predicate InBudget(t: nat, p: Proc) {
    match p.pc
    case H3(_, _, stage) =>
      Since(stage, t) <= t && WithinLimit(stage, t)
      && Since(stage, t) + StageLeft(stage) <= p.started + FALLBACK_BOUND + p.waited
    case TcpStart => t <= p.started + FALLBACK_BOUND + p.waited
    case _ => true
  }

  lemma BudgetStart(t: nat, p: Proc, source: Source, index: nat, target: Target)
    requires p.pc.H3?
    requires t + StageLeft(Attempt(source, index, target, Resolve, t)) <= p.started + FALLBACK_BOUND + p.waited
    ensures InBudget(t, StartAttempt(t, p, source, index, target))
  {
  }

  lemma BudgetFailed(t: nat, p: Proc)
    requires InAttempt(p) && InBudget(t, p)
    ensures InBudget(t, AttemptFailed(t, p))
  {
    var s := p.pc.stage;
    if s.phase.Open? && s.index == 0 {
      BudgetStart(t, LeavePhase(t, p).(armed := false), s.source, 1, s.target);
    }
  }

  lemma BudgetCompleted(t: nat, p: Proc, response: Response)
    requires InAttempt(p) && InBudget(t, p)
    ensures InBudget(t, PhaseCompleted(t, p, response))
  {
  }

  lemma BudgetInterrupt(t: nat, p: Proc, byTimeout: bool)
    requires p.pc.H3? && Suspended(p.pc.stage) && InBudget(t, p)
    ensures InBudget(t, Interrupt(t, p, byTimeout))
  {
  }

  lemma BudgetHttpsRr(t: nat, p: Proc, entry: HttpsRrEntry, cached: bool)
    requires p.pc.H3? && t + BRANCH <= p.started + FALLBACK_BOUND + p.waited
    ensures InBudget(t, StartHttpsRr(t, p, entry, cached))
  {
  }

  lemma BudgetProceeds(cfg: Config, t: nat, c: Caches, p: Proc)
    requires p.pc.H3? && InBudget(t, p)
    ensures InBudget(t, Proceeds(cfg, t, c, p).1)
  {
    match p.pc.stage
    case AltSvcLookup =>
      var entry := LookupAltSvc(cfg, c, p.pc.origin, p.now).1;
      if entry.Some? {
        BudgetStart(t, p, FromAltSvc(entry.value), 0, AltSvcTarget(p.pc.origin, entry.value));
      }
      assert InBudget(t, CheckAltSvc(cfg, t, c, p).1);
    case HttpsRrLookup =>
      var entry := LookupHttpsRr(cfg, c, p.pc.origin, p.now).1;
      if entry.Some? {
        BudgetHttpsRr(t, p, entry.value, true);
      }
      assert InBudget(t, CheckHttpsRr(cfg, t, c, p).1);
    case HttpsRrStore(entry) => BudgetHttpsRr(t, p, entry, false);
    case _ =>
  }

  lemma StepInBudget(cfg: Config, t: nat, c: Caches, p: Proc, i: Input)
    requires InBudget(t, p)
    ensures InBudget(t, Step(cfg, t, c, p, i).1)
  {
    match p.pc
    case H3(_, _, stage) =>
      if !Suspended(stage) {
        BudgetProceeds(cfg, t, c, p);
      } else {
        match i
        case PhaseDone(response) => if stage.Attempt? { BudgetCompleted(t, p, response); }
        case PhaseFailed => if stage.Attempt? { BudgetFailed(t, p); }
        case TimeoutFires => BudgetInterrupt(t, p, true);
        case FutureDropped => BudgetInterrupt(t, p, false);
        case _ =>
      }
    case _ =>
  }

  /** The time kept apart is exactly the time spent waiting for HTTP/3 response headers. */
  lemma WaitedForHeaders(cfg: Config, t: nat, c: Caches, p: Proc, i: Input)
    requires p.pc.H3? && p.pc.stage.Attempt? ==> p.pc.stage.since <= t
    ensures var q := Step(cfg, t, c, p, i).1;
            q.waited == p.waited + (if AwaitsHeaders(p) && q != p then t - p.pc.stage.since else 0)
  {
  }

  // ---- The caller's own timeout ----

  /** With a timeout `d`: HTTP/3 is left by `started + d`, and TCP gets a fresh `d`. */
  predicate OnTime(t: nat, p: Proc, d: nat) {
    match p.pc
    case Created => true
    case TcpAwait(since) => since <= p.started + d && t <= since + d
    case AltSvcStore(_, _, _, _) => t <= p.started + 2 * d
    case Finished(outcome, at) => outcome.Dropped? || at <= p.started + 2 * d
    case _ => t <= p.started + d
  }

  lemma StepOnTime(cfg: Config, t: nat, c: Caches, p: Proc, i: Input, d: nat)
    requires OnTime(t, p, d)
    ensures OnTime(t, Step(cfg, t, c, p, i).1, d)
  {
  }

  lemma {:induction false} TimelyRun(cfg: Config, s: State, events: seq<Event>, id: nat)
    requires Timely(cfg, s, events, id)
    requires id in s.procs ==>
               InBudget(s.clock, s.procs[id])
               && (s.procs[id].request.timeout.Some? ==> OnTime(s.clock, s.procs[id], s.procs[id].request.timeout.value))
    ensures var e := Run(cfg, s, events);
            id in e.procs ==>
              InBudget(e.clock, e.procs[id])
              && (e.procs[id].request.timeout.Some? ==> OnTime(e.clock, e.procs[id], e.procs[id].request.timeout.value))
    decreases |events|
  {
    if events != [] {
      var n := Next(cfg, s, events[0]);
      if id in n.procs {
        NextProc(cfg, s, events[0], id);
        if id in s.procs && events[0].On? && events[0].id == id {
          StepInBudget(cfg, s.clock, s.caches, s.procs[id], events[0].input);
          StepRequest(cfg, s.clock, s.caches, s.procs[id], events[0].input);
          if s.procs[id].request.timeout.Some? {
            StepOnTime(cfg, s.clock, s.caches, s.procs[id], events[0].input, s.procs[id].request.timeout.value);
          }
        }
      }
      TimelyRun(cfg, n, events[1..], id);
    }
  }

  predicate AwaitsHeaders(p: Proc) {
    InAttempt(p) && p.pc.stage.phase.Headers?
  }

  /** Apart from time spent waiting for HTTP/3 response headers, and unless it is waiting for them
      now, a request is in HTTP/3 or starts TCP at most 7350 ms after it began; and by `2 * d` a
      request with a timeout `d` is over: it is not still running after that, and if it was not
      dropped it ended by then. */
  lemma FallbackIsPrompt(cfg: Config, events: seq<Event>, id: nat)
    requires Timely(cfg, INIT, events, id) && id in Run(cfg, INIT, events).procs
    ensures var e := Run(cfg, INIT, events); var p := e.procs[id];
            && (p.pc.TcpStart? || (p.pc.H3? && !AwaitsHeaders(p)) ==> e.clock <= p.started + 7350 + p.waited)
            && (p.request.timeout.Some? && !p.pc.Created? && !p.pc.Finished? ==>
                  e.clock <= p.started + 2 * p.request.timeout.value)
            && (p.pc.Finished? && !p.pc.outcome.Dropped? && p.request.timeout.Some? ==>
                  p.pc.at <= p.started + 2 * p.request.timeout.value)
  {
    TimelyRun(cfg, INIT, events, id);
  }
}
