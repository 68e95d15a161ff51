/** What holds of every request in every run, whatever the other requests and the environment
    do: how often it is sent, when its guard is armed, what it has written by when. */
module RequestLaws {
  import opened Wrappers
  import opened HttpsRr
  import opened Client
  import opened Machine

  // ---- From one step to whole runs ----

  /** What one event does to one request. */
  lemma NextProc(cfg: Config, s: State, e: Event, id: nat)
    requires id in Next(cfg, s, e).procs
    ensures var n := Next(cfg, s, e);
            && n.clock >= s.clock
            && (id in s.procs ==>
                  || n.procs[id] == s.procs[id]
                  || (e.On? && e.id == id && n.clock == s.clock
                      && n.procs[id] == Step(cfg, s.clock, s.caches, s.procs[id], e.input).1))
            && (id !in s.procs ==> e.Spawn? && e.id == id && n.procs[id] == NewProc(e.request))
  {
  }

  lemma StepRequest(cfg: Config, t: nat, c: Caches, p: Proc, i: Input)
    ensures Step(cfg, t, c, p, i).1.request == p.request
  {
  }

  lemma {:induction false} EveryProc(cfg: Config, s: State, events: seq<Event>, inv: (nat, Proc) -> bool)
    requires forall t, r :: inv(t, NewProc(r))
    requires forall t: nat, u: nat, p :: t <= u && inv(t, p) ==> inv(u, p)
    requires forall t: nat, c, p, i :: inv(t, p) ==> inv(t, Step(cfg, t, c, p, i).1)
    requires forall id | id in s.procs :: inv(s.clock, s.procs[id])
    ensures forall id | id in Run(cfg, s, events).procs ::
              inv(Run(cfg, s, events).clock, Run(cfg, s, events).procs[id])
    decreases |events|
  {
    if events != [] {
      var n := Next(cfg, s, events[0]);
      forall id | id in n.procs
        ensures inv(n.clock, n.procs[id])
      {
        NextProc(cfg, s, events[0], id);
      }
      EveryProc(cfg, n, events[1..], inv);
      assert Run(cfg, s, events) == Run(cfg, n, events[1..]);
    }
  }

  // ---- Origin, body and guard ----

  predicate InAttempt(p: Proc) {
    p.pc.H3? && p.pc.stage.Attempt?
  }

  /** HTTP/3 is entered only when enabled, for an https origin, with a replayable body; the guard
      is armed exactly while an attempt is in flight. */
  predicate Admitted(cfg: Config, p: Proc) {
    && (p.pc.H3? ==> cfg.http3Enabled && OriginOf(p.request.uri) == Some(p.pc.origin)
                     && ReplayableForH3(p.request.payload) == Some(p.pc.body))
    && (p.pc.AltSvcStore? ==> OriginOf(p.request.uri) == Some(p.pc.origin))
    && (p.armed <==> InAttempt(p))
  }

  lemma StepAdmitted(cfg: Config, t: nat, c: Caches, p: Proc, i: Input)
    requires Admitted(cfg, p)
    ensures Admitted(cfg, Step(cfg, t, c, p, i).1)
  {
  }

  // ---- How often a request is sent ----

  /** How many attempts each branch made, how many of them got past stream-open, and how many
      times the request went out over TCP. */
  datatype Tally = Tally(alt: nat, rr: nat, altOpens: nat, rrOpens: nat, tcp: nat)

  function Add(n: Tally, act: Act): Tally {
    match act
    case Attempted(source, _, _, _) => if source.FromAltSvc? then n.(alt := n.alt + 1) else n.(rr := n.rr + 1)
    case Opened(source) => if source.FromAltSvc? then n.(altOpens := n.altOpens + 1) else n.(rrOpens := n.rrOpens + 1)
    case SentTcp(_) => n.(tcp := n.tcp + 1)
    case _ => n
  }

  function TallyOf(trail: seq<Act>): Tally {
    if trail == [] then Tally(0, 0, 0, 0, 0)
    else Add(TallyOf(trail[..|trail| - 1]), trail[|trail| - 1])
  }

  lemma TallySnoc(p: Proc, act: Act)
    ensures TallyOf(p.Does(act).trail) == Add(TallyOf(p.trail), act)
  {
    assert (p.trail + [act])[..|p.trail|] == p.trail;
  }

  predicate PastOpen(phase: Phase) {
    phase.Upload? || phase.Finish? || phase.Headers?
  }

  predicate AtMost(n: Tally, alt: nat, rr: nat, tcp: nat) {
    && n.alt <= alt && n.altOpens <= (if alt == 0 then 0 else 1)
    && n.rr <= rr && n.rrOpens <= (if rr == 0 then 0 else 1)
    && n.tcp == tcp
  }

  /** During attempt `index` of a branch: the earlier ones did not get past stream-open, and the
      current one has exactly when its phase says so. */
  predicate Midway(n: Tally, source: Source, index: nat, phase: Phase) {
    && index < ATTEMPTS
    && AtMost(n, 2, if source.FromAltSvc? then 0 else 2, 0)
    && (if source.FromAltSvc? then n.alt else n.rr) == index + 1
    && (if source.FromAltSvc? then n.altOpens else n.rrOpens) == (if PastOpen(phase) then 1 else 0)
  }

  predicate EndsOpened(p: Proc) {
    p.trail != [] && p.trail[|p.trail| - 1].Opened?
  }

  predicate CountedStage(p: Proc, n: Tally, stage: Stage) {
    match stage
    case NegativeCheck => p.trail == []
    case AltSvcLookup => p.trail == []
    case HttpsRrLookup => AtMost(n, 2, 0, 0)
    case HttpsRrAwait(_) => AtMost(n, 2, 0, 0)
    case HttpsRrStore(_) => AtMost(n, 2, 0, 0)
    case Attempt(source, index, _, phase, _) => Midway(n, source, index, phase) && (PastOpen(phase) ==> EndsOpened(p))
    case NegativeWrite(_, then_) => AtMost(n, 2, if then_.ToHttpsRr? then 0 else 2, 0)
    case AltSvcRemove(then_) => AtMost(n, 2, if then_.ToHttpsRr? then 0 else 2, 0)
    case TimeoutStamp => AtMost(n, 2, 2, 0)
  }

  predicate Counted(p: Proc) {
    var n := TallyOf(p.trail);
    match p.pc
    case Created => p.trail == []
    case H3(_, _, stage) => CountedStage(p, n, stage)
    case TcpStart => AtMost(n, 2, 2, 0)
    case TcpAwait(_) => AtMost(n, 2, 2, 1)
    case AltSvcStore(_, _, _, _) => AtMost(n, 2, 2, 1)
    case Finished(outcome, _) =>
      match outcome
      case ViaH3(_) => AtMost(n, 2, 2, 0) && EndsOpened(p)
      case TimedOutInH3 => AtMost(n, 2, 2, 0)
      case ViaTcp(_) => AtMost(n, 2, 2, 1)
      case TimedOutInTcp => AtMost(n, 2, 2, 1)
      case Dropped => AtMost(n, 2, 2, n.tcp) && n.tcp <= 1
  }

  lemma CountedStart(t: nat, p: Proc, source: Source, index: nat, target: Target)
    requires p.pc.H3? && index < ATTEMPTS
    requires AtMost(TallyOf(p.trail), if source.FromAltSvc? then index else 2, if source.FromAltSvc? then 0 else index, 0)
    requires (if source.FromAltSvc? then TallyOf(p.trail).alt else TallyOf(p.trail).rr) == index
    requires (if source.FromAltSvc? then TallyOf(p.trail).altOpens else TallyOf(p.trail).rrOpens) == 0
    ensures Counted(StartAttempt(t, p, source, index, target))
  {
    TallySnoc(p, Attempted(source, index, target, Sent(p.request.uri, p.request.head, H3Payload(p.pc.body))));
  }

  lemma CountedFailed(t: nat, p: Proc)
    requires InAttempt(p) && Counted(p)
    ensures Counted(AttemptFailed(t, p))
  {
    var s := p.pc.stage;
    if s.phase.Open? && s.index == 0 {
      CountedStart(t, LeavePhase(t, p).(armed := false), s.source, 1, s.target);
    }
  }

  lemma CompletedTally(t: nat, p: Proc, response: Response)
    requires InAttempt(p)
    ensures var q := PhaseCompleted(t, p, response);
            if p.pc.stage.phase.Open? then TallyOf(q.trail) == Add(TallyOf(p.trail), Opened(p.pc.stage.source)) && EndsOpened(q)
            else q.trail == p.trail
  {
    var act := Opened(p.pc.stage.source);
    TallySnoc(LeavePhase(t, p), act);
    assert p.pc.stage.phase.Open? ==> PhaseCompleted(t, p, response).trail == LeavePhase(t, p).Does(act).trail;
  }

  lemma CountedCompleted(t: nat, p: Proc, response: Response)
    requires InAttempt(p) && Counted(p)
    ensures Counted(PhaseCompleted(t, p, response))
  {
    CompletedTally(t, p, response);
  }

  lemma InterruptTally(t: nat, p: Proc, byTimeout: bool)
    requires p.pc.H3?
    ensures TallyOf(Interrupt(t, p, byTimeout).trail) == TallyOf(p.trail)
  {
    InterruptTrail(t, p, byTimeout);
    TallySnoc(p, Interrupted(t, p.pc.stage.Attempt?, byTimeout));
  }

  lemma InterruptTrail(t: nat, p: Proc, byTimeout: bool)
    requires p.pc.H3?
    ensures Interrupt(t, p, byTimeout).trail == p.Does(Interrupted(t, p.pc.stage.Attempt?, byTimeout)).trail
  {
  }

  lemma SuspendedTally(p: Proc)
    requires p.pc.H3? && Suspended(p.pc.stage) && Counted(p)
    ensures AtMost(TallyOf(p.trail), 2, 2, 0)
  {
  }

  lemma CountedInterrupt(t: nat, p: Proc, byTimeout: bool)
    requires p.pc.H3? && Suspended(p.pc.stage) && Counted(p)
    ensures Counted(Interrupt(t, p, byTimeout))
  {
    InterruptTally(t, p, byTimeout);
    SuspendedTally(p);
  }

  lemma CountedHttpsRr(t: nat, p: Proc, entry: HttpsRrEntry, cached: bool)
    requires p.pc.H3? && AtMost(TallyOf(p.trail), 2, 0, 0)
    ensures Counted(StartHttpsRr(t, p, entry, cached))
  {
    if entry.hasH3 {
      CountedStart(t, p, FromHttpsRr(entry, cached), 0, HttpsRrTarget(p.pc.origin, entry));
    }
  }

  lemma CountedAltSvc(cfg: Config, t: nat, c: Caches, p: Proc)
    requires p.pc.H3? && p.trail == []
    ensures Counted(CheckAltSvc(cfg, t, c, p).1)
  {
    var entry := LookupAltSvc(cfg, c, p.pc.origin, p.now).1;
    if entry.Some? {
      CountedStart(t, p, FromAltSvc(entry.value), 0, AltSvcTarget(p.pc.origin, entry.value));
    }
  }

  lemma CountedRecord(cfg: Config, c: Caches, p: Proc)
    requires p.pc.H3? && p.pc.stage.NegativeWrite? && Counted(p)
    ensures Counted(RecordFailure(cfg, c, p).1)
  {
    TallySnoc(p, WroteNegative(p.pc.stage.base));
  }

  lemma ForgetTrail(t: nat, c: Caches, p: Proc)
    requires p.pc.H3? && p.pc.stage.AltSvcRemove?
    ensures ForgetAltSvc(t, c, p).1.trail == p.Does(RemovedAltSvc).trail
  {
  }

  lemma ForgetTally(t: nat, c: Caches, p: Proc)
    requires p.pc.H3? && p.pc.stage.AltSvcRemove?
    ensures TallyOf(ForgetAltSvc(t, c, p).1.trail) == TallyOf(p.trail)
  {
    ForgetTrail(t, c, p);
    TallySnoc(p, RemovedAltSvc);
  }

  lemma CountedForget(t: nat, c: Caches, p: Proc)
    requires p.pc.H3? && p.pc.stage.AltSvcRemove? && Counted(p)
    ensures Counted(ForgetAltSvc(t, c, p).1)
  {
    ForgetTally(t, c, p);
  }

  lemma CountedProceeds(cfg: Config, t: nat, c: Caches, p: Proc)
    requires p.pc.H3? && Counted(p)
    ensures Counted(Proceeds(cfg, t, c, p).1)
  {
    match p.pc.stage
    case AltSvcLookup => CountedAltSvc(cfg, t, c, p);
    case HttpsRrLookup =>
      var entry := LookupHttpsRr(cfg, c, p.pc.origin, p.now).1;
      if entry.Some? {
        CountedHttpsRr(t, p, entry.value, true);
      }
    case HttpsRrStore(entry) => CountedHttpsRr(t, p, entry, false);
    case NegativeWrite(_, _) => CountedRecord(cfg, c, p);
    case AltSvcRemove(_) => CountedForget(t, c, p);
    case _ =>
  }

  lemma CountedResumes(t: nat, p: Proc, i: Input)
    requires p.pc.H3? && Suspended(p.pc.stage) && Counted(p)
    ensures Counted(Resumes(t, p, i))
  {
    match i
    case PhaseDone(response) => if InAttempt(p) { CountedCompleted(t, p, response); }
    case PhaseFailed => if InAttempt(p) { CountedFailed(t, p); }
    case TimeoutFires => CountedInterrupt(t, p, true);
    case FutureDropped => CountedInterrupt(t, p, false);
    case _ =>
  }

  lemma StepCounted(cfg: Config, t: nat, c: Caches, p: Proc, i: Input)
    requires Counted(p)
    ensures Counted(Step(cfg, t, c, p, i).1)
  {
    match p.pc
    case H3(_, _, stage) =>
      if Suspended(stage) {
        CountedResumes(t, p, i);
      } else {
        CountedProceeds(cfg, t, c, p);
      }
    case TcpStart => CountedTcp(cfg, t, c, p, i);
    case _ => CountedElsewhere(cfg, t, c, p, i);
  }

  lemma CountedTcp(cfg: Config, t: nat, c: Caches, p: Proc, i: Input)
    requires p.pc.TcpStart? && Counted(p)
    ensures Counted(Step(cfg, t, c, p, i).1)
  {
    TallySnoc(p, SentTcp(Sent(p.request.uri, p.request.head, p.request.payload)));
  }

  lemma CountedElsewhere(cfg: Config, t: nat, c: Caches, p: Proc, i: Input)
    requires !p.pc.H3? && !p.pc.TcpStart? && Counted(p)
    ensures Counted(Step(cfg, t, c, p, i).1)
  {
    assert Step(cfg, t, c, p, i).1.trail == p.trail;
  }

  /** Every request in every run makes at most two attempts per discovery branch and one TCP
      send, at most one attempt per branch gets past stream-open, so it is started at most three
      times; an HTTP/3 answer is the last thing it does and rules TCP out; and no attempt
      comes after the second of its branch. */
  lemma BoundedDuplication(cfg: Config, events: seq<Event>, id: nat)
    requires id in Run(cfg, INIT, events).procs
    ensures var p := Run(cfg, INIT, events).procs[id];
            var n := TallyOf(p.trail);
            && n.alt <= 2 && n.rr <= 2 && n.altOpens <= 1 && n.rrOpens <= 1 && n.tcp <= 1
            && n.altOpens + n.rrOpens + n.tcp <= 3
            && (p.pc.Finished? && p.pc.outcome.ViaH3? ==> n.tcp == 0 && EndsOpened(p))
            && (InAttempt(p) ==> p.pc.stage.index < ATTEMPTS)
  {
    var inv := (t: nat, p: Proc) => Counted(p);
    forall t: nat, c, p, i | inv(t, p)
      ensures inv(t, Step(cfg, t, c, p, i).1)
    {
      StepCounted(cfg, t, c, p, i);
    }
    assert forall t: nat, r :: inv(t, NewProc(r));
    EveryProc(cfg, INIT, events, inv);
  }
}
