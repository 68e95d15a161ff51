/** HTTP/3 succeeds: with an offer cached and no trouble on the way, a request is answered over
    HTTP/3 by the response its last await gave, after exactly the awaits of one attempt. */
module SmoothSend {
  import opened Wrappers
  import opened Body
  import opened HttpsRr
  import opened Client
  import opened Machine
  import opened RequestLaws
  import opened RequestPath
  import opened Solo

  /** The awaits of an attempt: an address only if none is known, the upload only of a body. */
  function PhasesOf(addresses: seq<Address>, body: Option<Bytes>): seq<Phase> {
    (if addresses == [] then [Resolve] else []) + [Connect, Setup, Open]
    + (if body.Some? then [Upload] else []) + [Finish, Headers]
  }

  function Elapsed(env: Environment, from: nat, n: nat): nat
    decreases n
  {
    if n == 0 then 0 else env.phase(from).elapsed + Elapsed(env, from + 1, n - 1)
  }

  /** From await `from` on, every phase is done within its limit. */
  predicate Smooth(env: Environment, from: nat, phases: seq<Phase>)
    decreases |phases|
  {
    phases != [] ==>
      && env.phase(from).value.Some?
      && (Limit(phases[0]).Some? ==> env.phase(from).elapsed <= Limit(phases[0]).value)
      && Smooth(env, from + 1, phases[1..])
  }

  /** Nothing cuts the request short by `t`. */
  predicate Patient(env: Environment, p: Proc, t: nat) {
    env.dropAt.None? && (p.request.timeout.Some? ==> t <= p.started + p.request.timeout.value)
  }

  predicate AtPhase(s: Alone, phase: Phase) {
    InAttempt(s.p) && s.p.pc.stage.phase == phase
  }

  lemma PhaseAwaited(env: Environment, s: Alone)
    requires InAttempt(s.p) && env.phase(s.phases).value.Some?
    requires var limit := Limit(s.p.pc.stage.phase); limit.Some? ==> env.phase(s.phases).elapsed <= limit.value
    requires Patient(env, s.p, s.clock + env.phase(s.phases).elapsed)
    ensures Awaited(env, s) == (env.phase(s.phases).elapsed, PhaseDone(env.phase(s.phases).value.value))
  {
  }

  lemma PhaseAdvances(cfg: Config, env: Environment, s: Alone)
    requires InAttempt(s.p) && env.phase(s.phases).value.Some?
    requires Awaited(env, s) == (env.phase(s.phases).elapsed, PhaseDone(env.phase(s.phases).value.value))
    ensures var n := Advance(cfg, env, s); var answer := env.phase(s.phases);
            && n.clock == s.clock + answer.elapsed && n.caches == s.caches && n.phases == s.phases + 1
            && n.p.request == s.p.request && n.p.started == s.p.started
            && if s.p.pc.stage.phase.Headers? then n.p.pc == Finished(ViaH3(answer.value.value), n.clock)
               else AtPhase(n, NextPhase(s.p.pc.stage.phase, s.p.pc.body)) && n.p.pc.body == s.p.pc.body
  {
  }

  /** `phases` are what is left of an attempt that has got to the first of them. */
  predicate Remain(phases: seq<Phase>, body: Option<Bytes>) {
    && phases != [] && phases[|phases| - 1].Headers?
    && forall i | 0 <= i < |phases| - 1 :: !phases[i].Headers? && phases[i + 1] == NextPhase(phases[i], body)
  }

  lemma PhasesRemain(addresses: seq<Address>, body: Option<Bytes>)
    ensures Remain(PhasesOf(addresses, body), body)
    ensures PhasesOf(addresses, body)[0] == if addresses == [] then Resolve else Connect
  {
  }

  /** One await of a smooth attempt. */
  lemma PhaseStep(cfg: Config, env: Environment, a: Alone, s: Alone) returns (n: Alone)
    requires Reaches(cfg, env, a, s) && InAttempt(s.p) && env.phase(s.phases).value.Some?
    requires var limit := Limit(s.p.pc.stage.phase); limit.Some? ==> env.phase(s.phases).elapsed <= limit.value
    requires Patient(env, s.p, s.clock + env.phase(s.phases).elapsed)
    ensures Reaches(cfg, env, a, n)
    ensures n.clock == s.clock + env.phase(s.phases).elapsed && n.caches == s.caches && n.phases == s.phases + 1
    ensures n.p.request == s.p.request && n.p.started == s.p.started
    ensures if s.p.pc.stage.phase.Headers? then n.p.pc == Finished(ViaH3(env.phase(s.phases).value.value), n.clock)
            else AtPhase(n, NextPhase(s.p.pc.stage.phase, s.p.pc.body)) && n.p.pc.body == s.p.pc.body
  {
    PhaseAwaited(env, s);
    PhaseAdvances(cfg, env, s);
    ReachesNext(cfg, env, a, s);
    n := Advance(cfg, env, s);
  }

  lemma RemainTail(phases: seq<Phase>, body: Option<Bytes>)
    requires Remain(phases, body) && |phases| > 1
    ensures Remain(phases[1..], body) && !phases[0].Headers? && phases[1] == NextPhase(phases[0], body)
  {
    assert forall i | 0 <= i < |phases| - 1 :: phases[1..][i] == phases[i + 1];
  }

  lemma {:induction false} SmoothFrom(cfg: Config, env: Environment, a: Alone, s: Alone, phases: seq<Phase>) returns (z: Alone)
    requires Reaches(cfg, env, a, s) && InAttempt(s.p) && Remain(phases, s.p.pc.body) && AtPhase(s, phases[0])
    requires Smooth(env, s.phases, phases) && Patient(env, s.p, s.clock + Elapsed(env, s.phases, |phases|))
    ensures Reaches(cfg, env, a, z) && z.caches == s.caches
    ensures z.phases == s.phases + |phases| && z.clock == s.clock + Elapsed(env, s.phases, |phases|)
    ensures env.phase(z.phases - 1).value.Some?
    ensures z.p.pc == Finished(ViaH3(env.phase(z.phases - 1).value.value), z.clock)
    decreases |phases|
  {
    z := PhaseStep(cfg, env, a, s);
    if |phases| > 1 {
      RemainTail(phases, s.p.pc.body);
      z := SmoothFrom(cfg, env, a, z, phases[1..]);
    }
  }

  /** Up to the first attempt: nothing of this takes any time. */
  lemma Sets(cfg: Config, env: Environment, a: Alone) returns (s: Alone)
    requires cfg.http3Enabled && cfg.evicts && a.p == NewProc(a.p.request)
    requires IsHttps(a.p.request) && !a.p.request.payload.Streaming?
    requires var r := a.p.request; var o := Origin(r.uri.host.value, PortOf(r));
             && (o in a.caches.negative ==> a.caches.negative[o] <= a.clock)
             && o in a.caches.altSvc && a.caches.altSvc[o].expiresAt > a.clock
    ensures Reaches(cfg, env, a, s) && s.clock == a.clock && s.phases == a.phases
    ensures AtPhase(s, Resolve) && s.p.request == a.p.request && s.p.started == a.clock
    ensures s.p.pc.body.Some? <==> a.p.request.payload.Replayable?
    ensures s.caches.altSvc == a.caches.altSvc && s.caches.httpsRr == a.caches.httpsRr
  {
    ReachesSelf(cfg, env, a);
    ReachesNext(cfg, env, a, a);
    var r := a.p.request;
    s := Advance(cfg, env, a);
    assert s == Alone(a.clock, a.caches, a.phases, Begin(cfg, a.clock, a.p));
    s := Looks(cfg, env, a, s);
  }

  lemma Looks(cfg: Config, env: Environment, a: Alone, s: Alone) returns (z: Alone)
    requires cfg.evicts && Reaches(cfg, env, a, s) && s.p.pc.H3? && s.p.pc.stage.NegativeCheck? && s.p.now == s.clock
    requires var o := s.p.pc.origin;
             && (o in s.caches.negative ==> s.caches.negative[o] <= s.clock)
             && o in s.caches.altSvc && s.caches.altSvc[o].expiresAt > s.clock
    ensures Reaches(cfg, env, a, z) && z.clock == s.clock && z.phases == s.phases
    ensures AtPhase(z, Resolve) && z.p.request == s.p.request && z.p.started == s.p.started && z.p.pc.body == s.p.pc.body
    ensures z.caches.altSvc == s.caches.altSvc && z.caches.httpsRr == s.caches.httpsRr
  {
    ReachesNext(cfg, env, a, s);
    z := Advance(cfg, env, s);
    assert z == Alone(s.clock, s.caches.(negative := s.caches.negative - {s.p.pc.origin}), s.phases, s.p.To(AltSvcLookup));
    ReachesNext(cfg, env, a, z);
    z := Advance(cfg, env, z);
  }

  /** HTTP/3 on, an https request whose body can be sent again, no failure remembered, and an
      unexpired offer cached. */
  predicate Ready(cfg: Config, a: Alone) {
    && cfg.http3Enabled && cfg.evicts && a.p == NewProc(a.p.request)
    && IsHttps(a.p.request) && !a.p.request.payload.Streaming?
    && var o := Origin(a.p.request.uri.host.value, PortOf(a.p.request));
       && (o in a.caches.negative ==> a.caches.negative[o] <= a.clock)
       && o in a.caches.altSvc && a.caches.altSvc[o].expiresAt > a.clock
  }

  /** The awaits of its one attempt, written out. */
  function Awaits(r: Request): seq<Phase> {
    if r.payload.Replayable? then [Resolve, Connect, Setup, Open, Upload, Finish, Headers]
    else [Resolve, Connect, Setup, Open, Finish, Headers]
  }

  lemma AwaitsAre(r: Request, body: Option<Bytes>)
    requires body.Some? <==> r.payload.Replayable?
    ensures PhasesOf([], body) == Awaits(r) && Remain(Awaits(r), body) && Awaits(r)[0] == Resolve
  {
    PhasesRemain([], body);
  }

  lemma SmoothRun(cfg: Config, env: Environment, a: Alone) returns (z: Alone)
    requires Ready(cfg, a) && Smooth(env, a.phases, Awaits(a.p.request)) && env.dropAt.None?
    requires a.p.request.timeout.Some? ==> Elapsed(env, a.phases, |Awaits(a.p.request)|) <= a.p.request.timeout.value
    ensures var n := |Awaits(a.p.request)|;
            && Reaches(cfg, env, a, z) && env.phase(a.phases + n - 1).value.Some?
            && z.p.pc == Finished(ViaH3(env.phase(a.phases + n - 1).value.value), z.clock)
            && z.clock == a.clock + Elapsed(env, a.phases, n)
            && z.caches.altSvc == a.caches.altSvc && z.caches.httpsRr == a.caches.httpsRr
  {
    var s := Sets(cfg, env, a);
    AwaitsAre(a.p.request, s.p.pc.body);
    z := SmoothFrom(cfg, env, a, s, Awaits(a.p.request));
  }

  /** If every phase is done within its limit, and the caller's timeout allows, the request ends
      with the response of its last await, in the time the awaits took, and no offer is forgotten. */
  lemma SmoothEnd(cfg: Config, env: Environment, a: Alone, b: Alone)
    requires Ready(cfg, a) && Smooth(env, a.phases, Awaits(a.p.request)) && env.dropAt.None?
    requires a.p.request.timeout.Some? ==> Elapsed(env, a.phases, |Awaits(a.p.request)|) <= a.p.request.timeout.value
    requires Reaches(cfg, env, a, b) && b.p.pc.Finished?
    ensures var n := |Awaits(a.p.request)|;
            && env.phase(a.phases + n - 1).value.Some?
            && b.p.pc.outcome == ViaH3(env.phase(a.phases + n - 1).value.value)
            && b.clock == a.clock + Elapsed(env, a.phases, n)
            && b.caches.altSvc == a.caches.altSvc && b.caches.httpsRr == a.caches.httpsRr
  {
    var z := SmoothRun(cfg, env, a);
    OneEnd(cfg, env, a, b, z);
  }
}
