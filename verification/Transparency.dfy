/** Transparent fallback, against an environment fixed in advance: what TCP will answer and when
    does not depend on what HTTP/3 did before, so the caller gets what a client without HTTP/3
    would get. */
module Transparency {
  import opened Wrappers
  import opened Errors
  import opened Client
  import opened Machine
  import opened RequestLaws
  import opened TimeBound
  import opened Solo

  type TcpSide = Timed<Result<Response, Error>>

  /** What the request comes to over TCP: the answer, unless it takes longer than the timeout. */
  function TcpOutcome(r: Request, tcp: TcpSide): Outcome {
    if r.timeout.Some? && r.timeout.value < tcp.elapsed then TimedOutInTcp else ViaTcp(tcp.value)
  }

  predicate OverTcp(pc: Pc) {
    pc.Finished? && (pc.outcome.ViaTcp? || pc.outcome.TimedOutInTcp?)
  }

  // ---- In any run, among any other requests ----

  /** The events of the request's TCP wait come from `tcp`: the answer after its time, and a
      timeout at its instant when there is no answer yet. */
  predicate Serves(s: State, e: Event, id: nat, tcp: TcpSide) {
    e.On? && e.id == id && id in s.procs && s.procs[id].pc.TcpAwait? ==>
      var since, timeout := s.procs[id].pc.since, s.procs[id].request.timeout;
      && (e.input.TcpAnswer? ==> e.input.result == tcp.value && s.clock == since + tcp.elapsed)
      && (e.input.TimeoutFires? && timeout.Some? ==> s.clock == since + timeout.value && s.clock < since + tcp.elapsed)
  }

  predicate Served(cfg: Config, s: State, events: seq<Event>, id: nat, tcp: TcpSide)
    decreases |events|
  {
    events != [] ==> Serves(s, events[0], id, tcp) && Served(cfg, Next(cfg, s, events[0]), events[1..], id, tcp)
  }

  /** Over TCP the request is heading for its outcome. */
  predicate Heading(t: nat, p: Proc, tcp: TcpSide) {
    && (p.pc.TcpAwait? && p.request.timeout.Some? ==> t <= p.pc.since + p.request.timeout.value)
    && (p.pc.AltSvcStore? ==> ViaTcp(Ok(p.pc.response)) == TcpOutcome(p.request, tcp))
    && (OverTcp(p.pc) ==> p.pc.outcome == TcpOutcome(p.request, tcp))
  }

  lemma StepHeading(cfg: Config, t: nat, c: Caches, p: Proc, i: Input, tcp: TcpSide)
    requires Heading(t, p, tcp)
    requires p.pc.TcpAwait? && i.TcpAnswer? ==> i.result == tcp.value && t == p.pc.since + tcp.elapsed
    requires p.pc.TcpAwait? && i.TimeoutFires? && p.request.timeout.Some? ==>
               t == p.pc.since + p.request.timeout.value && t < p.pc.since + tcp.elapsed
    ensures Heading(t, Step(cfg, t, c, p, i).1, tcp)
  {
  }

  lemma {:induction false} RunHeading(cfg: Config, s: State, events: seq<Event>, id: nat, tcp: TcpSide)
    requires Timely(cfg, s, events, id) && Served(cfg, s, events, id, tcp)
    requires id in s.procs ==> Heading(s.clock, s.procs[id], tcp)
    ensures var e := Run(cfg, s, events); id in e.procs ==> Heading(e.clock, e.procs[id], tcp)
    decreases |events|
  {
    if events != [] {
      var e, n := events[0], Next(cfg, s, events[0]);
      if id in n.procs {
        NextProc(cfg, s, e, id);
        if id in s.procs && e.On? && e.id == id {
          StepHeading(cfg, s.clock, s.caches, s.procs[id], e.input, tcp);
        }
      }
      RunHeading(cfg, n, events[1..], id, tcp);
    }
  }

  /** Two clients, with HTTP/3 or without, in whatever runs among whatever other requests: the
      same request, where TCP would answer the same, comes to the same if it comes to TCP. */
  lemma FallbackIsTransparent(cfg: Config, events: seq<Event>, id: nat,
                              other: Config, others: seq<Event>, jd: nat, tcp: TcpSide)
    requires Timely(cfg, INIT, events, id) && Served(cfg, INIT, events, id, tcp)
    requires Timely(other, INIT, others, jd) && Served(other, INIT, others, jd, tcp)
    requires var s, t := Run(cfg, INIT, events), Run(other, INIT, others);
             && id in s.procs && OverTcp(s.procs[id].pc) && jd in t.procs && OverTcp(t.procs[jd].pc)
             && s.procs[id].request == t.procs[jd].request
    ensures var p, q := Run(cfg, INIT, events).procs[id], Run(other, INIT, others).procs[jd];
            p.pc.outcome == q.pc.outcome == TcpOutcome(p.request, tcp)
  {
    RunHeading(cfg, INIT, events, id, tcp);
    RunHeading(other, INIT, others, jd, tcp);
  }

  // ---- A request on its own ----

  /** On its own and never dropped by its caller: heading for its outcome, or timed out. */
  predicate Bound(env: Environment, p: Proc) {
    match p.pc
    case H3(_, _, NegativeWrite(_, then_)) => OwnTimeout(p, then_)
    case H3(_, _, AltSvcRemove(then_)) => OwnTimeout(p, then_)
    case H3(_, _, TimeoutStamp) => p.request.timeout.Some?
    case AltSvcStore(_, _, _, response) => ViaTcp(Ok(response)) == TcpOutcome(p.request, env.tcp)
    case Finished(outcome, _) =>
      outcome.ViaH3? || (outcome.TimedOutInH3? && p.request.timeout.Some?) || outcome == TcpOutcome(p.request, env.tcp)
    case _ => true
  }

  predicate OwnTimeout(p: Proc, then_: After) {
    then_ != ToDropped && (then_ in {ToTimeoutStamp, ToTimedOut} ==> p.request.timeout.Some?)
  }

  lemma ProceedsBound(cfg: Config, env: Environment, t: nat, c: Caches, p: Proc)
    requires p.pc.H3? && Bound(env, p)
    ensures Bound(env, Proceeds(cfg, t, c, p).1)
  {
  }

  lemma WaitsBound(env: Environment, s: Alone)
    requires env.dropAt.None? && Waits(s.p.pc) && Punctual(s) && Bound(env, s.p)
    ensures var (elapsed, input) := Awaited(env, s);
            && (s.p.pc.H3? ==> Bound(env, Resumes(s.clock + elapsed, s.p, input)))
            && (s.p.pc.TcpAwait? && input.TcpAnswer? ==> ViaTcp(input.result) == TcpOutcome(s.p.request, env.tcp))
            && (s.p.pc.TcpAwait? && input.TimeoutFires? ==> TimedOutInTcp == TcpOutcome(s.p.request, env.tcp))
            && !input.FutureDropped? && Heard(s.p, input)
  {
    AwaitedInTime(env, s);
  }

  lemma AdvanceBound(cfg: Config, env: Environment, s: Alone)
    requires env.dropAt.None? && Punctual(s) && Bound(env, s.p)
    ensures Bound(env, Advance(cfg, env, s).p) && Punctual(Advance(cfg, env, s))
    ensures Advance(cfg, env, s).p.request == s.p.request
  {
    AdvancePunctual(cfg, env, s);
    if Waits(s.p.pc) {
      WaitsBound(env, s);
      StepRequest(cfg, s.clock + Awaited(env, s).0, s.caches, s.p, Awaited(env, s).1);
    } else {
      if s.p.pc.H3? {
        ProceedsBound(cfg, env, s.clock, s.caches, s.p);
      }
      StepRequest(cfg, s.clock, s.caches, s.p, Proceed);
    }
  }

  lemma ReachedBound(cfg: Config, env: Environment, a: Alone, b: Alone)
    requires env.dropAt.None? && Punctual(a) && Bound(env, a.p) && Reaches(cfg, env, a, b)
    ensures Bound(env, b.p) && b.p.request == a.p.request
  {
    var inv := (s: Alone) => Punctual(s) && Bound(env, s.p) && s.p.request == a.p.request;
    forall s: Alone | inv(s)
      ensures inv(Advance(cfg, env, s))
    {
      AdvanceBound(cfg, env, s);
    }
    ReachedKeeps(cfg, env, a, b, inv);
  }

  /** A client without HTTP/3 does come to the TCP outcome, from any caches, at any time. */
  lemma PlainEnd(cfg: Config, env: Environment, a: Alone) returns (b: Alone)
    requires !cfg.http3Enabled && env.dropAt.None? && a.p == NewProc(a.p.request)
    ensures Reaches(cfg, env, a, b) && b.p.pc.Finished? && b.p.pc.outcome == TcpOutcome(a.p.request, env.tcp)
    ensures b.p.trail == [SentTcp(Sent(a.p.request.uri, a.p.request.head, a.p.request.payload))]
  {
    ReachesSelf(cfg, env, a);
    ReachesNext(cfg, env, a, a);
    b := Advance(cfg, env, a);
    assert b.p.pc == TcpStart && b.p.request == a.p.request && b.p.trail == [];
    b := PlainTcp(cfg, env, a, b);
  }

  lemma PlainTcp(cfg: Config, env: Environment, a: Alone, s: Alone) returns (b: Alone)
    requires Reaches(cfg, env, a, s) && env.dropAt.None? && s.p.pc == TcpStart
    ensures Reaches(cfg, env, a, b) && b.p.pc.Finished? && b.p.pc.outcome == TcpOutcome(s.p.request, env.tcp)
    ensures b.p.trail == s.p.trail + [SentTcp(Sent(s.p.request.uri, s.p.request.head, s.p.request.payload))]
  {
    ReachesNext(cfg, env, a, s);
    b := Advance(cfg, env, s);
    assert b.p.pc == TcpAwait(s.clock) && b.p.request == s.p.request && b.clock == s.clock;
    assert b.p.trail == s.p.trail + [SentTcp(Sent(s.p.request.uri, s.p.request.head, s.p.request.payload))];
    WaitsBound(env, b);
    ReachesNext(cfg, env, a, b);
    b := Advance(cfg, env, b);
    if b.p.pc.AltSvcStore? {
      ReachesNext(cfg, env, a, b);
      b := Advance(cfg, env, b);
    }
  }

  /** With the same environment and no drop, `send` on any client, from any caches and start,
      ends in an HTTP/3 response, an HTTP/3 timeout, or exactly what a client without HTTP/3,
      from whatever caches and start of its own, ends in. */
  lemma SameAsWithoutHttp3(cfg: Config, env: Environment, a: Alone, b: Alone, plain: Config, c: Alone, d: Alone)
    requires env.dropAt.None? && a.p == c.p == NewProc(a.p.request)
    requires Reaches(cfg, env, a, b) && b.p.pc.Finished?
    requires !plain.http3Enabled && Reaches(plain, env, c, d) && d.p.pc.Finished?
    ensures d.p.pc.outcome == TcpOutcome(a.p.request, env.tcp)
    ensures || b.p.pc.outcome.ViaH3?
            || (b.p.pc.outcome.TimedOutInH3? && a.p.request.timeout.Some?)
            || b.p.pc.outcome == d.p.pc.outcome
  {
    ReachedBound(cfg, env, a, b);
    var e := PlainEnd(plain, env, c);
    OneEnd(plain, env, c, d, e);
  }
}
