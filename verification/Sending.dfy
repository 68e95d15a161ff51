/** The request path as written (src/request.rs, src/http3.rs), one request at a time, proved
    to do what the machine does when driven by the same environment. */
module Sending {
  import opened Wrappers
  import opened Errors
  import opened Body
  import opened AltSvc
  import opened HttpsRr
  import opened Client
  import opened Machine
  import opened RequestLaws
  import opened Solo

  /** An await is over, or the future it belongs to is dropped there. */
  datatype Flow<T> = Resolved(value: T) | Cut(byTimeout: bool)

  datatype AttemptResult = Answered(response: Response) | Failed(error: AttemptError)

  /** What the caller of `send` gets, unless it gave the future up. */
  datatype SendResult = Returned(result: Result<Response, Error>) | GivenUp

  // ---- Where a request goes ----

  /** The same call, now at `pc`. */
  predicate Goes(p: Proc, q: Proc, pc: Pc) {
    q.request == p.request && q.started == p.started && q.now == p.now && q.pc == pc && (q.armed <==> InAttempt(q))
  }

  function CutStage(clock: nat, byTimeout: bool): Stage {
    NegativeWrite(clock, if byTimeout then ToTimeoutStamp else ToDropped)
  }

  /** After an attempt at `p` failed. */
  function FailedStage(clock: nat, p: Proc, error: AttemptError): Stage
    requires InAttempt(p)
  {
    var s := p.pc.stage;
    if error.Stream? && StreamFailureAction(error.retryWithoutH3, s.index).RetryFreshH3?
    then Attempt(s.source, s.index + 1, s.target, FirstPhase(s.target), clock)
    else NegativeWrite(p.now, AfterBranch(s.source))
  }

  function CutPc(clock: nat, p: Proc, byTimeout: bool): Pc
    requires p.pc.H3?
  {
    if byTimeout then p.pc.(stage := TimeoutStamp) else Finished(Dropped, clock)
  }

  function FirstAttempt(clock: nat, source: Source, target: Target): Stage {
    Attempt(source, 0, target, FirstPhase(target), clock)
  }

  function HttpsRrPc(clock: nat, p: Proc, entry: HttpsRrEntry, cached: bool): Pc
    requires p.pc.H3?
  {
    if entry.hasH3
    then p.pc.(stage := FirstAttempt(clock, FromHttpsRr(entry, cached), HttpsRrTarget(p.pc.origin, entry)))
    else TcpStart
  }

  predicate Armed(p: Proc) {
    InAttempt(p) && p.armed && p.pc.stage.index < ATTEMPTS
  }

  const NO_RESPONSE := Response(0, None)

  // What the machine does at each step of the path.

  lemma PhaseGoes(clock: nat, p: Proc, response: Response)
    requires Armed(p)
    ensures var s := p.pc.stage;
            && Goes(p, PhaseCompleted(clock, p, response),
                    if s.phase.Headers? then Finished(ViaH3(response), clock)
                    else p.pc.(stage := s.(phase := NextPhase(s.phase, p.pc.body), since := clock)))
            && Goes(p, AttemptFailed(clock, p), p.pc.(stage := FailedStage(clock, p, FailureOf(s.phase))))
    ensures forall byTimeout :: Goes(p, Interrupt(clock, p, byTimeout), p.pc.(stage := CutStage(clock, byTimeout)))
  {
  }

  /** Where a TCP outcome leads, whatever the request did before. */
  function TcpPc(clock: nat, r: Request, input: Input): Pc {
    match input
    case TcpAnswer(result) => TcpAnswered(clock, NewProc(r), result).pc
    case TimeoutFires => Finished(TimedOutInTcp, clock)
    case _ => Finished(Dropped, clock)
  }

  function TcpInput(r: Flow<Result<Response, Error>>): Input {
    match r
    case Resolved(result) => TcpAnswer(result)
    case Cut(byTimeout) => if byTimeout then TimeoutFires else FutureDropped
  }

  lemma TcpGoes(cfg: Config, env: Environment, s: Alone)
    requires s.p.pc == TcpAwait(s.clock)
    ensures var (elapsed, input) := Awaited(env, s);
            var n := Alone(s.clock + elapsed, s.caches, s.phases, s.p.(pc := TcpPc(s.clock + elapsed, s.p.request, input)));
            Heard(s.p, input) && Advance(cfg, env, s) == n
    ensures var input := Awaited(env, s).1; var timeout := s.p.request.timeout;
            && (input.TcpAnswer? ==> input.result == env.tcp.value)
            && (env.dropAt.None? ==>
                  input == if timeout.Some? && timeout.value < env.tcp.elapsed then TimeoutFires else TcpAnswer(env.tcp.value))
  {
    var (elapsed, input) := Awaited(env, s);
    AwaitedInTime(env, s);
    TcpStep(cfg, s.clock + elapsed, s.caches, s.p, input);
  }

  lemma TcpStep(cfg: Config, t: nat, c: Caches, p: Proc, input: Input)
    requires p.pc.TcpAwait? && Heard(p, input)
    ensures Step(cfg, t, c, p, input) == (c, p.(pc := TcpPc(t, p.request, input)))
  {
    if input.TcpAnswer? {
      var q := TcpAnswered(t, p, input.result);
      assert q == p.(pc := q.pc);
    }
  }

  /** Two steps of the machine are one `insert_negative`. */
  lemma NegativeSteps(cfg: Config, env: Environment, s: Alone)
    requires s.p.pc.H3? && s.p.pc.stage.NegativeWrite? && !s.p.armed
    ensures var n := Advance(cfg, env, Advance(cfg, env, s)); var o := s.p.pc.origin; var stage := s.p.pc.stage;
            && n.clock == s.clock && n.phases == s.phases
            && n.caches == RemoveAltSvc(WriteNegative(cfg, s.caches, o, stage.base), o)
            && Goes(s.p, n.p, Continue(s.clock, s.p, stage.then_).pc)
  {
    var m := Advance(cfg, env, s);
    assert m == Alone(s.clock, WriteNegative(cfg, s.caches, s.p.pc.origin, s.p.pc.stage.base), s.phases,
                      s.p.Does(WroteNegative(s.p.pc.stage.base)).To(AltSvcRemove(s.p.pc.stage.then_)));
  }

  lemma ReachesTwice(cfg: Config, env: Environment, a: Alone, b: Alone)
    requires Reaches(cfg, env, a, b)
    ensures Reaches(cfg, env, a, Advance(cfg, env, Advance(cfg, env, b)))
  {
    ReachesNext(cfg, env, a, b);
    ReachesNext(cfg, env, a, Advance(cfg, env, b));
  }

  /** Drop guard of one attempt. */
  class H3AttemptCancellationGuard {
    const client: ClientInner
    const origin: Origin
    var armed: bool

    constructor (client: ClientInner, origin: Origin)
      ensures armed && this.client == client && this.origin == origin
    {
      this.client := client;
      this.origin := origin;
      armed := true;
    }

    method Disarm()
      modifies this
      ensures !armed
    {
      armed := false;
    }

    method Drop(now: nat)
      modifies client
      ensures client.Contents() ==
              if armed then RemoveAltSvc(WriteNegative(client.config, old(client.Contents()), origin, now), origin)
              else old(client.Contents())
      ensures armed ==>
                && client.negativeCache == old(client.negativeCache)[origin := now + client.config.negativeDuration]
                && client.altSvcCache == old(client.altSvcCache) - {origin}
      ensures !armed ==> client.negativeCache == old(client.negativeCache) && client.altSvcCache == old(client.altSvcCache)
    {
      if armed {
        client.InsertNegative(origin, now);
      }
    }
  }

  /** One call of `send`. `proc` is the machine's view of it. */
  class Exchange {
    const client: ClientInner
    const env: Environment
    const request: Request
    var clock: nat
    var phases: nat
    var deadline: Option<nat>
    ghost var proc: Proc

    constructor (client: ClientInner, env: Environment, request: Request, clock: nat)
      ensures this.client == client && this.env == env && this.request == request && this.clock == clock
      ensures Now() == Alone(clock, client.Contents(), 0, NewProc(request))
    {
      this.client := client;
      this.env := env;
      this.request := request;
      this.clock := clock;
      phases := 0;
      deadline := None;
      proc := NewProc(request);
    }

    ghost function Now(): Alone
      reads this, client
    {
      Alone(clock, client.Contents(), phases, proc)
    }

    /** Within `try_http3`, its timeout running. */
    ghost predicate Within()
      reads this
    {
      proc.pc.H3? && proc.request == request && deadline == Deadline(request, proc.started)
    }

    /** The response is what the environment gave the last await of an attempt. */
    ghost predicate LastHeard(response: Response)
      reads this
    {
      phases > 0 && env.phase(phases - 1).value == Some(response)
    }

    /** One await of an attempt, under its own limit and the timeout of the whole. */
    method AwaitPhase(limit: Option<nat>) returns (r: Flow<Option<Response>>)
      requires Within() && Armed(proc) && limit == Limit(proc.pc.stage.phase)
      modifies this`clock, this`phases, this`proc
      ensures Now() == Advance(client.config, env, old(Now()))
      ensures match r
              case Resolved(Some(response)) => proc == PhaseCompleted(clock, old(proc), response)
              case Resolved(None) => proc == AttemptFailed(clock, old(proc))
              case Cut(byTimeout) => proc == Interrupt(clock, old(proc), byTimeout)
      ensures r.Resolved? && r.value.Some? ==> LastHeard(r.value.value)
    {
      ghost var before := Now();
      var (wait, answer) := Solo.Within(limit, PhaseInput(env.phase(phases)), PhaseFailed);
      var (elapsed, input) := Await(clock, deadline, env.dropAt, wait, answer);
      assert (elapsed, input) == Awaited(env, before);
      clock := clock + elapsed;
      phases := phases + 1;
      proc := Resumes(clock, proc, input);
      if input.PhaseDone? {
        r := Resolved(Some(input.response));
      } else if input.PhaseFailed? {
        r := Resolved(None);
      } else {
        r := Cut(input.TimeoutFires?);
      }
    }

    /** The same, in terms of where it leads. */
    method RunPhase(ghost start: Alone, limit: Option<nat>) returns (r: Flow<Option<Response>>)
      requires Reaches(client.config, env, start, Now())
      requires Within() && Armed(proc) && limit == Limit(proc.pc.stage.phase)
      modifies this`clock, this`phases, this`proc
      ensures Reaches(client.config, env, start, Now())
      ensures var p, s := old(proc), old(proc).pc.stage;
              match r
              case Resolved(Some(response)) =>
                Goes(p, proc, if s.phase.Headers? then Finished(ViaH3(response), clock)
                              else p.pc.(stage := s.(phase := NextPhase(s.phase, p.pc.body), since := clock)))
              case Resolved(None) => Goes(p, proc, p.pc.(stage := FailedStage(clock, p, FailureOf(s.phase))))
              case Cut(byTimeout) => Goes(p, proc, p.pc.(stage := CutStage(clock, byTimeout)))
      ensures r.Resolved? && r.value.Some? ==> LastHeard(r.value.value)
    {
      ghost var before := Now();
      r := AwaitPhase(limit);
      ReachesNext(client.config, env, start, before);
      PhaseGoes(clock, before.p, if r.Resolved? && r.value.Some? then r.value.value else NO_RESPONSE);
    }

    /** `connection` of src/http3.rs: find an address, connect, set up. */
    method Connection(ghost start: Alone, target: Target) returns (r: Flow<bool>)
      requires Reaches(client.config, env, start, Now())
      requires Within() && Armed(proc) && proc.pc.stage.target == target && proc.pc.stage.phase == FirstPhase(target)
      modifies this`clock, this`phases, this`proc
      ensures Reaches(client.config, env, start, Now())
      ensures var p := old(proc);
              match r
              case Resolved(true) => Goes(p, proc, p.pc.(stage := p.pc.stage.(phase := Open, since := clock)))
              case Resolved(false) => Goes(p, proc, p.pc.(stage := FailedStage(clock, p, Handshake)))
              case Cut(byTimeout) => Goes(p, proc, p.pc.(stage := CutStage(clock, byTimeout)))
    {
      if target.addresses == [] {
        var address := RunPhase(start, Some(150));
        if address.Cut? {
          return Cut(address.byTimeout);
        } else if address.value.None? {
          return Resolved(false);
        }
      }
      var connecting := RunPhase(start, Some(500));
      if connecting.Cut? {
        return Cut(connecting.byTimeout);
      } else if connecting.value.None? {
        return Resolved(false);
      }
      var setup := RunPhase(start, Some(500));
      return if setup.Cut? then Cut(setup.byTimeout) else Resolved(setup.value.Some?);
    }

    /** `request` of src/http3.rs: one attempt, phase by phase. */
    method Http3Request(ghost start: Alone, target: Target, body: Option<Bytes>) returns (r: Flow<AttemptResult>)
      requires Reaches(client.config, env, start, Now())
      requires Within() && Armed(proc) && proc.pc.body == body
      requires proc.pc.stage.target == target && proc.pc.stage.phase == FirstPhase(target)
      modifies this`clock, this`phases, this`proc
      ensures Reaches(client.config, env, start, Now())
      ensures var p := old(proc);
              match r
              case Resolved(Answered(response)) => Goes(p, proc, Finished(ViaH3(response), clock))
              case Resolved(Failed(error)) => Goes(p, proc, p.pc.(stage := FailedStage(clock, p, error)))
              case Cut(byTimeout) => Goes(p, proc, p.pc.(stage := CutStage(clock, byTimeout)))
      ensures r.Resolved? && r.value.Answered? ==> LastHeard(r.value.response)
    {
      var connection := Connection(start, target);
      if connection.Cut? {
        return Cut(connection.byTimeout);
      } else if !connection.value {
        return Resolved(Failed(Handshake));
      }
      var open := RunPhase(start, Some(150));
      if open.Cut? {
        return Cut(open.byTimeout);
      } else if open.value.None? {
        return Resolved(Failed(Stream(true)));
      }
      r := Exchanged(start, body);
    }

    /** The rest of an attempt, once its stream is open. */
    method Exchanged(ghost start: Alone, body: Option<Bytes>) returns (r: Flow<AttemptResult>)
      requires Reaches(client.config, env, start, Now())
      requires Within() && Armed(proc) && proc.pc.body == body && proc.pc.stage.phase == NextPhase(Open, body)
      modifies this`clock, this`phases, this`proc
      ensures Reaches(client.config, env, start, Now())
      ensures var p := old(proc);
              match r
              case Resolved(Answered(response)) => Goes(p, proc, Finished(ViaH3(response), clock))
              case Resolved(Failed(error)) =>
                error == Stream(false) && Goes(p, proc, p.pc.(stage := FailedStage(clock, p, error)))
              case Cut(byTimeout) => Goes(p, proc, p.pc.(stage := CutStage(clock, byTimeout)))
      ensures r.Resolved? && r.value.Answered? ==> LastHeard(r.value.response)
    {
      if body.Some? {
        var upload := RunPhase(start, Some(500));
        if upload.Cut? {
          return Cut(upload.byTimeout);
        } else if upload.value.None? {
          return Resolved(Failed(Stream(false)));
        }
      }
      var finish := RunPhase(start, Some(500));
      if finish.Cut? {
        return Cut(finish.byTimeout);
      } else if finish.value.None? {
        return Resolved(Failed(Stream(false)));
      }
      var headers := RunPhase(start, None);
      return if headers.Cut? then Cut(headers.byTimeout)
             else if headers.value.None? then Resolved(Failed(Stream(false)))
             else Resolved(Answered(headers.value.value));
    }

    /** The guard's write on the way out of an interrupted attempt. */
    method Unwind(ghost start: Alone, guard: H3AttemptCancellationGuard, byTimeout: bool)
      requires Reaches(client.config, env, start, Now())
      requires guard.armed && guard.client == client
      requires proc.pc.H3? && proc.pc.origin == guard.origin && proc.pc.stage == CutStage(clock, byTimeout) && !proc.armed
      modifies this`proc, client
      ensures Reaches(client.config, env, start, Now())
      ensures Goes(old(proc), proc, CutPc(clock, old(proc), byTimeout))
    {
      ghost var before := Now();
      guard.Drop(clock);
      NegativeSteps(client.config, env, before);
      ReachesTwice(client.config, env, start, before);
      proc := Advance(client.config, env, Advance(client.config, env, before)).p;
    }

    /** `insert_negative` after a failed attempt. */
    method GiveUp(ghost start: Alone, o: Origin, now: nat)
      requires Reaches(client.config, env, start, Now())
      requires proc.pc.H3? && proc.pc.origin == o && proc.pc.stage.NegativeWrite? && proc.pc.stage.base == now && !proc.armed
      modifies this`proc, client
      ensures Reaches(client.config, env, start, Now())
      ensures Goes(old(proc), proc, Continue(clock, old(proc), old(proc).pc.stage.then_).pc)
    {
      ghost var before := Now();
      client.InsertNegative(o, now);
      NegativeSteps(client.config, env, before);
      ReachesTwice(client.config, env, start, before);
      proc := Advance(client.config, env, Advance(client.config, env, before)).p;
    }

    /** The retry loop. Its end is never reached: a second attempt is not retried. */
    method RequestHttp3WithStaleRetry(ghost start: Alone, o: Origin, target: Target, body: Option<Bytes>, now: nat)
      returns (r: Flow<Option<Response>>)
      requires Reaches(client.config, env, start, Now())
      requires Within() && Armed(proc) && proc.pc.origin == o && proc.pc.body == body && proc.now == now
      requires proc.pc.stage.index == 0 && proc.pc.stage.target == target && proc.pc.stage.phase == FirstPhase(target)
      modifies this`clock, this`phases, this`proc, client
      ensures Reaches(client.config, env, start, Now())
      ensures var p := old(proc);
              match r
              case Resolved(Some(response)) => Goes(p, proc, Finished(ViaH3(response), clock))
              case Resolved(None) => Goes(p, proc, Continue(clock, p, AfterBranch(p.pc.stage.source)).pc)
              case Cut(byTimeout) => Goes(p, proc, CutPc(clock, p, byTimeout))
      ensures r.Resolved? && r.value.Some? ==> LastHeard(r.value.value)
    {
      for attempt := 0 to ATTEMPTS
        invariant Reaches(client.config, env, start, Now())
        invariant attempt < 2
        invariant Armed(proc)
        invariant Goes(old(proc), proc,
                       old(proc).pc.(stage := Attempt(old(proc).pc.stage.source, attempt, target, FirstPhase(target), proc.pc.stage.since)))
      {
        var guard := new H3AttemptCancellationGuard(client, o);
        var result := Http3Request(start, target, body);
        if result.Cut? {
          Unwind(start, guard, result.byTimeout);
          return Cut(result.byTimeout);
        }
        guard.Disarm();
        match result.value {
          case Answered(response) => return Resolved(Some(response));
          case Failed(error) =>
            if error.Handshake? || StreamFailureAction(error.retryWithoutH3, attempt).UseTcp? {
              GiveUp(start, o, now);
              return Resolved(None);
            }
        }
      }
      assert false;
    }

    // ---- Discovery ----

    method NegativeCacheHit(ghost start: Alone, o: Origin, now: nat) returns (hit: bool)
      requires client.config.evicts && Reaches(client.config, env, start, Now())
      requires proc.pc.H3? && proc.pc.origin == o && proc.pc.stage.NegativeCheck? && proc.now == now && !proc.armed
      modifies this`proc, client
      ensures Reaches(client.config, env, start, Now())
      ensures Goes(old(proc), proc, if hit then TcpStart else old(proc).pc.(stage := AltSvcLookup))
    {
      ghost var before := Now();
      hit := client.NegativeCacheHit(o, now);
      proc := CheckNegative(client.config, before.caches, proc).1;
      ReachesNext(client.config, env, start, before);
    }

    method AltSvcEntryFor(ghost start: Alone, o: Origin, now: nat) returns (entry: Option<AltSvcEntry>)
      requires client.config.evicts && Reaches(client.config, env, start, Now())
      requires proc.pc.H3? && proc.pc.origin == o && proc.pc.stage.AltSvcLookup? && proc.now == now && !proc.armed
      modifies this`proc, client
      ensures Reaches(client.config, env, start, Now())
      ensures Goes(old(proc), proc, old(proc).pc.(stage :=
                if entry.Some? then FirstAttempt(clock, FromAltSvc(entry.value), AltSvcTarget(o, entry.value))
                else HttpsRrLookup))
      ensures entry.Some? ==>
                && proc.pc.H3? && proc.pc.stage.Attempt?
                && proc.pc.stage.target ==
                   Target(match entry.value.host case Some(host) => host case None => o.host, entry.value.port, [])
    {
      ghost var before := Now();
      entry := client.AltSvcEntryFor(o, now);
      proc := CheckAltSvc(client.config, clock, before.caches, proc).1;
      ReachesNext(client.config, env, start, before);
    }

    /** The time-limited lookup of `https_rr_entry` (src/https_rr.rs). */
    method AwaitHttpsRr(o: Origin) returns (r: Flow<Option<HttpsRrEntry>>)
      requires Within() && proc.pc.origin == o && proc.pc.stage.HttpsRrAwait? && !proc.armed
      modifies this`clock, this`proc
      ensures Now() == Advance(client.config, env, old(Now()))
      ensures Goes(old(proc), proc,
                match r
                case Resolved(Some(entry)) => old(proc).pc.(stage := HttpsRrStore(entry))
                case Resolved(None) => TcpStart
                case Cut(byTimeout) => CutPc(clock, old(proc), byTimeout))
    {
      ghost var before := Now();
      var answer := Timed(env.records.elapsed, HttpsRrAnswer(env.records.value));
      var (wait, records) := Solo.Within(Some(150), answer, HttpsRrAnswer(None));
      var (elapsed, input) := Await(clock, deadline, env.dropAt, wait, records);
      assert (elapsed, input) == Awaited(env, before);
      clock := clock + elapsed;
      proc := Resumes(clock, proc, input);
      if input.HttpsRrAnswer? {
        if input.records.Some? {
          var best := Select(input.records.value, o.port);
          return Resolved(best);
        }
        return Resolved(None);
      }
      return Cut(input.TimeoutFires?);
    }

    method HttpsRrEntryFor(ghost start: Alone, o: Origin, now: nat) returns (r: Flow<Option<HttpsRrEntry>>)
      requires client.config.evicts && Reaches(client.config, env, start, Now())
      requires Within() && proc.pc.origin == o && proc.pc.stage.HttpsRrLookup? && proc.now == now && !proc.armed
      modifies this`clock, this`proc, client
      ensures Reaches(client.config, env, start, Now())
      ensures match r
              case Resolved(Some(entry)) => exists cached :: Goes(old(proc), proc, HttpsRrPc(clock, old(proc), entry, cached))
              case Resolved(None) => Goes(old(proc), proc, TcpStart)
              case Cut(byTimeout) => Goes(old(proc), proc, CutPc(clock, old(proc), byTimeout))
    {
      ghost var before := Now();
      var cached := client.CachedHttpsRr(o, now);
      proc := CheckHttpsRr(client.config, clock, before.caches, proc).1;
      ReachesNext(client.config, env, start, before);
      if cached.Some? {
        assert Goes(old(proc), proc, HttpsRrPc(clock, old(proc), cached.value, true));
        return Resolved(cached);
      }
      before := Now();
      r := AwaitHttpsRr(o);
      ReachesNext(client.config, env, start, before);
      if r.Resolved? && r.value.Some? {
        InsertHttpsRr(start, o, r.value.value);
        assert Goes(old(proc), proc, HttpsRrPc(clock, old(proc), r.value.value, false));
      }
    }

    method InsertHttpsRr(ghost start: Alone, o: Origin, entry: HttpsRrEntry)
      requires Reaches(client.config, env, start, Now())
      requires proc.pc.H3? && proc.pc.origin == o && proc.pc.stage == HttpsRrStore(entry) && !proc.armed
      modifies this`proc, client
      ensures Reaches(client.config, env, start, Now())
      ensures Goes(old(proc), proc, HttpsRrPc(clock, old(proc), entry, false))
    {
      ghost var before := Now();
      client.InsertHttpsRr(o, entry);
      proc := KeepHttpsRr(clock, before.caches, proc).1;
      ReachesNext(client.config, env, start, before);
    }

    // ---- The whole request ----

    method TryHttp3(ghost start: Alone, o: Origin, body: Option<Bytes>) returns (r: Flow<Option<Response>>)
      requires client.config.evicts && Reaches(client.config, env, start, Now())
      requires Within() && proc.pc == H3(o, body, NegativeCheck) && proc.now == clock && !proc.armed
      modifies this`clock, this`phases, this`proc, client
      ensures Reaches(client.config, env, start, Now())
      ensures match r
              case Resolved(Some(response)) => Goes(old(proc), proc, Finished(ViaH3(response), clock))
              case Resolved(None) => Goes(old(proc), proc, TcpStart)
              case Cut(byTimeout) => Goes(old(proc), proc, CutPc(clock, old(proc), byTimeout))
      ensures r.Resolved? && r.value.Some? ==> LastHeard(r.value.value)
    {
      var now := clock;
      var hit := NegativeCacheHit(start, o, now);
      if hit {
        return Resolved(None);
      }
      var alternative := AltSvcEntryFor(start, o, now);
      if alternative.Some? {
        r := RequestHttp3WithStaleRetry(start, o, AltSvcTarget(o, alternative.value), body, now);
        if r.Cut? || r.value.Some? {
          return;
        }
      }
      r := TryHttpsRr(start, o, body, now);
    }

    /** The second discovery branch of `try_http3`. */
    method TryHttpsRr(ghost start: Alone, o: Origin, body: Option<Bytes>, now: nat) returns (r: Flow<Option<Response>>)
      requires client.config.evicts && Reaches(client.config, env, start, Now())
      requires Within() && proc.pc == H3(o, body, HttpsRrLookup) && proc.now == now && !proc.armed
      modifies this`clock, this`phases, this`proc, client
      ensures Reaches(client.config, env, start, Now())
      ensures match r
              case Resolved(Some(response)) => Goes(old(proc), proc, Finished(ViaH3(response), clock))
              case Resolved(None) => Goes(old(proc), proc, TcpStart)
              case Cut(byTimeout) => Goes(old(proc), proc, CutPc(clock, old(proc), byTimeout))
      ensures r.Resolved? && r.value.Some? ==> LastHeard(r.value.value)
    {
      var entry := HttpsRrEntryFor(start, o, now);
      if entry.Cut? {
        return Cut(entry.byTimeout);
      }
      if entry.value.Some? && entry.value.value.hasH3 {
        r := RequestHttp3WithStaleRetry(start, o, HttpsRrTarget(o, entry.value.value), body, now);
      } else {
        r := Resolved(None);
      }
    }

    /** What `send` does when its timeout fires in `try_http3`. */
    method StampTimeout(ghost start: Alone, o: Origin)
      requires Reaches(client.config, env, start, Now())
      requires proc.pc.H3? && proc.pc.origin == o && proc.pc.stage.TimeoutStamp? && !proc.armed
      modifies this`proc, client
      ensures Reaches(client.config, env, start, Now())
      ensures Goes(old(proc), proc, Finished(TimedOutInH3, clock))
    {
      ReachesNext(client.config, env, start, Now());
      proc := proc.To(NegativeWrite(clock, ToTimedOut));
      GiveUp(start, o, clock);
    }

    method MaybeUpdateAltSvc(ghost start: Alone, response: Response)
      requires Reaches(client.config, env, start, Now())
      requires proc.request == request && !proc.armed
      requires proc.pc == TcpPc(clock, request, TcpAnswer(Ok(response)))
      modifies this`proc, client
      ensures Reaches(client.config, env, start, Now())
      ensures Goes(old(proc), proc, Finished(ViaTcp(Ok(response)), clock))
      ensures client.negativeCache == old(client.negativeCache) && client.httpsRrCache == old(client.httpsRrCache)
      ensures client.altSvcCache ==
              match (OriginOf(request.uri), response.altSvc)
              case (Some(o), Some(Readable(text))) =>
                (match FieldValue(text, clock, o.port)
                 case Entry(entry) => old(client.altSvcCache)[o := entry]
                 case Clear => old(client.altSvcCache) - {o}
                 case NoAlternative => old(client.altSvcCache))
              case _ => old(client.altSvcCache)
    {
      var o := OriginOf(request.uri);
      if o.None? || response.altSvc.None? {
        return;
      }
      ghost var before := Now();
      var update := ParseHeader(response.altSvc.value, clock, o.value.port);
      client.UpdateAltSvc(o.value, update);
      proc := proc.(pc := Finished(ViaTcp(Ok(response)), clock));
      ReachesNext(client.config, env, start, before);
    }

    /** The TCP request, under a fresh timeout. */
    method SendTcp(ghost start: Alone) returns (r: Flow<Result<Response, Error>>)
      requires Reaches(client.config, env, start, Now())
      requires proc.pc.TcpStart? && proc.request == request && !proc.armed
      modifies this`clock, this`deadline, this`proc
      ensures Reaches(client.config, env, start, Now())
      ensures Goes(old(proc), proc, TcpPc(clock, request, TcpInput(r)))
      ensures r.Resolved? ==> r.value == env.tcp.value
      ensures env.dropAt.None? ==>
                r == if request.timeout.Some? && request.timeout.value < env.tcp.elapsed then Cut(true) else Resolved(env.tcp.value)
    {
      StartTcp(start);
      ghost var before := Now();
      var input := AwaitTcp();
      TcpGoes(client.config, env, before);
      ReachesNext(client.config, env, start, before);
      return if input.TcpAnswer? then Resolved(input.result) else Cut(input.TimeoutFires?);
    }

    method StartTcp(ghost start: Alone)
      requires Reaches(client.config, env, start, Now())
      requires proc.pc.TcpStart? && proc.request == request && !proc.armed
      modifies this`deadline, this`proc
      ensures Reaches(client.config, env, start, Now())
      ensures Goes(old(proc), proc, TcpAwait(clock)) && deadline == Deadline(request, clock)
    {
      deadline := Deadline(request, clock);
      ReachesNext(client.config, env, start, Now());
      proc := proc.Does(SentTcp(Sent(request.uri, request.head, request.payload))).(pc := TcpAwait(clock));
    }

    method AwaitTcp() returns (input: Input)
      requires proc.pc == TcpAwait(clock) && proc.request == request && deadline == Deadline(request, clock)
      modifies this`clock, this`proc
      ensures Now() == Advance(client.config, env, old(Now())) && input == Awaited(env, old(Now())).1
    {
      ghost var before := Now();
      var (elapsed, i) := Await(clock, deadline, env.dropAt, env.tcp.elapsed, TcpAnswer(env.tcp.value));
      TcpGoes(client.config, env, before);
      assert (elapsed, i) == Awaited(env, before);
      clock := clock + elapsed;
      proc := Advance(client.config, env, before).p;
      input := i;
    }

    /** `send`: the machine, driven by this environment, finishes with exactly these caches, at
        this time, and with the outcome that the caller is given. */
    method Send() returns (result: SendResult)
      requires client.config.evicts && proc == NewProc(request)
      modifies this, client
      ensures Reaches(client.config, env, old(Now()), Now())
      ensures proc.request == request && proc.started == old(clock) && proc.pc.Finished? && proc.pc.at == clock
      ensures match proc.pc.outcome
              case ViaH3(response) =>
                result == Returned(Ok(response)) && client.config.http3Enabled && LastHeard(response)
              case ViaTcp(answer) => result == Returned(answer) && answer == env.tcp.value
              case TimedOutInH3 => result == Returned(Err(Timeout))
              case TimedOutInTcp => result == Returned(Err(Timeout))
              case Dropped => result == GivenUp
      ensures !client.config.http3Enabled && env.dropAt.None? ==>
                result == Returned(if request.timeout.Some? && request.timeout.value < env.tcp.elapsed then Err(Timeout)
                                   else env.tcp.value)
    {
      ghost var start := Now();
      ReachesSelf(client.config, env, start);
      ReachesNext(client.config, env, start, start);
      proc := Begin(client.config, clock, proc);
      var o, body := OriginOf(request.uri), ReplayableForH3(request.payload);
      if client.config.http3Enabled && o.Some? && body.Some? {
        deadline := Deadline(request, clock);
        var response := TryHttp3(start, o.value, body.value);
        if response.Cut? {
          if response.byTimeout {
            StampTimeout(start, o.value);
            return Returned(Err(Timeout));
          }
          return GivenUp;
        } else if response.value.Some? {
          return Returned(Ok(response.value.value));
        }
      }
      var answer := SendTcp(start);
      if answer.Cut? {
        return if answer.byTimeout then Returned(Err(Timeout)) else GivenUp;
      }
      if answer.value.Ok? {
        MaybeUpdateAltSvc(start, answer.value.value);
      }
      return Returned(answer.value);
    }
  }
}
