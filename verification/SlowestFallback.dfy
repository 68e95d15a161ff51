/** The bound on the time before TCP is attained: an origin that lets every phase of both
    branches run to its limit takes all of it. */
module SlowestFallback {
  import opened Wrappers
  import opened Errors
  import opened Body
  import opened AltSvc
  import opened HttpsRr
  import opened Client
  import opened Machine
  import opened RequestLaws
  import opened TimeBound
  import opened Solo

  /** How long each await of the two branches would take: every phase up to its limit, except
      that the first stream-open and the last step of the upload never end in time. */
  function Takes(n: nat): nat {
    if n in {3, 9, 13, 19} then 1000 else if n in {0, 4, 7, 10, 14, 17} then 150 else 500
  }

  datatype Setting = Setting(cfg: Config, env: Environment, start: Alone, origin: Origin, body: Bytes) {
    ghost predicate Slow() {
      && (forall n: nat :: env.phase(n).elapsed == Takes(n) && env.phase(n).value.Some?)
      && env.dropAt.None?
    }
  }

  /** Reached in `stage`, `n` awaits behind, at `t`, nothing spent on waiting for headers. */
  ghost predicate Comes(x: Setting, s: Alone, c: Caches, stage: Stage, n: nat, t: nat) {
    && Reaches(x.cfg, x.env, x.start, s)
    && s.phases == n && s.clock == t && s.caches == c && s.p.pc == H3(x.origin, Some(x.body), stage)
    && s.p.request.timeout.None? && s.p.started == 0 && s.p.now == 0 && s.p.waited == 0
  }

  /** A phase that takes up to its limit or more: it completes there, or fails there. */
  lemma AtLimit(env: Environment, s: Alone, limit: nat)
    requires InAttempt(s.p) && Limit(s.p.pc.stage.phase) == Some(limit) && s.p.request.timeout.None? && env.dropAt.None?
    requires var a := env.phase(s.phases); a.value.Some? && a.elapsed >= limit
    ensures var a := env.phase(s.phases);
            Awaited(env, s) == (limit, if a.elapsed == limit then PhaseDone(a.value.value) else PhaseFailed)
  {
  }

  lemma AttemptAdvances(cfg: Config, env: Environment, s: Alone, elapsed: nat, input: Input)
    requires InAttempt(s.p) && Awaited(env, s) == (elapsed, input)
    ensures var t := s.clock + elapsed;
            Advance(cfg, env, s) == Alone(t, s.caches, s.phases + 1, Resumes(t, s.p, input))
  {
  }

  lemma Completed(t: nat, p: Proc, response: Response)
    requires InAttempt(p) && !p.pc.stage.phase.Headers?
    ensures var q := PhaseCompleted(t, p, response); var stage := p.pc.stage;
            && q.pc == p.pc.(stage := stage.(phase := NextPhase(stage.phase, p.pc.body), since := t))
            && q.(pc := p.pc, trail := p.trail) == p
  {
  }

  /** A phase that ends at its limit. */
  lemma Passes(x: Setting, s: Alone, c: Caches, source: Source, index: nat, target: Target, phase: Phase, limit: nat, n: nat, t: nat)
    returns (z: Alone)
    requires x.Slow()
    requires Comes(x, s, c, Attempt(source, index, target, phase, t), n, t)
    requires Limit(phase) == Some(limit) && Takes(n) == limit
    ensures Comes(x, z, c, Attempt(source, index, target, NextPhase(phase, Some(x.body)), t + limit), n + 1, t + limit)
  {
    z := Advance(x.cfg, x.env, s);
    PhaseEnds(x.cfg, x.env, s, limit);
    ReachesNext(x.cfg, x.env, x.start, s);
  }

  lemma PhaseEnds(cfg: Config, env: Environment, s: Alone, limit: nat)
    requires InAttempt(s.p) && Limit(s.p.pc.stage.phase) == Some(limit) && s.p.request.timeout.None? && env.dropAt.None?
    requires env.phase(s.phases).elapsed == limit && env.phase(s.phases).value.Some?
    ensures var z := Advance(cfg, env, s); var stage := s.p.pc.stage;
            && z.phases == s.phases + 1 && z.clock == s.clock + limit && z.caches == s.caches
            && z.p.pc == s.p.pc.(stage := stage.(phase := NextPhase(stage.phase, s.p.pc.body), since := z.clock))
            && z.p.(pc := s.p.pc, trail := s.p.trail) == s.p
  {
    var z := CompletesAtLimit(cfg, env, s, limit, env.phase(s.phases).value.value);
  }

  lemma CompletesAtLimit(cfg: Config, env: Environment, s: Alone, limit: nat, response: Response) returns (z: Alone)
    requires InAttempt(s.p) && Limit(s.p.pc.stage.phase) == Some(limit) && s.p.request.timeout.None? && env.dropAt.None?
    requires env.phase(s.phases) == Timed(limit, Some(response))
    ensures z == Advance(cfg, env, s) && z.phases == s.phases + 1 && z.clock == s.clock + limit && z.caches == s.caches
    ensures var stage := s.p.pc.stage;
            && z.p.pc == s.p.pc.(stage := stage.(phase := NextPhase(stage.phase, s.p.pc.body), since := z.clock))
            && z.p.(pc := s.p.pc, trail := s.p.trail) == s.p
  {
    AtLimit(env, s, limit);
    AttemptAdvances(cfg, env, s, limit, PhaseDone(response));
    Completed(s.clock + limit, s.p, response);
    z := Alone(s.clock + limit, s.caches, s.phases + 1, PhaseCompleted(s.clock + limit, s.p, response));
  }

  /** A stream-open that does not make its limit: a fresh attempt. */
  lemma OpenRunsOut(x: Setting, s: Alone, c: Caches, source: Source, target: Target, n: nat, t: nat) returns (z: Alone)
    requires x.Slow()
    requires Comes(x, s, c, Attempt(source, 0, target, Open, t), n, t) && Takes(n) > 150
    ensures Comes(x, z, c, Attempt(source, 1, target, FirstPhase(target), t + 150), n + 1, t + 150)
  {
    ReachesNext(x.cfg, x.env, x.start, s);
    AtLimit(x.env, s, 150);
    AttemptAdvances(x.cfg, x.env, s, 150, PhaseFailed);
    z := Alone(t + 150, c, n + 1, AttemptFailed(t + 150, s.p));
  }

  /** An upload that does not: the branch is over. */
  lemma FinishRunsOut(x: Setting, s: Alone, c: Caches, source: Source, target: Target, n: nat, t: nat) returns (z: Alone)
    requires x.Slow()
    requires Comes(x, s, c, Attempt(source, 1, target, Finish, t), n, t) && Takes(n) > 500
    ensures Comes(x, z, c, NegativeWrite(0, AfterBranch(source)), n + 1, t + 500)
  {
    ReachesNext(x.cfg, x.env, x.start, s);
    AtLimit(x.env, s, 500);
    AttemptAdvances(x.cfg, x.env, s, 500, PhaseFailed);
    z := Alone(t + 500, c, n + 1, AttemptFailed(t + 500, s.p));
  }

  lemma Connects(x: Setting, s: Alone, c: Caches, source: Source, index: nat, target: Target, n: nat, t: nat) returns (z: Alone)
    requires x.Slow()
    requires Takes(n) == 150 && Takes(n + 1) == 500 && Takes(n + 2) == 500
    requires Comes(x, s, c, Attempt(source, index, target, Resolve, t), n, t)
    ensures Comes(x, z, c, Attempt(source, index, target, Open, t + 1150), n + 3, t + 1150)
  {
    z := Passes(x, s, c, source, index, target, Resolve, 150, n, t);
    z := SetsUp(x, z, c, source, index, target, n + 1, t + 150);
  }

  lemma SetsUp(x: Setting, s: Alone, c: Caches, source: Source, index: nat, target: Target, n: nat, t: nat) returns (z: Alone)
    requires x.Slow()
    requires Takes(n) == 500 && Takes(n + 1) == 500
    requires Comes(x, s, c, Attempt(source, index, target, Connect, t), n, t)
    ensures Comes(x, z, c, Attempt(source, index, target, Open, t + 1000), n + 2, t + 1000)
  {
    z := Passes(x, s, c, source, index, target, Connect, 500, n, t);
    z := Passes(x, z, c, source, index, target, Setup, 500, n + 1, t + 500);
  }

  lemma Uploads(x: Setting, s: Alone, c: Caches, source: Source, target: Target, n: nat, t: nat) returns (z: Alone)
    requires x.Slow()
    requires Takes(n) == 150 && Takes(n + 1) == 500 && Takes(n + 2) > 500
    requires Comes(x, s, c, Attempt(source, 1, target, Open, t), n, t)
    ensures Comes(x, z, c, NegativeWrite(0, AfterBranch(source)), n + 3, t + 1150)
  {
    z := Passes(x, s, c, source, 1, target, Open, 150, n, t);
    z := Passes(x, z, c, source, 1, target, Upload, 500, n + 1, t + 150);
    z := FinishRunsOut(x, z, c, source, target, n + 2, t + 650);
  }

  lemma SlowBranch(x: Setting, s: Alone, c: Caches, source: Source, target: Target, n: nat, t: nat) returns (z: Alone)
    requires x.Slow()
    requires n in {0, 10} && target.addresses == []
    requires Comes(x, s, c, Attempt(source, 0, target, Resolve, t), n, t)
    ensures Comes(x, z, c, NegativeWrite(0, AfterBranch(source)), n + 10, t + BRANCH)
  {
    z := Connects(x, s, c, source, 0, target, n, t);
    z := OpenRunsOut(x, z, c, source, target, n + 3, t + 1150);
    z := Connects(x, z, c, source, 1, target, n + 4, t + 1300);
    z := Uploads(x, z, c, source, target, n + 7, t + 2450);
  }

  /** A step of the request's own that stays in HTTP/3. */
  lemma Moves(x: Setting, s: Alone, c: Caches, stage: Stage, n: nat, t: nat) returns (z: Alone)
    requires Comes(x, s, c, stage, n, t) && !Suspended(stage)
    ensures Reaches(x.cfg, x.env, x.start, z)
    ensures z == Alone(t, Proceeds(x.cfg, t, c, s.p).0, n, Proceeds(x.cfg, t, c, s.p).1)
  {
    ReachesNext(x.cfg, x.env, x.start, s);
    z := Advance(x.cfg, x.env, s);
  }

  /** `insert_negative` at the end of the first branch. */
  lemma EndsBranch(x: Setting, s: Alone, c: Caches, n: nat, t: nat) returns (z: Alone)
    requires Comes(x, s, c, NegativeWrite(0, ToHttpsRr), n, t)
    ensures Comes(x, z, z.caches, HttpsRrLookup, n, t) && z.caches.httpsRr == c.httpsRr
  {
    z := Moves(x, s, c, NegativeWrite(0, ToHttpsRr), n, t);
    assert Comes(x, z, z.caches, AltSvcRemove(ToHttpsRr), n, t);
    z := Moves(x, z, z.caches, AltSvcRemove(ToHttpsRr), n, t);
  }

  const RECORD := HttpsRecord(None, ["h3"], [], 0)

  function Answer(o: Origin): HttpsRrEntry {
    HttpsRrEntry(o.port, [], true, 0)
  }

  /** The lookup, at its limit too. */
  lemma LooksUp(x: Setting, s: Alone, c: Caches, n: nat, t: nat) returns (z: Alone)
    requires x.Slow()
    requires Comes(x, s, c, HttpsRrLookup, n, t) && x.origin !in c.httpsRr
    requires x.env.records == Timed(150, Some([RECORD]))
    ensures Comes(x, z, z.caches, HttpsRrStore(Answer(x.origin)), n, t + 150)
  {
    z := Moves(x, s, c, HttpsRrLookup, n, t);
    assert Comes(x, z, z.caches, HttpsRrAwait(t), n, t);
    assert FirstH3([RECORD]) == Some(RECORD);
    ReachesNext(x.cfg, x.env, x.start, z);
    assert Awaited(x.env, z) == (150, HttpsRrAnswer(Some([RECORD])));
    z := Advance(x.cfg, x.env, z);
  }

  // ---- The whole of it ----

  const HOST := Origin("example.com", 443)
  const POST := Request(Uri(Some("https"), Some("example.com"), None, "/"), Head("POST", []), Replayable([]), None)
  const OFFER := AltSvcEntry(None, 443, 1)

  function SlowSetting(cfg: Config): Setting {
    Setting(cfg,
            Environment((n: nat) => Timed(Takes(n), Some(Response(0, None))), Timed(150, Some([RECORD])), Timed(0, Err(Timeout)), None),
            Alone(0, Caches(map[], map[HOST := OFFER], map[]), 0, NewProc(POST)),
            HOST, [])
  }

  lemma Starts(cfg: Config) returns (z: Alone)
    requires cfg.http3Enabled
    ensures var x := SlowSetting(cfg); var target := AltSvcTarget(HOST, OFFER);
            Comes(x, z, z.caches, Attempt(FromAltSvc(OFFER), 0, target, Resolve, 0), 0, 0)
    ensures HOST !in z.caches.httpsRr
  {
    var x := SlowSetting(cfg);
    ReachesSelf(cfg, x.env, x.start);
    ReachesNext(cfg, x.env, x.start, x.start);
    z := Advance(cfg, x.env, x.start);
    assert Comes(x, z, z.caches, NegativeCheck, 0, 0);
    z := Moves(x, z, z.caches, NegativeCheck, 0, 0);
    z := Moves(x, z, z.caches, AltSvcLookup, 0, 0);
  }

  /** `insert_negative` at the end of the second branch. */
  lemma EndsAll(x: Setting, s: Alone, c: Caches, n: nat, t: nat) returns (z: Alone)
    requires Comes(x, s, c, NegativeWrite(0, ToTcp), n, t)
    ensures Reaches(x.cfg, x.env, x.start, z) && z.clock == t && z.p.pc == TcpStart && z.p.started == 0 && z.p.waited == 0
  {
    z := Moves(x, s, c, NegativeWrite(0, ToTcp), n, t);
    assert Comes(x, z, z.caches, AltSvcRemove(ToTcp), n, t);
    var p := z.p;
    z := Moves(x, z, z.caches, AltSvcRemove(ToTcp), n, t);
    assert z.p == p.Does(RemovedAltSvc).(pc := TcpStart);
  }

  /** The bound is exact: there is a request that starts TCP 7350 ms after it began, having spent
      nothing on waiting for response headers. */
  lemma BoundIsReached(cfg: Config) returns (z: Alone)
    requires cfg.http3Enabled
    ensures var x := SlowSetting(cfg);
            Reaches(cfg, x.env, x.start, z) && z.p.pc == TcpStart && z.p.waited == 0 && z.clock == z.p.started + 7350
  {
    var x := SlowSetting(cfg);
    var target := AltSvcTarget(HOST, OFFER);
    z := Starts(cfg);
    z := SlowBranch(x, z, z.caches, FromAltSvc(OFFER), target, 0, 0);
    z := EndsBranch(x, z, z.caches, 10, BRANCH);
    z := LooksUp(x, z, z.caches, 10, BRANCH);
    z := Moves(x, z, z.caches, HttpsRrStore(Answer(HOST)), 10, BRANCH + 150);
    z := SlowBranch(x, z, z.caches, FromHttpsRr(Answer(HOST), false), HttpsRrTarget(HOST, Answer(HOST)), 10, BRANCH + 150);
    z := EndsAll(x, z, z.caches, 20, BRANCH + 150 + BRANCH);
  }
}
