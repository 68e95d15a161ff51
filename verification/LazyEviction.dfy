/** Lookups remove the stale entries they find. When that can be told from a client whose
    lookups only read, and what can disappear by it. */
module LazyEviction {
  import opened Wrappers
  import opened AltSvc
  import opened HttpsRr
  import opened Client
  import opened Machine
  import opened RequestLaws
  import opened Interference
  import opened Overlap
  import opened BackOff
  import opened CacheHistory

  /** The same client, except that what was written stays until something else is written. */
  function Keeping(cfg: Config): Config {
    cfg.(evicts := false)
  }

  // ---- Misled lookups ----

  /** By `now` the entry last written is unexpired, but a lookup since, by a later instant, found
      it expired. */
  predicate Missed<V>(h: History<V>, expiry: nat, now: nat) {
    h.written.Some? && expiry > now && exists m | m in h.looks :: m >= expiry
  }

  predicate MisledStage(now: nat, stage: Stage, log: Log) {
    match stage
    case NegativeCheck => Missed(log.negative, NegativeExpiry(log), now)
    case AltSvcLookup => Missed(log.altSvc, AltSvcExpiry(log), now)
    case HttpsRrLookup => Missed(log.httpsRr, HttpsRrExpiry(log), now)
    case _ => false
  }

  /** The event is a lookup for `o` that misses what an earlier one, by a later instant, evicted. */
  predicate Misled(s: State, e: Event, o: Origin, log: Log) {
    e.On? && e.input.Proceed? && e.id in s.procs
    && var p := s.procs[e.id]; p.pc.H3? && p.pc.origin == o && MisledStage(p.now, p.pc.stage, log)
  }

  ghost predicate NeverMisled(cfg: Config, events: seq<Event>, o: Origin) {
    forall k | 0 <= k < |events| ::
      !Misled(Run(cfg, INIT, events[..k]), events[k], o, LogOf(cfg, events[..k], o))
  }

  /** The requests to `o` are the same in both states, and there are the same requests at all. */
  ghost predicate SameRequests(s: State, t: State, o: Origin) {
    && s.clock == t.clock
    && s.procs.Keys == t.procs.Keys
    && (forall id | id in s.procs :: s.procs[id].request == t.procs[id].request)
    && (forall id | id in s.procs && Owned(s.procs[id], o) :: s.procs[id] == t.procs[id])
  }

  /** Side by side: one history explains what the evicting client and the keeping one hold. */
  ghost predicate Twins(cfg: Config, s: State, t: State, o: Origin, log: Log) {
    && SameRequests(s, t, o)
    && AllAdmitted(cfg, s) && AllAdmitted(Keeping(cfg), t)
    && Explains(true, log, s.caches, o) && Explains(false, log, t.caches, o)
  }

  // ---- One step ----

  lemma NegativeTold(cfg: Config, a: Caches, b: Caches, p: Proc, log: Log)
    requires cfg.evicts && p.pc.H3? && Explains(true, log, a, p.pc.origin) && Explains(false, log, b, p.pc.origin)
    ensures Missed(log.negative, NegativeExpiry(log), p.now) <==>
            CheckNegative(cfg, a, p).1 != CheckNegative(Keeping(cfg), b, p).1
  {
  }

  lemma AltSvcTold(cfg: Config, t: nat, a: Caches, b: Caches, p: Proc, log: Log)
    requires cfg.evicts && p.pc.H3? && Explains(true, log, a, p.pc.origin) && Explains(false, log, b, p.pc.origin)
    ensures Missed(log.altSvc, AltSvcExpiry(log), p.now) <==>
            CheckAltSvc(cfg, t, a, p).1 != CheckAltSvc(Keeping(cfg), t, b, p).1
  {
    var x, y := LookupAltSvc(cfg, a, p.pc.origin, p.now).1, LookupAltSvc(Keeping(cfg), b, p.pc.origin, p.now).1;
    assert x == y || (x.None? && y.Some?);
  }

  lemma HttpsRrTold(cfg: Config, t: nat, a: Caches, b: Caches, p: Proc, log: Log)
    requires cfg.evicts && p.pc.H3? && Explains(true, log, a, p.pc.origin) && Explains(false, log, b, p.pc.origin)
    ensures Missed(log.httpsRr, HttpsRrExpiry(log), p.now) <==>
            CheckHttpsRr(cfg, t, a, p).1 != CheckHttpsRr(Keeping(cfg), t, b, p).1
  {
    var x, y := LookupHttpsRr(cfg, a, p.pc.origin, p.now).1, LookupHttpsRr(Keeping(cfg), b, p.pc.origin, p.now).1;
    assert x == y || (x.None? && y.Some?);
  }

  lemma ProceedsTold(cfg: Config, t: nat, a: Caches, b: Caches, p: Proc, log: Log)
    requires cfg.evicts && p.pc.H3? && Explains(true, log, a, p.pc.origin) && Explains(false, log, b, p.pc.origin)
    ensures MisledStage(p.now, p.pc.stage, log) <==> Proceeds(cfg, t, a, p).1 != Proceeds(Keeping(cfg), t, b, p).1
  {
    match p.pc.stage
    case NegativeCheck => NegativeTold(cfg, a, b, p, log);
    case AltSvcLookup => AltSvcTold(cfg, t, a, b, p, log);
    case HttpsRrLookup => HttpsRrTold(cfg, t, a, b, p, log);
    case HttpsRrStore(_) => assert KeepHttpsRr(t, a, p).1 == KeepHttpsRr(t, b, p).1;
    case NegativeWrite(_, _) => assert RecordFailure(cfg, a, p).1 == RecordFailure(Keeping(cfg), b, p).1;
    case AltSvcRemove(_) => assert ForgetAltSvc(t, a, p).1 == ForgetAltSvc(t, b, p).1;
    case _ =>
  }

  lemma StepTold(cfg: Config, t: nat, a: Caches, b: Caches, p: Proc, i: Input, o: Origin, log: Log)
    requires cfg.evicts && Admitted(cfg, p) && Owned(p, o) && Explains(true, log, a, o) && Explains(false, log, b, o)
    ensures i.Proceed? && p.pc.H3? && MisledStage(p.now, p.pc.stage, log) <==>
            Step(cfg, t, a, p, i).1 != Step(Keeping(cfg), t, b, p, i).1
  {
    if p.pc.H3? && !Suspended(p.pc.stage) {
      ProceedsTold(cfg, t, a, b, p, log);
    }
  }

  // ---- One event ----

  lemma ElsewhereSame(cfg: Config, s: State, t: State, e: Event, o: Origin)
    requires SameRequests(s, t, o)
    requires e.On? && e.id in s.procs ==> !Owned(s.procs[e.id], o)
    ensures SameRequests(Next(cfg, s, e), Next(Keeping(cfg), t, e), o)
  {
    if e.On? && e.id in s.procs {
      StepRequest(cfg, s.clock, s.caches, s.procs[e.id], e.input);
      StepRequest(Keeping(cfg), t.clock, t.caches, t.procs[e.id], e.input);
    }
  }

  lemma OwnSame(cfg: Config, s: State, t: State, id: nat, i: Input, o: Origin, log: Log)
    requires cfg.evicts && Twins(cfg, s, t, o, log) && id in s.procs && Owned(s.procs[id], o)
    ensures SameRequests(Next(cfg, s, On(id, i)), Next(Keeping(cfg), t, On(id, i)), o) <==> !Misled(s, On(id, i), o, log)
  {
    var p := s.procs[id];
    assert Admitted(cfg, p);
    StepTold(cfg, s.clock, s.caches, t.caches, p, i, o, log);
    StepRequest(cfg, s.clock, s.caches, p, i);
    StepRequest(Keeping(cfg), t.clock, t.caches, p, i);
    var n, m := Next(cfg, s, On(id, i)), Next(Keeping(cfg), t, On(id, i));
    assert n.procs == s.procs[id := n.procs[id]] && m.procs == t.procs[id := m.procs[id]];
  }

  lemma SameNoted(cfg: Config, s: State, t: State, e: Event, o: Origin, log: Log)
    requires Twins(cfg, s, t, o, log)
    ensures NotedEvent(Keeping(cfg), t, e, o, log) == NotedEvent(cfg, s, e, o, log)
  {
    if e.On? && e.id in s.procs {
      assert Admitted(cfg, s.procs[e.id]) && Admitted(Keeping(cfg), t.procs[e.id]);
    }
  }

  /** The two stay side by side through an event unless it is a misled lookup, and then they part. */
  lemma NextTwins(cfg: Config, s: State, t: State, e: Event, o: Origin, log: Log)
    requires cfg.evicts && Twins(cfg, s, t, o, log)
    ensures var n, m := Next(cfg, s, e), Next(Keeping(cfg), t, e);
            && (SameRequests(n, m, o) <==> !Misled(s, e, o, log))
            && (!Misled(s, e, o, log) ==> Twins(cfg, n, m, o, NotedEvent(cfg, s, e, o, log)))
  {
    if e.On? && e.id in s.procs && Owned(s.procs[e.id], o) {
      OwnSame(cfg, s, t, e.id, e.input, o, log);
    } else {
      ElsewhereSame(cfg, s, t, e, o);
      assert e.On? && e.id in s.procs ==> Admitted(cfg, s.procs[e.id]);
    }
    NextExplained(cfg, s, e, o, log);
    NextExplained(Keeping(cfg), t, e, o, log);
    SameNoted(cfg, s, t, e, o, log);
  }

  // ---- Whole runs ----

  lemma NeverMisledSnoc(cfg: Config, events: seq<Event>, o: Origin)
    requires events != []
    ensures var n := |events| - 1;
            NeverMisled(cfg, events, o) <==>
            NeverMisled(cfg, events[..n], o)
            && !Misled(Run(cfg, INIT, events[..n]), events[n], o, LogOf(cfg, events[..n], o))
  {
    var n := |events| - 1;
    assert forall k | 0 <= k < n :: events[..n][..k] == events[..k] && events[..n][k] == events[k];
  }

  lemma {:induction false} RunTwins(cfg: Config, events: seq<Event>, o: Origin)
    requires cfg.evicts && NeverMisled(cfg, events, o)
    ensures Twins(cfg, Run(cfg, INIT, events), Run(Keeping(cfg), INIT, events), o, LogOf(cfg, events, o))
    decreases |events|
  {
    if events != [] {
      var n := |events| - 1;
      NeverMisledSnoc(cfg, events, o);
      RunTwins(cfg, events[..n], o);
      RunSnoc(cfg, INIT, events);
      RunSnoc(Keeping(cfg), INIT, events);
      NextTwins(cfg, Run(cfg, INIT, events[..n]), Run(Keeping(cfg), INIT, events[..n]), events[n], o, LogOf(cfg, events[..n], o));
    }
  }

  /** All along the run, the requests to `o` are the same with eviction and without. */
  ghost predicate SameThroughout(cfg: Config, events: seq<Event>, o: Origin) {
    forall k | 0 <= k <= |events| :: SameRequests(Run(cfg, INIT, events[..k]), Run(Keeping(cfg), INIT, events[..k]), o)
  }

  lemma {:induction false} SameMeansNeverMisled(cfg: Config, events: seq<Event>, o: Origin)
    requires cfg.evicts && SameThroughout(cfg, events, o)
    ensures NeverMisled(cfg, events, o)
    decreases |events|
  {
    if events != [] {
      var n := |events| - 1;
      assert forall k | 0 <= k <= n :: events[..n][..k] == events[..k];
      SameMeansNeverMisled(cfg, events[..n], o);
      RunTwins(cfg, events[..n], o);
      RunSnoc(cfg, INIT, events);
      RunSnoc(Keeping(cfg), INIT, events);
      assert events[..n + 1] == events;
      NextTwins(cfg, Run(cfg, INIT, events[..n]), Run(Keeping(cfg), INIT, events[..n]), events[n], o, LogOf(cfg, events[..n], o));
      NeverMisledSnoc(cfg, events, o);
    }
  }

  /** In every run, and for each origin: its requests go step for step as they would if no lookup
      ever removed anything, if and only if none of its lookups is misled. */
  lemma EvictionIsVisibleExactly(cfg: Config, events: seq<Event>, o: Origin)
    requires cfg.evicts
    ensures SameThroughout(cfg, events, o) <==> NeverMisled(cfg, events, o)
  {
    if NeverMisled(cfg, events, o) {
      forall k | 0 <= k <= |events|
        ensures SameRequests(Run(cfg, INIT, events[..k]), Run(Keeping(cfg), INIT, events[..k]), o)
      {
        assert forall j | 0 <= j < k :: events[..k][..j] == events[..j] && events[..k][j] == events[j];
        RunTwins(cfg, events[..k], o);
      }
    }
    if SameThroughout(cfg, events, o) {
      SameMeansNeverMisled(cfg, events, o);
    }
  }

  // ---- Phases that do not overlap ----

  ghost predicate Sound(cfg: Config, s: State) {
    AllAdmitted(cfg, s) && forall id | id in s.procs :: Dated(s.clock, s.procs[id])
  }

  lemma NextSound(cfg: Config, s: State, e: Event)
    requires Sound(cfg, s)
    ensures Sound(cfg, Next(cfg, s, e))
  {
    var n := Next(cfg, s, e);
    NextAdmitted(cfg, s, e);
    forall id | id in n.procs
      ensures Dated(n.clock, n.procs[id])
    {
      NextProc(cfg, s, e, id);
      if e.On? && e.id == id && id in s.procs {
        StepDated(cfg, s.clock, s.caches, s.procs[id], e.input);
      }
    }
  }

  lemma {:induction false} RunSound(cfg: Config, s: State, events: seq<Event>)
    requires Sound(cfg, s)
    ensures Sound(cfg, Run(cfg, s, events))
    decreases |events|
  {
    if events != [] {
      NextSound(cfg, s, events[0]);
      RunSound(cfg, Next(cfg, s, events[0]), events[1..]);
    }
  }

  /** All lookups so far were by instants no later than `t`. */
  predicate LooksBy(log: Log, t: nat) {
    AllBy(log.negative.looks, t) && AllBy(log.altSvc.looks, t) && AllBy(log.httpsRr.looks, t)
  }

  predicate AllBy(looks: set<nat>, t: nat) {
    forall m | m in looks :: m <= t
  }

  /** By now, and by the captured instant of whoever is active. */
  ghost predicate InTurn(s: State, o: Origin, log: Log) {
    && LooksBy(log, s.clock)
    && forall id | id in s.procs && Active(s.procs[id], o) :: LooksBy(log, s.procs[id].now)
  }

  lemma NotedBy(cfg: Config, p: Proc, i: Input, o: Origin, log: Log, t: nat)
    requires LooksBy(log, t) && (Active(p, o) ==> p.now <= t)
    ensures LooksBy(Noted(cfg, p, i, o, log), t)
  {
    if i.Proceed? && Active(p, o) {
      var looked := NotedStage(cfg, p.now, p.pc.stage, log);
      assert AllBy(looked.negative.looks, t) && AllBy(looked.altSvc.looks, t) && AllBy(looked.httpsRr.looks, t);
    }
  }

  /** Whatever expires after `now` outlives lookups by instants up to `now`. */
  lemma NotMissed<V>(h: History<V>, expiry: nat, now: nat)
    requires AllBy(h.looks, now)
    ensures !Missed(h, expiry, now)
    ensures expiry > now ==> Outlives(h.looks, expiry)
  {
  }

  lemma NotMisled(log: Log, stage: Stage, now: nat)
    requires LooksBy(log, now)
    ensures !MisledStage(now, stage, log)
  {
    NotMissed(log.negative, NegativeExpiry(log), now);
    NotMissed(log.altSvc, AltSvcExpiry(log), now);
    NotMissed(log.httpsRr, HttpsRrExpiry(log), now);
  }

  /** With all lookups past, both clients answer alike. */
  lemma AnswersAgree(cfg: Config, a: Caches, b: Caches, o: Origin, log: Log, now: nat)
    requires cfg.evicts && Explains(true, log, a, o) && Explains(false, log, b, o) && LooksBy(log, now)
    ensures LookupNegative(cfg, a, o, now).1 == LookupNegative(Keeping(cfg), b, o, now).1
    ensures LookupAltSvc(cfg, a, o, now).1 == LookupAltSvc(Keeping(cfg), b, o, now).1
    ensures LookupHttpsRr(cfg, a, o, now).1 == LookupHttpsRr(Keeping(cfg), b, o, now).1
  {
    NotMissed(log.negative, NegativeExpiry(log), now);
    NotMissed(log.altSvc, AltSvcExpiry(log), now);
    NotMissed(log.httpsRr, HttpsRrExpiry(log), now);
  }

  lemma NextInTurn(cfg: Config, s: State, e: Event, o: Origin, log: Log)
    requires Sound(cfg, s) && AtMostOne(s, o) && InTurn(s, o, log) && (Starts(s, e, o) ==> Idle(s, o))
    ensures InTurn(Next(cfg, s, e), o, NotedEvent(cfg, s, e, o, log))
    ensures !Misled(s, e, o, log)
  {
    var n := Next(cfg, s, e);
    if e.On? && e.id in s.procs {
      var p := s.procs[e.id];
      NotedBy(cfg, p, e.input, o, log, s.clock);
      if Active(p, o) {
        NotMisled(log, p.pc.stage, p.now);
      }
    }
    forall id | id in n.procs && Active(n.procs[id], o)
      ensures LooksBy(NotedEvent(cfg, s, e, o, log), n.procs[id].now)
    {
      BecomesActive(cfg, s, e, o, id);
      NextNow(cfg, s, e, id);
      if e.On? && e.id in s.procs {
        NotedBy(cfg, s.procs[e.id], e.input, o, log, n.procs[id].now);
      }
    }
  }

  /** The captured instant is the present at the start and fixed from then on. */
  lemma NextNow(cfg: Config, s: State, e: Event, id: nat)
    requires id in s.procs && Next(cfg, s, e).procs[id].pc.H3?
    ensures var p, q := s.procs[id], Next(cfg, s, e).procs[id];
            q.now == if p.pc.Created? then s.clock else p.now
    ensures Next(cfg, s, e).procs[id].pc.H3? && !s.procs[id].pc.Created? ==> s.procs[id].pc.H3?
  {
  }

  lemma {:induction false} RunInTurn(cfg: Config, events: seq<Event>, o: Origin)
    requires Disjoint(cfg, INIT, events, o)
    ensures var s := Run(cfg, INIT, events); Sound(cfg, s) && AtMostOne(s, o) && InTurn(s, o, LogOf(cfg, events, o))
    ensures NeverMisled(cfg, events, o)
    decreases |events|
  {
    if events != [] {
      var n := |events| - 1;
      var s := Run(cfg, INIT, events[..n]);
      assert events == events[..n] + [events[n]];
      DisjointPrefix(cfg, INIT, events[..n], [events[n]], o);
      RunInTurn(cfg, events[..n], o);
      RunSnoc(cfg, INIT, events);
      NextSound(cfg, s, events[n]);
      NextAtMostOne(cfg, s, events[n], o);
      NextInTurn(cfg, s, events[n], o, LogOf(cfg, events[..n], o));
      NeverMisledSnoc(cfg, events, o);
    }
  }

  /** While the HTTP/3 phases at an origin do not overlap no lookup is misled: its requests do
      exactly what they would if no lookup ever removed anything, and at any instant from now on
      both clients give the same answers. */
  lemma EvictionIsInvisible(cfg: Config, events: seq<Event>, o: Origin, now: nat)
    requires cfg.evicts && Disjoint(cfg, INIT, events, o)
    ensures NeverMisled(cfg, events, o) && SameThroughout(cfg, events, o)
    ensures var s, t := Run(cfg, INIT, events), Run(Keeping(cfg), INIT, events);
            && s.clock == t.clock
            && (forall id | id in s.procs && Owned(s.procs[id], o) :: id in t.procs && s.procs[id] == t.procs[id])
            && (now >= s.clock ==>
                  && LookupNegative(cfg, s.caches, o, now).1 == LookupNegative(Keeping(cfg), t.caches, o, now).1
                  && LookupAltSvc(cfg, s.caches, o, now).1 == LookupAltSvc(Keeping(cfg), t.caches, o, now).1
                  && LookupHttpsRr(cfg, s.caches, o, now).1 == LookupHttpsRr(Keeping(cfg), t.caches, o, now).1)
  {
    RunInTurn(cfg, events, o);
    RunTwins(cfg, events, o);
    EvictionIsVisibleExactly(cfg, events, o);
    if now >= Run(cfg, INIT, events).clock {
      AnswersAgree(cfg, Run(cfg, INIT, events).caches, Run(Keeping(cfg), INIT, events).caches, o, LogOf(cfg, events, o), now);
    }
  }

  // ---- What may disappear ----

  /** An Alt-Svc entry also goes when a failure is recorded or the origin withdraws it. */
  predicate Withdraws(p: Proc, o: Origin) {
    || (p.pc.H3? && p.pc.origin == o && p.pc.stage.AltSvcRemove?)
    || (p.pc.AltSvcStore? && p.pc.origin == o && HeaderUpdate(p.pc.value, p.pc.at, o.port).Clear?)
  }

  /** Gone after the step only if expired at `t`, or withdrawn. */
  predicate LosesOnlyStale(t: nat, a: Caches, b: Caches, o: Origin, withdrawn: bool) {
    && (o in a.negative && o !in b.negative ==> a.negative[o] <= t)
    && (o in a.httpsRr && o !in b.httpsRr ==> !HttpsRr.Fresh(a.httpsRr[o], t))
    && (o in a.altSvc && o !in b.altSvc ==> !AltSvc.Fresh(a.altSvc[o], t) || withdrawn)
  }

  lemma StepLosesOnlyStale(cfg: Config, t: nat, c: Caches, p: Proc, i: Input, o: Origin)
    requires Dated(t, p)
    ensures LosesOnlyStale(t, c, Step(cfg, t, c, p, i).0, o, Withdraws(p, o))
  {
  }

  /** In every run, however requests overlap and however old the instants they captured: an entry
      that disappears had expired by the real clock, unless it is an Alt-Svc entry withdrawn by a
      recorded failure or by the origin. */
  lemma PurgesOnlyExpired(cfg: Config, events: seq<Event>, e: Event, o: Origin)
    ensures var s := Run(cfg, INIT, events);
            LosesOnlyStale(s.clock, s.caches, Next(cfg, s, e).caches, o,
                           e.On? && e.id in s.procs && Withdraws(s.procs[e.id], o))
  {
    RunSound(cfg, INIT, events);
    var s := Run(cfg, INIT, events);
    if e.On? && e.id in s.procs {
      StepLosesOnlyStale(cfg, s.clock, s.caches, s.procs[e.id], e.input, o);
    }
  }

  // ---- A cached answer ----

  predicate Stores(s: State, e: Event, o: Origin) {
    e.On? && e.id in s.procs && s.procs[e.id].pc.H3? && s.procs[e.id].pc.origin == o && s.procs[e.id].pc.stage.HttpsRrStore?
  }

  /** No other answer for `o` is stored on the way. */
  predicate Undisturbed(cfg: Config, s: State, events: seq<Event>, o: Origin)
    decreases |events|
  {
    events != [] ==> !Stores(s, events[0], o) && Undisturbed(cfg, Next(cfg, s, events[0]), events[1..], o)
  }

  lemma StepKeepsAnswer(cfg: Config, t: nat, c: Caches, p: Proc, i: Input, o: Origin)
    requires !(p.pc.H3? && p.pc.origin == o && p.pc.stage.HttpsRrStore?)
    ensures var d := Step(cfg, t, c, p, i).0;
            o in d.httpsRr ==> o in c.httpsRr && d.httpsRr[o] == c.httpsRr[o]
  {
  }

  lemma {:induction false} ClockAdvances(cfg: Config, s: State, events: seq<Event>)
    ensures s.clock <= Run(cfg, s, events).clock
    decreases |events|
  {
    if events != [] {
      ClockAdvances(cfg, Next(cfg, s, events[0]), events[1..]);
    }
  }

  lemma {:induction false} AnswerStays(cfg: Config, s: State, events: seq<Event>, o: Origin)
    requires Sound(cfg, s) && Undisturbed(cfg, s, events, o) && o in s.caches.httpsRr
    requires HttpsRr.Fresh(s.caches.httpsRr[o], Run(cfg, s, events).clock)
    ensures var c := Run(cfg, s, events).caches;
            o in c.httpsRr && c.httpsRr[o] == s.caches.httpsRr[o]
    decreases |events|
  {
    if events != [] {
      var e := events[0];
      var n := Next(cfg, s, e);
      ClockAdvances(cfg, s, events);
      NextSound(cfg, s, e);
      if e.On? && e.id in s.procs {
        StepLosesOnlyStale(cfg, s.clock, s.caches, s.procs[e.id], e.input, o);
        StepKeepsAnswer(cfg, s.clock, s.caches, s.procs[e.id], e.input, o);
      }
      assert o in n.caches.httpsRr && n.caches.httpsRr[o] == s.caches.httpsRr[o];
      AnswerStays(cfg, n, events[1..], o);
    }
  }

  /** Once an HTTPS RR answer is stored, with or without h3, every lookup until it expires by the
      real clock gives that same answer, however old the instant the lookup judges by, unless
      another answer for the origin is stored over it. */
  lemma AnswerHolds(cfg: Config, before: seq<Event>, id: nat, after: seq<Event>, now: nat)
    requires var s := Run(cfg, INIT, before);
             id in s.procs && s.procs[id].pc.H3? && s.procs[id].pc.stage.HttpsRrStore?
    requires var s := Run(cfg, INIT, before); var n := Next(cfg, s, On(id, Proceed));
             && Undisturbed(cfg, n, after, s.procs[id].pc.origin)
             && HttpsRr.Fresh(s.procs[id].pc.stage.entry, Run(cfg, n, after).clock)
             && now <= Run(cfg, n, after).clock
    ensures var s := Run(cfg, INIT, before); var n := Next(cfg, s, On(id, Proceed)); var pc := s.procs[id].pc;
            LookupHttpsRr(cfg, Run(cfg, n, after).caches, pc.origin, now).1 == Some(pc.stage.entry)
  {
    var s := Run(cfg, INIT, before);
    var n := Next(cfg, s, On(id, Proceed));
    RunSound(cfg, INIT, before);
    NextSound(cfg, s, On(id, Proceed));
    AnswerStays(cfg, n, after, s.procs[id].pc.origin);
  }
}
