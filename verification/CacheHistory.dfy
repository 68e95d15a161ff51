/** What each cache has been through at an origin, and the exact answers of lookups in terms of
    it: in every run, however requests overlap. */
module CacheHistory {
  import opened Wrappers
  import opened AltSvc
  import opened HttpsRr
  import opened Client
  import opened Machine
  import opened RequestLaws
  import opened Interference

  /** What was last written, none if that was a removal on purpose, and the instants by which
      lookups since then have judged it. */
  datatype History<+V> = History(written: Option<V>, looks: set<nat>) {
    function Look(now: nat): History<V> {
      this.(looks := looks + {now})
    }
  }

  function Write<V>(v: Option<V>): History<V> {
    History(v, {})
  }

  datatype Log = Log(negative: History<nat>, altSvc: History<AltSvcEntry>, httpsRr: History<HttpsRrEntry>)

  const BLANK := Log(Write(None), Write(None), Write(None))

  // ---- The history of a run ----

  function NotedStage(cfg: Config, now: nat, stage: Stage, log: Log): Log {
    match stage
    case NegativeCheck => log.(negative := log.negative.Look(now))
    case AltSvcLookup => log.(altSvc := log.altSvc.Look(now))
    case HttpsRrLookup => log.(httpsRr := log.httpsRr.Look(now))
    case HttpsRrStore(entry) => log.(httpsRr := Write(Some(entry)))
    case NegativeWrite(base, _) => log.(negative := Write(Some(base + cfg.negativeDuration)))
    case AltSvcRemove(_) => log.(altSvc := Write(None))
    case _ => log
  }

  function NotedUpdate(update: AltSvcUpdate, log: Log): Log {
    match update
    case Clear => log.(altSvc := Write(None))
    case Entry(entry) => log.(altSvc := Write(Some(entry)))
    case NoAlternative => log
  }

  function Noted(cfg: Config, p: Proc, i: Input, o: Origin, log: Log): Log {
    if !i.Proceed? then log
    else if p.pc.H3? && p.pc.origin == o then NotedStage(cfg, p.now, p.pc.stage, log)
    else if p.pc.AltSvcStore? && p.pc.origin == o then NotedUpdate(HeaderUpdate(p.pc.value, p.pc.at, o.port), log)
    else log
  }

  function NotedEvent(cfg: Config, s: State, e: Event, o: Origin, log: Log): Log {
    if e.On? && e.id in s.procs then Noted(cfg, s.procs[e.id], e.input, o, log) else log
  }

  /** Whether or not lookups evict, the history notes what is written and by which instants
      lookups judge. */
  function LogOf(cfg: Config, events: seq<Event>, o: Origin): Log
    decreases |events|
  {
    if events == [] then BLANK
    else
      var n := |events| - 1;
      NotedEvent(cfg, Run(cfg, INIT, events[..n]), events[n], o, LogOf(cfg, events[..n], o))
  }

  // ---- What the caches hold by that history ----

  /** No lookup has judged it stale: all were by instants before the expiry. */
  predicate Outlives(looks: set<nat>, expiry: nat) {
    forall m | m in looks :: m < expiry
  }

  function At<V>(m: map<Origin, V>, o: Origin): Option<V> {
    if o in m then Some(m[o]) else None
  }

  function Left<V>(evicts: bool, h: History<V>, expiry: nat): Option<V> {
    if evicts && !Outlives(h.looks, expiry) then None else h.written
  }

  function NegativeExpiry(log: Log): nat {
    if log.negative.written.Some? then log.negative.written.value else 0
  }

  function AltSvcExpiry(log: Log): nat {
    if log.altSvc.written.Some? then log.altSvc.written.value.expiresAt else 0
  }

  function HttpsRrExpiry(log: Log): nat {
    if log.httpsRr.written.Some? then log.httpsRr.written.value.expiresAt else 0
  }

  predicate ExplainsNegative(evicts: bool, log: Log, c: Caches, o: Origin) {
    At(c.negative, o) == Left(evicts, log.negative, NegativeExpiry(log))
  }

  predicate ExplainsAltSvc(evicts: bool, log: Log, c: Caches, o: Origin) {
    At(c.altSvc, o) == Left(evicts, log.altSvc, AltSvcExpiry(log))
  }

  predicate ExplainsHttpsRr(evicts: bool, log: Log, c: Caches, o: Origin) {
    At(c.httpsRr, o) == Left(evicts, log.httpsRr, HttpsRrExpiry(log))
  }

  predicate Explains(evicts: bool, log: Log, c: Caches, o: Origin) {
    ExplainsNegative(evicts, log, c, o) && ExplainsAltSvc(evicts, log, c, o) && ExplainsHttpsRr(evicts, log, c, o)
  }

  // ---- One step ----

  lemma OutlivesLook(looks: set<nat>, expiry: nat, now: nat)
    ensures Outlives(looks + {now}, expiry) <==> Outlives(looks, expiry) && now < expiry
  {
    assert now in looks + {now};
  }

  lemma NegativeExplained(cfg: Config, c: Caches, p: Proc, log: Log)
    requires p.pc.H3? && p.pc.stage.NegativeCheck? && Explains(cfg.evicts, log, c, p.pc.origin)
    ensures Explains(cfg.evicts, NotedStage(cfg, p.now, p.pc.stage, log), CheckNegative(cfg, c, p).0, p.pc.origin)
  {
    OutlivesLook(log.negative.looks, NegativeExpiry(log), p.now);
  }

  lemma AltSvcExplained(cfg: Config, t: nat, c: Caches, p: Proc, log: Log)
    requires p.pc.H3? && p.pc.stage.AltSvcLookup? && Explains(cfg.evicts, log, c, p.pc.origin)
    ensures Explains(cfg.evicts, NotedStage(cfg, p.now, p.pc.stage, log), CheckAltSvc(cfg, t, c, p).0, p.pc.origin)
  {
    OutlivesLook(log.altSvc.looks, AltSvcExpiry(log), p.now);
  }

  lemma HttpsRrExplained(cfg: Config, t: nat, c: Caches, p: Proc, log: Log)
    requires p.pc.H3? && p.pc.stage.HttpsRrLookup? && Explains(cfg.evicts, log, c, p.pc.origin)
    ensures Explains(cfg.evicts, NotedStage(cfg, p.now, p.pc.stage, log), CheckHttpsRr(cfg, t, c, p).0, p.pc.origin)
  {
    OutlivesLook(log.httpsRr.looks, HttpsRrExpiry(log), p.now);
  }

  lemma StoreExplained(cfg: Config, t: nat, c: Caches, p: Proc, log: Log)
    requires p.pc.H3? && p.pc.stage.HttpsRrStore? && Explains(cfg.evicts, log, c, p.pc.origin)
    ensures Explains(cfg.evicts, NotedStage(cfg, p.now, p.pc.stage, log), KeepHttpsRr(t, c, p).0, p.pc.origin)
  {
  }

  lemma RecordExplained(cfg: Config, c: Caches, p: Proc, log: Log)
    requires p.pc.H3? && p.pc.stage.NegativeWrite? && Explains(cfg.evicts, log, c, p.pc.origin)
    ensures Explains(cfg.evicts, NotedStage(cfg, p.now, p.pc.stage, log), RecordFailure(cfg, c, p).0, p.pc.origin)
  {
  }

  lemma ForgetExplained(cfg: Config, t: nat, c: Caches, p: Proc, log: Log)
    requires p.pc.H3? && p.pc.stage.AltSvcRemove? && Explains(cfg.evicts, log, c, p.pc.origin)
    ensures Explains(cfg.evicts, NotedStage(cfg, p.now, p.pc.stage, log), ForgetAltSvc(t, c, p).0, p.pc.origin)
  {
  }

  lemma ProceedsExplained(cfg: Config, t: nat, c: Caches, p: Proc, log: Log)
    requires p.pc.H3? && Explains(cfg.evicts, log, c, p.pc.origin)
    ensures Explains(cfg.evicts, NotedStage(cfg, p.now, p.pc.stage, log), Proceeds(cfg, t, c, p).0, p.pc.origin)
  {
    match p.pc.stage
    case NegativeCheck => NegativeExplained(cfg, c, p, log);
    case AltSvcLookup => AltSvcExplained(cfg, t, c, p, log);
    case HttpsRrLookup => HttpsRrExplained(cfg, t, c, p, log);
    case HttpsRrStore(_) => StoreExplained(cfg, t, c, p, log);
    case NegativeWrite(_, _) => RecordExplained(cfg, c, p, log);
    case AltSvcRemove(_) => ForgetExplained(cfg, t, c, p, log);
    case _ =>
  }

  lemma UpdateExplained(evicts: bool, c: Caches, o: Origin, update: AltSvcUpdate, log: Log)
    requires Explains(evicts, log, c, o)
    ensures Explains(evicts, NotedUpdate(update, log), ApplyUpdate(c, o, update), o)
  {
  }

  lemma ExplainsSame(evicts: bool, log: Log, a: Caches, b: Caches, o: Origin)
    requires Explains(evicts, log, a, o) && AgreeOn(a, b, o)
    ensures Explains(evicts, log, b, o)
  {
  }

  lemma StepExplained(cfg: Config, t: nat, c: Caches, p: Proc, i: Input, o: Origin, log: Log)
    requires Admitted(cfg, p) && Explains(cfg.evicts, log, c, o)
    ensures Explains(cfg.evicts, Noted(cfg, p, i, o, log), Step(cfg, t, c, p, i).0, o)
  {
    if !Owned(p, o) {
      StepIsElsewhere(cfg, t, c, p, i, o);
      ExplainsSame(cfg.evicts, log, c, Step(cfg, t, c, p, i).0, o);
    } else if p.pc.H3? {
      ProceedsExplained(cfg, t, c, p, log);
    } else if p.pc.AltSvcStore? {
      UpdateExplained(cfg.evicts, c, o, HeaderUpdate(p.pc.value, p.pc.at, o.port), log);
    }
  }

  // ---- Whole runs ----

  lemma NextExplained(cfg: Config, s: State, e: Event, o: Origin, log: Log)
    requires AllAdmitted(cfg, s) && Explains(cfg.evicts, log, s.caches, o)
    ensures AllAdmitted(cfg, Next(cfg, s, e))
    ensures Explains(cfg.evicts, NotedEvent(cfg, s, e, o, log), Next(cfg, s, e).caches, o)
  {
    NextAdmitted(cfg, s, e);
    if e.On? && e.id in s.procs {
      StepExplained(cfg, s.clock, s.caches, s.procs[e.id], e.input, o, log);
    }
  }

  lemma {:induction false} RunExplained(cfg: Config, events: seq<Event>, o: Origin)
    ensures AllAdmitted(cfg, Run(cfg, INIT, events))
    ensures Explains(cfg.evicts, LogOf(cfg, events, o), Run(cfg, INIT, events).caches, o)
    decreases |events|
  {
    if events != [] {
      var n := |events| - 1;
      RunExplained(cfg, events[..n], o);
      RunSnoc(cfg, INIT, events);
      NextExplained(cfg, Run(cfg, INIT, events[..n]), events[n], o, LogOf(cfg, events[..n], o));
    }
  }

  /** In every run, a lookup answers with what was last written exactly when that is unexpired by
      the instant asked and no lookup since was by an instant at or after its expiry. */
  lemma LookupsAreExact(cfg: Config, events: seq<Event>, o: Origin, now: nat, alt: AltSvcEntry, rr: HttpsRrEntry)
    requires cfg.evicts
    ensures var c, log := Run(cfg, INIT, events).caches, LogOf(cfg, events, o);
            && (LookupNegative(cfg, c, o, now).1 <==>
                  exists x :: log.negative.written == Some(x) && x > now && Outlives(log.negative.looks, x))
            && (LookupAltSvc(cfg, c, o, now).1 == Some(alt) <==>
                  log.altSvc.written == Some(alt) && AltSvc.Fresh(alt, now) && Outlives(log.altSvc.looks, alt.expiresAt))
            && (LookupHttpsRr(cfg, c, o, now).1 == Some(rr) <==>
                  log.httpsRr.written == Some(rr) && HttpsRr.Fresh(rr, now) && Outlives(log.httpsRr.looks, rr.expiresAt))
  {
    RunExplained(cfg, events, o);
    var log := LogOf(cfg, events, o);
    assert log.negative.written.Some? ==> log.negative.written == Some(log.negative.written.value);
  }

  // ---- The gate ----

  /** The window of the last recorded failure, counted from its base. */
  function LastWindow(cfg: Config, s: State, o: Origin): Option<nat> {
    var failures := Failures(s, o);
    if failures == [] then None else Some(failures[|failures| - 1] + cfg.negativeDuration)
  }

  lemma NextWindow(cfg: Config, s: State, e: Event, o: Origin, log: Log)
    requires AllAdmitted(cfg, s) && log.negative.written == LastWindow(cfg, s, o)
    ensures NotedEvent(cfg, s, e, o, log).negative.written == LastWindow(cfg, Next(cfg, s, e), o)
  {
    if e.On? && e.id in s.procs {
      var p := s.procs[e.id];
      assert Admitted(cfg, p);
      assert Failures(Next(cfg, s, e), o) ==
             if p.pc.H3? && p.pc.origin == o && p.pc.stage.NegativeWrite? && e.input.Proceed?
             then Failures(s, o) + [p.pc.stage.base] else Failures(s, o);
    }
  }

  lemma {:induction false} RunWindow(cfg: Config, events: seq<Event>, o: Origin)
    ensures LogOf(cfg, events, o).negative.written == LastWindow(cfg, Run(cfg, INIT, events), o)
    decreases |events|
  {
    if events != [] {
      var n := |events| - 1;
      RunWindow(cfg, events[..n], o);
      RunExplained(cfg, events[..n], o);
      RunSnoc(cfg, INIT, events);
      NextWindow(cfg, Run(cfg, INIT, events[..n]), events[n], o, LogOf(cfg, events[..n], o));
    }
  }

  /** In every run, a request is turned away at its check if and only if the window of the last
      written failure is open at its captured start and was open at the captured start of every
      check since. */
  lemma GateIsExact(cfg: Config, events: seq<Event>, id: nat)
    requires cfg.evicts
    requires var s := Run(cfg, INIT, events);
             id in s.procs && s.procs[id].pc.H3? && s.procs[id].pc.stage.NegativeCheck?
    ensures var s := Run(cfg, INIT, events); var p := s.procs[id]; var o := p.pc.origin;
            var window := LastWindow(cfg, s, o); var pc := Next(cfg, s, On(id, Proceed)).procs[id].pc;
            && (pc == TcpStart <==>
                  window.Some? && window.value > p.now
                  && forall m | m in LogOf(cfg, events, o).negative.looks :: m < window.value)
            && (pc != TcpStart ==> pc == p.pc.(stage := AltSvcLookup))
  {
    var o := Run(cfg, INIT, events).procs[id].pc.origin;
    RunExplained(cfg, events, o);
    RunWindow(cfg, events, o);
  }
}
