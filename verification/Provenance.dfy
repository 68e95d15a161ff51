/** Where every HTTP/3 attempt gets its target from. */
module Provenance {
  import opened Wrappers
  import opened AltSvc
  import opened HttpsRr
  import opened Client
  import opened Machine
  import opened RequestLaws

  /** The entry is what an Alt-Svc header received for this very origin stands for. */
  ghost predicate FromHeader(seen: set<Discovery>, o: Origin, entry: AltSvcEntry) {
    exists d | d in seen :: d.HeaderSeen? && d.origin == o && d.value.Readable?
                           && FieldValue(d.value.text, d.at, o.port) == Entry(entry)
  }

  /** The entry is what an HTTPS RR answer for this very origin stands for. */
  ghost predicate FromRecords(seen: set<Discovery>, o: Origin, entry: HttpsRrEntry) {
    exists d | d in seen :: d.RecordsSeen? && d.origin == o && Choose(d.records, o.port) == Some(entry)
  }

  ghost predicate CachesGrounded(seen: set<Discovery>, c: Caches) {
    && (forall o | o in c.altSvc :: FromHeader(seen, o, c.altSvc[o]))
    && (forall o | o in c.httpsRr :: FromRecords(seen, o, c.httpsRr[o]))
  }

  /** The target is dialled at the source's port, at the host it names or else the origin's, and at
      the addresses it gives; the source was discovered for the origin and was fresh at the
      captured instant unless it was looked up by this request itself, and it offers h3. */
  ghost predicate Justified(seen: set<Discovery>, o: Origin, now: nat, source: Source, target: Target) {
    match source
    case FromAltSvc(entry) =>
      && FromHeader(seen, o, entry) && entry.expiresAt > now
      && target.host == (match entry.host case Some(host) => host case None => o.host)
      && target.port == entry.port && target.addresses == []
    case FromHttpsRr(entry, cached) =>
      && FromRecords(seen, o, entry) && entry.hasH3 && (cached ==> entry.expiresAt > now)
      && target.host == o.host && target.port == entry.port && target.addresses == entry.addresses
  }

  ghost predicate ActJustified(seen: set<Discovery>, p: Proc, act: Act) {
    act.Attempted? ==>
      OriginOf(p.request.uri).Some?
      && Justified(seen, OriginOf(p.request.uri).value, p.now, act.source, act.target)
  }

  ghost predicate ProcGrounded(seen: set<Discovery>, p: Proc) {
    && (forall act | act in p.trail :: ActJustified(seen, p, act))
    && (p.pc.Created? ==> p.trail == [])
    && match p.pc
       case H3(o, _, HttpsRrStore(entry)) => FromRecords(seen, o, entry)
       case H3(o, _, Attempt(source, _, target, _, _)) => Justified(seen, o, p.now, source, target)
       case AltSvcStore(o, value, at, _) => HeaderSeen(o, value, at) in seen
       case _ => true
  }

  // ---- Discoveries only accumulate ----

  lemma HeaderKept(seen: set<Discovery>, more: set<Discovery>, o: Origin, entry: AltSvcEntry)
    requires seen <= more && FromHeader(seen, o, entry)
    ensures FromHeader(more, o, entry)
  {
  }

  lemma ProcKept(seen: set<Discovery>, more: set<Discovery>, p: Proc)
    requires seen <= more && ProcGrounded(seen, p)
    ensures ProcGrounded(more, p)
  {
    forall act | act in p.trail
      ensures ActJustified(more, p, act)
    {
      assert ActJustified(seen, p, act);
    }
  }

  // ---- One step ----

  lemma GroundedStart(seen: set<Discovery>, t: nat, p: Proc, source: Source, index: nat, target: Target)
    requires p.pc.H3? && OriginOf(p.request.uri) == Some(p.pc.origin)
    requires forall act | act in p.trail :: ActJustified(seen, p, act)
    requires Justified(seen, p.pc.origin, p.now, source, target)
    ensures ProcGrounded(seen, StartAttempt(t, p, source, index, target))
  {
    var q := StartAttempt(t, p, source, index, target);
    forall act | act in q.trail
      ensures ActJustified(seen, q, act)
    {
      assert act in p.trail ==> ActJustified(seen, p, act);
    }
  }

  lemma GroundedDoes(seen: set<Discovery>, p: Proc, q: Proc, acts: seq<Act>)
    requires forall act | act in p.trail :: ActJustified(seen, p, act)
    requires q.trail == p.trail + acts && q.request == p.request && q.now == p.now
    requires forall act | act in acts :: !act.Attempted?
    ensures forall act | act in q.trail :: ActJustified(seen, q, act)
  {
    forall act | act in q.trail
      ensures ActJustified(seen, q, act)
    {
      assert act in p.trail ==> ActJustified(seen, p, act);
    }
  }

  lemma GroundedAttempt(seen: set<Discovery>, t: nat, p: Proc, i: Input)
    requires InAttempt(p) && ProcGrounded(seen, p) && OriginOf(p.request.uri) == Some(p.pc.origin)
    ensures ProcGrounded(seen, Resumes(t, p, i))
  {
    match i
    case PhaseDone(response) => GroundedCompleted(seen, t, p, response);
    case PhaseFailed => GroundedFailed(seen, t, p);
    case TimeoutFires => GroundedInterrupt(seen, t, p, true);
    case FutureDropped => GroundedInterrupt(seen, t, p, false);
    case _ =>
  }

  lemma GroundedCompleted(seen: set<Discovery>, t: nat, p: Proc, response: Response)
    requires InAttempt(p) && ProcGrounded(seen, p)
    ensures ProcGrounded(seen, PhaseCompleted(t, p, response))
  {
    var q := PhaseCompleted(t, p, response);
    GroundedDoes(seen, p, q, if p.pc.stage.phase.Open? then [Opened(p.pc.stage.source)] else []);
  }

  lemma GroundedFailed(seen: set<Discovery>, t: nat, p: Proc)
    requires InAttempt(p) && ProcGrounded(seen, p) && OriginOf(p.request.uri) == Some(p.pc.origin)
    ensures ProcGrounded(seen, AttemptFailed(t, p))
  {
    var s := p.pc.stage;
    var r := LeavePhase(t, p).(armed := false);
    GroundedDoes(seen, p, r, []);
    if s.phase.Open? && s.index == 0 {
      GroundedStart(seen, t, r, s.source, 1, s.target);
    } else {
      GroundedDoes(seen, p, AttemptFailed(t, p), []);
    }
  }

  lemma GroundedInterrupt(seen: set<Discovery>, t: nat, p: Proc, byTimeout: bool)
    requires InAttempt(p) && ProcGrounded(seen, p)
    ensures ProcGrounded(seen, Interrupt(t, p, byTimeout))
  {
    GroundedDoes(seen, p, Interrupt(t, p, byTimeout), [Interrupted(t, true, byTimeout)]);
  }

  lemma GroundedAwait(seen: set<Discovery>, t: nat, p: Proc, i: Input)
    requires p.pc.H3? && p.pc.stage.HttpsRrAwait? && ProcGrounded(seen, p)
    requires i.HttpsRrAnswer? && i.records.Some? ==> RecordsSeen(p.pc.origin, i.records.value) in seen
    ensures ProcGrounded(seen, Resumes(t, p, i))
  {
    var q := Resumes(t, p, i);
    GroundedDoes(seen, p, q, q.trail[|p.trail|..]);
  }

  lemma GroundedHttpsRr(seen: set<Discovery>, t: nat, p: Proc, entry: HttpsRrEntry, cached: bool)
    requires p.pc.H3? && ProcGrounded(seen, p) && OriginOf(p.request.uri) == Some(p.pc.origin)
    requires FromRecords(seen, p.pc.origin, entry) && (cached ==> HttpsRr.Fresh(entry, p.now))
    ensures ProcGrounded(seen, StartHttpsRr(t, p, entry, cached))
  {
    if entry.hasH3 {
      GroundedStart(seen, t, p, FromHttpsRr(entry, cached), 0, HttpsRrTarget(p.pc.origin, entry));
    } else {
      GroundedDoes(seen, p, StartHttpsRr(t, p, entry, cached), []);
    }
  }

  lemma GroundedProceeds(cfg: Config, seen: set<Discovery>, t: nat, c: Caches, p: Proc)
    requires p.pc.H3? && !Suspended(p.pc.stage) && ProcGrounded(seen, p) && CachesGrounded(seen, c)
    requires OriginOf(p.request.uri) == Some(p.pc.origin)
    ensures ProcGrounded(seen, Proceeds(cfg, t, c, p).1)
  {
    var o := p.pc.origin;
    var q := Proceeds(cfg, t, c, p).1;
    match p.pc.stage
    case AltSvcLookup =>
      var entry := LookupAltSvc(cfg, c, o, p.now).1;
      if entry.Some? {
        GroundedStart(seen, t, p, FromAltSvc(entry.value), 0, AltSvcTarget(o, entry.value));
      } else {
        GroundedDoes(seen, p, q, []);
      }
    case HttpsRrLookup =>
      var entry := LookupHttpsRr(cfg, c, o, p.now).1;
      if entry.Some? {
        GroundedHttpsRr(seen, t, p, entry.value, true);
      } else {
        GroundedDoes(seen, p, q, []);
      }
    case HttpsRrStore(entry) => GroundedHttpsRr(seen, t, p, entry, false);
    case NegativeWrite(base, _) => GroundedDoes(seen, p, q, [WroteNegative(base)]);
    case AltSvcRemove(_) => GroundedDoes(seen, p, q, [RemovedAltSvc]);
    case _ => GroundedDoes(seen, p, q, []);
  }

  /** A step keeps the caches grounded: what it stores was discovered for the same origin. */
  lemma ProceedsCaches(cfg: Config, seen: set<Discovery>, t: nat, c: Caches, p: Proc)
    requires p.pc.H3? && CachesGrounded(seen, c) && ProcGrounded(seen, p)
    ensures CachesGrounded(seen, Proceeds(cfg, t, c, p).0)
  {
    match p.pc.stage
    case NegativeCheck => assert CachesGrounded(seen, CheckNegative(cfg, c, p).0);
    case AltSvcLookup => assert CachesGrounded(seen, CheckAltSvc(cfg, t, c, p).0);
    case HttpsRrLookup => assert CachesGrounded(seen, CheckHttpsRr(cfg, t, c, p).0);
    case HttpsRrStore(_) => assert CachesGrounded(seen, KeepHttpsRr(t, c, p).0);
    case NegativeWrite(_, _) => assert CachesGrounded(seen, RecordFailure(cfg, c, p).0);
    case AltSvcRemove(_) => assert CachesGrounded(seen, ForgetAltSvc(t, c, p).0);
    case _ =>
  }

  lemma GroundedCaches(cfg: Config, seen: set<Discovery>, t: nat, c: Caches, p: Proc, i: Input)
    requires CachesGrounded(seen, c) && ProcGrounded(seen, p)
    ensures CachesGrounded(seen, Step(cfg, t, c, p, i).0)
  {
    if p.pc.H3? {
      ProceedsCaches(cfg, seen, t, c, p);
    } else if p.pc.AltSvcStore? && i.Proceed? {
      var update := HeaderUpdate(p.pc.value, p.pc.at, p.pc.origin.port);
      if update.Entry? {
        assert FromHeader(seen, p.pc.origin, update.entry);
        assert Step(cfg, t, c, p, i).0.altSvc == c.altSvc[p.pc.origin := update.entry];
      }
    }
  }

  lemma GroundedTcp(seen: set<Discovery>, t: nat, p: Proc, i: Input)
    requires p.pc.TcpAwait? && ProcGrounded(seen, p)
    requires i.TcpAnswer? && i.result.Ok? && i.result.value.altSvc.Some? && OriginOf(p.request.uri).Some? ==>
               HeaderSeen(OriginOf(p.request.uri).value, i.result.value.altSvc.value, t) in seen
    ensures forall cfg, c :: ProcGrounded(seen, Step(cfg, t, c, p, i).1)
  {
    forall cfg: Config, c: Caches
      ensures ProcGrounded(seen, Step(cfg, t, c, p, i).1)
    {
      var q := Step(cfg, t, c, p, i).1;
      GroundedDoes(seen, p, q, []);
    }
  }

  lemma GroundedStep(cfg: Config, seen: set<Discovery>, t: nat, c: Caches, p: Proc, i: Input)
    requires Admitted(cfg, p) && ProcGrounded(seen, p) && CachesGrounded(seen, c)
    requires p.pc.TcpAwait? && i.TcpAnswer? && i.result.Ok? && i.result.value.altSvc.Some?
             && OriginOf(p.request.uri).Some? ==>
               HeaderSeen(OriginOf(p.request.uri).value, i.result.value.altSvc.value, t) in seen
    requires p.pc.H3? && p.pc.stage.HttpsRrAwait? && i.HttpsRrAnswer? && i.records.Some? ==>
               RecordsSeen(p.pc.origin, i.records.value) in seen
    ensures ProcGrounded(seen, Step(cfg, t, c, p, i).1)
  {
    var q := Step(cfg, t, c, p, i).1;
    match p.pc
    case H3(_, _, stage) =>
      if stage.Attempt? {
        GroundedAttempt(seen, t, p, i);
      } else if stage.HttpsRrAwait? {
        GroundedAwait(seen, t, p, i);
      } else {
        GroundedProceeds(cfg, seen, t, c, p);
      }
    case TcpAwait(_) => GroundedTcp(seen, t, p, i);
    case TcpStart =>
      if i.Proceed? {
        GroundedDoes(seen, p, q, [SentTcp(Sent(p.request.uri, p.request.head, p.request.payload))]);
      }
    case AltSvcStore(_, _, _, _) => GroundedDoes(seen, p, q, []);
    case _ =>
  }

  // ---- Whole runs ----

  ghost predicate Grounded(cfg: Config, s: State) {
    && CachesGrounded(s.seen, s.caches)
    && forall id | id in s.procs :: Admitted(cfg, s.procs[id]) && ProcGrounded(s.seen, s.procs[id])
  }

  lemma CachesKept(seen: set<Discovery>, more: set<Discovery>, c: Caches)
    requires seen <= more && CachesGrounded(seen, c)
    ensures CachesGrounded(more, c)
  {
    forall o | o in c.altSvc
      ensures FromHeader(more, o, c.altSvc[o])
    {
      HeaderKept(seen, more, o, c.altSvc[o]);
    }
  }

  lemma NextGrounded(cfg: Config, s: State, e: Event)
    requires Grounded(cfg, s)
    ensures Grounded(cfg, Next(cfg, s, e))
  {
    var n := Next(cfg, s, e);
    if e.On? && e.id in s.procs {
      CachesKept(s.seen, n.seen, s.caches);
      ProcKept(s.seen, n.seen, s.procs[e.id]);
      GroundedCaches(cfg, n.seen, s.clock, s.caches, s.procs[e.id], e.input);
    }
    forall id | id in n.procs
      ensures Admitted(cfg, n.procs[id]) && ProcGrounded(n.seen, n.procs[id])
    {
      NextProc(cfg, s, e, id);
      if id in s.procs {
        ProcKept(s.seen, n.seen, s.procs[id]);
        if e.On? && e.id == id {
          StepAdmitted(cfg, s.clock, s.caches, s.procs[id], e.input);
          GroundedStep(cfg, n.seen, s.clock, s.caches, s.procs[id], e.input);
        }
      }
    }
  }

  lemma {:induction false} RunGrounded(cfg: Config, s: State, events: seq<Event>)
    requires Grounded(cfg, s)
    ensures Grounded(cfg, Run(cfg, s, events))
    decreases |events|
  {
    if events != [] {
      NextGrounded(cfg, s, events[0]);
      RunGrounded(cfg, Next(cfg, s, events[0]), events[1..]);
    }
  }

  /** The event is what the discovery came from: the Alt-Svc header of a TCP response, at that
      instant, to a request awaiting one for the origin, or the answer to a request awaiting its
      HTTPS RR lookup for the origin. */
  predicate Tells(s: State, e: Event, d: Discovery) {
    && e.On? && e.id in s.procs && OriginOf(s.procs[e.id].request.uri) == Some(d.origin)
    && var p := s.procs[e.id];
       match d
       case HeaderSeen(_, value, at) =>
         p.pc.TcpAwait? && s.clock == at
         && e.input.TcpAnswer? && e.input.result.Ok? && e.input.result.value.altSvc == Some(value)
       case RecordsSeen(_, records) =>
         p.pc.H3? && p.pc.stage.HttpsRrAwait? && e.input == HttpsRrAnswer(Some(records))
  }

  /** Event `k` of the run told it. */
  ghost predicate ToldAt(cfg: Config, events: seq<Event>, d: Discovery, k: nat) {
    k < |events| && Tells(Run(cfg, INIT, events[..k]), events[k], d)
  }

  lemma NewlyTold(cfg: Config, s: State, e: Event, d: Discovery)
    requires Grounded(cfg, s)
    requires d in Next(cfg, s, e).seen && d !in s.seen
    ensures Tells(s, e, d)
  {
    assert e.On? && e.id in s.procs;
    assert Admitted(cfg, s.procs[e.id]);
  }

  /** Every discovery comes from an event of the run at which a request to that origin was
      awaiting it. */
  lemma {:induction false} AllTold(cfg: Config, events: seq<Event>, d: Discovery) returns (k: nat)
    requires d in Run(cfg, INIT, events).seen
    ensures ToldAt(cfg, events, d, k)
    decreases |events|
  {
    assert events != [];
    var n := |events| - 1;
    var s := Run(cfg, INIT, events[..n]);
    RunSnoc(cfg, INIT, events);
    if d in s.seen {
      k := AllTold(cfg, events[..n], d);
      assert events[..n][..k] == events[..k] && events[..n][k] == events[k];
    } else {
      k := n;
      RunGrounded(cfg, INIT, events[..n]);
      NewlyTold(cfg, s, events[n], d);
    }
  }

  /** In every run, every HTTP/3 attempt of every request dials what an Alt-Svc header on a TCP
      response to the same https origin named, or what an HTTPS RR answer for that origin named
      and offered h3, at an event of the run that told a request so; an entry taken from a cache was
      unexpired at the request's captured start. */
  lemma AttemptsHaveProvenance(cfg: Config, events: seq<Event>, id: nat, k: nat)
    requires var s := Run(cfg, INIT, events);
             id in s.procs && k < |s.procs[id].trail| && s.procs[id].trail[k].Attempted?
    ensures var s := Run(cfg, INIT, events); var p := s.procs[id]; var act := p.trail[k];
            && OriginOf(p.request.uri).Some?
            && var o := OriginOf(p.request.uri).value;
               && Justified(s.seen, o, p.now, act.source, act.target)
               && forall d | d in s.seen :: exists k: nat :: ToldAt(cfg, events, d, k)
  {
    RunGrounded(cfg, INIT, events);
    var s := Run(cfg, INIT, events);
    assert ActJustified(s.seen, s.procs[id], s.procs[id].trail[k]);
    forall d | d in s.seen
      ensures exists k: nat :: ToldAt(cfg, events, d, k)
    {
      var k := AllTold(cfg, events, d);
    }
  }
}
