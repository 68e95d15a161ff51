/** Requests to different origins do not affect each other: what a run does for one origin is
    what it would do if every other request were left out. */
module Interference {
  import opened Wrappers
  import opened Client
  import opened Machine
  import opened RequestLaws

  /** The request is to `o`. */
  predicate Owned(p: Proc, o: Origin) {
    OriginOf(p.request.uri) == Some(o)
  }

  predicate SameAt<V(==)>(a: map<Origin, V>, b: map<Origin, V>, o: Origin) {
    (o in a <==> o in b) && (o in a && o in b ==> a[o] == b[o])
  }

  /** Two sets of caches hold the same for `o`. */
  predicate AgreeOn(a: Caches, b: Caches, o: Origin) {
    SameAt(a.negative, b.negative, o) && SameAt(a.altSvc, b.altSvc, o) && SameAt(a.httpsRr, b.httpsRr, o)
  }

  /** `t` is what `s` shows of `o`: its requests and nothing else, the same caches, the same
      recorded failures, the same discoveries. */
  ghost predicate ShowsOnly(s: State, t: State, o: Origin) {
    && s.clock == t.clock
    && AgreeOn(s.caches, t.caches, o)
    && (forall id :: id in t.procs <==> id in s.procs && Owned(s.procs[id], o))
    && (forall id | id in t.procs :: t.procs[id] == s.procs[id])
    && Failures(s, o) == Failures(t, o)
    && (forall d: Discovery | d.origin == o :: d in s.seen <==> d in t.seen)
  }

  /** Events that concern `o`: time, the arrival of a request to it, and what happens to one. */
  predicate Concerns(s: State, e: Event, o: Origin) {
    match e
    case Tick(_) => true
    case Spawn(id, request) => id !in s.procs && OriginOf(request.uri) == Some(o)
    case On(id, _) => id in s.procs && Owned(s.procs[id], o)
  }

  /** A run with every event that does not concern `o` left out. */
  function Restrict(cfg: Config, s: State, events: seq<Event>, o: Origin): seq<Event>
    decreases |events|
  {
    if events == [] then []
    else
      (if Concerns(s, events[0], o) then [events[0]] else [])
      + Restrict(cfg, Next(cfg, s, events[0]), events[1..], o)
  }

  ghost predicate AllAdmitted(cfg: Config, s: State) {
    forall id | id in s.procs :: Admitted(cfg, s.procs[id])
  }

  // ---- One step ----

  lemma LocalNegative(cfg: Config, a: Caches, b: Caches, p: Proc, o: Origin)
    requires p.pc.H3? && p.pc.origin == o && AgreeOn(a, b, o)
    ensures CheckNegative(cfg, a, p).1 == CheckNegative(cfg, b, p).1
    ensures AgreeOn(CheckNegative(cfg, a, p).0, CheckNegative(cfg, b, p).0, o)
  {
  }

  lemma LocalAltSvc(cfg: Config, t: nat, a: Caches, b: Caches, p: Proc, o: Origin)
    requires p.pc.H3? && p.pc.origin == o && AgreeOn(a, b, o)
    ensures CheckAltSvc(cfg, t, a, p).1 == CheckAltSvc(cfg, t, b, p).1
    ensures AgreeOn(CheckAltSvc(cfg, t, a, p).0, CheckAltSvc(cfg, t, b, p).0, o)
  {
    assert LookupAltSvc(cfg, a, o, p.now).1 == LookupAltSvc(cfg, b, o, p.now).1;
  }

  lemma LocalHttpsRr(cfg: Config, t: nat, a: Caches, b: Caches, p: Proc, o: Origin)
    requires p.pc.H3? && p.pc.origin == o && AgreeOn(a, b, o)
    ensures CheckHttpsRr(cfg, t, a, p).1 == CheckHttpsRr(cfg, t, b, p).1
    ensures AgreeOn(CheckHttpsRr(cfg, t, a, p).0, CheckHttpsRr(cfg, t, b, p).0, o)
  {
    assert LookupHttpsRr(cfg, a, o, p.now).1 == LookupHttpsRr(cfg, b, o, p.now).1;
  }

  lemma LocalWrites(cfg: Config, t: nat, a: Caches, b: Caches, p: Proc, o: Origin)
    requires p.pc.H3? && p.pc.origin == o && AgreeOn(a, b, o)
    ensures p.pc.stage.HttpsRrStore? ==>
              var x, y := KeepHttpsRr(t, a, p), KeepHttpsRr(t, b, p); x.1 == y.1 && AgreeOn(x.0, y.0, o)
    ensures p.pc.stage.NegativeWrite? ==>
              var x, y := RecordFailure(cfg, a, p), RecordFailure(cfg, b, p); x.1 == y.1 && AgreeOn(x.0, y.0, o)
    ensures p.pc.stage.AltSvcRemove? ==>
              var x, y := ForgetAltSvc(t, a, p), ForgetAltSvc(t, b, p); x.1 == y.1 && AgreeOn(x.0, y.0, o)
  {
  }

  lemma LocalProceeds(cfg: Config, t: nat, a: Caches, b: Caches, p: Proc, o: Origin)
    requires p.pc.H3? && p.pc.origin == o && AgreeOn(a, b, o)
    ensures Proceeds(cfg, t, a, p).1 == Proceeds(cfg, t, b, p).1
    ensures AgreeOn(Proceeds(cfg, t, a, p).0, Proceeds(cfg, t, b, p).0, o)
  {
    match p.pc.stage
    case NegativeCheck => LocalNegative(cfg, a, b, p, o);
    case AltSvcLookup => LocalAltSvc(cfg, t, a, b, p, o);
    case HttpsRrLookup => LocalHttpsRr(cfg, t, a, b, p, o);
    case _ => LocalWrites(cfg, t, a, b, p, o);
  }

  /** A step of a request to `o` sees and changes only what is cached for `o`. */
  lemma StepIsLocal(cfg: Config, t: nat, a: Caches, b: Caches, p: Proc, i: Input, o: Origin)
    requires Admitted(cfg, p) && Owned(p, o) && AgreeOn(a, b, o)
    ensures Step(cfg, t, a, p, i).1 == Step(cfg, t, b, p, i).1
    ensures AgreeOn(Step(cfg, t, a, p, i).0, Step(cfg, t, b, p, i).0, o)
  {
    if p.pc.H3? {
      LocalProceeds(cfg, t, a, b, p, o);
    }
  }

  /** A step of a request to another origin, or to none, leaves everything cached for `o` alone. */
  lemma StepIsElsewhere(cfg: Config, t: nat, c: Caches, p: Proc, i: Input, o: Origin)
    requires Admitted(cfg, p) && !Owned(p, o)
    ensures AgreeOn(c, Step(cfg, t, c, p, i).0, o)
  {
  }

  lemma NextAdmitted(cfg: Config, s: State, e: Event)
    requires AllAdmitted(cfg, s)
    ensures AllAdmitted(cfg, Next(cfg, s, e))
  {
    var n := Next(cfg, s, e);
    forall id | id in n.procs
      ensures Admitted(cfg, n.procs[id])
    {
      NextProc(cfg, s, e, id);
      if e.On? && e.id == id && id in s.procs {
        StepAdmitted(cfg, s.clock, s.caches, s.procs[id], e.input);
      }
    }
  }

  // ---- One event ----

  lemma SpawnShown(cfg: Config, s: State, t: State, id: nat, r: Request, o: Origin)
    requires ShowsOnly(s, t, o)
    ensures var e := Spawn(id, r);
            ShowsOnly(Next(cfg, s, e), if Concerns(s, e, o) then Next(cfg, t, e) else t, o)
  {
    if id !in s.procs {
      if OriginOf(r.uri) == Some(o) {
        OwnSpawnShown(s, t, id, r, o);
      } else {
        OtherSpawnShown(s, t, id, r, o);
      }
    }
  }

  lemma OwnSpawnShown(s: State, t: State, id: nat, r: Request, o: Origin)
    requires ShowsOnly(s, t, o) && id !in s.procs && OriginOf(r.uri) == Some(o)
    ensures ShowsOnly(s.(procs := s.procs[id := NewProc(r)]), t.(procs := t.procs[id := NewProc(r)]), o)
  {
  }

  lemma OtherSpawnShown(s: State, t: State, id: nat, r: Request, o: Origin)
    requires ShowsOnly(s, t, o) && id !in s.procs && OriginOf(r.uri) != Some(o)
    ensures ShowsOnly(s.(procs := s.procs[id := NewProc(r)]), t, o)
  {
  }

  /** An event at a request to `o` shows the same on both sides. */
  lemma OwnStepShown(cfg: Config, s: State, t: State, id: nat, i: Input, o: Origin)
    requires ShowsOnly(s, t, o) && AllAdmitted(cfg, s)
    requires id in s.procs && Owned(s.procs[id], o)
    ensures ShowsOnly(Next(cfg, s, On(id, i)), Next(cfg, t, On(id, i)), o)
  {
    var p := s.procs[id];
    StepIsLocal(cfg, s.clock, s.caches, t.caches, p, i, o);
    OwnHistory(s, t, p, i, o);
    var n, m := Next(cfg, s, On(id, i)), Next(cfg, t, On(id, i));
    assert Owned(n.procs[id], o) by {
      StepRequest(cfg, s.clock, s.caches, p, i);
    }
    assert Failures(n, o) == Failures(m, o);
    assert n.procs == s.procs[id := n.procs[id]] && m.procs == t.procs[id := n.procs[id]];
  }

  lemma OwnHistory(s: State, t: State, p: Proc, i: Input, o: Origin)
    requires ShowsOnly(s, t, o) && Owned(p, o)
    requires p.pc.H3? ==> p.pc.origin == o
    ensures (if o in Recorded(s, p, i) then Recorded(s, p, i)[o] else []) ==
            (if o in Recorded(t, p, i) then Recorded(t, p, i)[o] else [])
    ensures forall d: Discovery | d.origin == o :: d in Discovered(s, p, i) <==> d in Discovered(t, p, i)
  {
  }

  /** An event at any other request shows nothing of `o`. */
  lemma OtherStepHidden(cfg: Config, s: State, t: State, id: nat, i: Input, o: Origin)
    requires ShowsOnly(s, t, o) && AllAdmitted(cfg, s)
    requires id in s.procs && !Owned(s.procs[id], o)
    ensures ShowsOnly(Next(cfg, s, On(id, i)), t, o)
  {
    var p := s.procs[id];
    StepIsElsewhere(cfg, s.clock, s.caches, p, i, o);
    StepRequest(cfg, s.clock, s.caches, p, i);
    OtherHistory(cfg, s, p, i, o);
    var n := Next(cfg, s, On(id, i));
    assert AgreeOn(n.caches, t.caches, o);
    assert Failures(n, o) == Failures(s, o);
  }

  lemma OtherHistory(cfg: Config, s: State, p: Proc, i: Input, o: Origin)
    requires Admitted(cfg, p) && !Owned(p, o)
    ensures (if o in Recorded(s, p, i) then Recorded(s, p, i)[o] else []) == Failures(s, o)
    ensures forall d: Discovery | d.origin == o :: d in Discovered(s, p, i) <==> d in s.seen
  {
  }

  lemma EventShown(cfg: Config, s: State, t: State, e: Event, o: Origin)
    requires ShowsOnly(s, t, o) && AllAdmitted(cfg, s)
    ensures ShowsOnly(Next(cfg, s, e), if Concerns(s, e, o) then Next(cfg, t, e) else t, o)
  {
    match e
    case Tick(_) =>
    case Spawn(id, r) => SpawnShown(cfg, s, t, id, r, o);
    case On(id, i) =>
      if id in s.procs {
        if Owned(s.procs[id], o) {
          OwnStepShown(cfg, s, t, id, i, o);
        } else {
          OtherStepHidden(cfg, s, t, id, i, o);
        }
      }
  }

  // ---- Whole runs ----

  lemma {:induction false} RunShown(cfg: Config, s: State, t: State, events: seq<Event>, o: Origin)
    requires ShowsOnly(s, t, o) && AllAdmitted(cfg, s)
    ensures ShowsOnly(Run(cfg, s, events), Run(cfg, t, Restrict(cfg, s, events, o)), o)
    decreases |events|
  {
    if events != [] {
      var e, rest := events[0], events[1..];
      var n := Next(cfg, s, e);
      EventShown(cfg, s, t, e, o);
      NextAdmitted(cfg, s, e);
      var kept := Restrict(cfg, n, rest, o);
      if Concerns(s, e, o) {
        RunShown(cfg, n, Next(cfg, t, e), rest, o);
        assert ([e] + kept)[1..] == kept;
      } else {
        RunShown(cfg, n, t, rest, o);
        assert [] + kept == kept;
      }
    }
  }

  /** For every run and every origin, leaving out all that does not concern the origin is a run
      in which its requests are, step for step and in the end, exactly the same, and so is
      everything cached, recorded and discovered for it. */
  lemma OriginsDoNotInterfere(cfg: Config, events: seq<Event>, o: Origin)
    ensures ShowsOnly(Run(cfg, INIT, events), Run(cfg, INIT, Restrict(cfg, INIT, events, o)), o)
  {
    RunShown(cfg, INIT, INIT, events, o);
  }

  /** So two runs that agree on what concerns an origin end the same for it, whatever else
      happens in them. */
  lemma OnlyOwnEventsMatter(cfg: Config, a: seq<Event>, b: seq<Event>, o: Origin, id: nat)
    requires Restrict(cfg, INIT, a, o) == Restrict(cfg, INIT, b, o)
    requires var s := Run(cfg, INIT, a); id in s.procs && Owned(s.procs[id], o)
    ensures var s, t := Run(cfg, INIT, a), Run(cfg, INIT, b);
            && id in t.procs && t.procs[id] == s.procs[id]
            && AgreeOn(s.caches, t.caches, o)
  {
    OriginsDoNotInterfere(cfg, a, o);
    OriginsDoNotInterfere(cfg, b, o);
  }
}
