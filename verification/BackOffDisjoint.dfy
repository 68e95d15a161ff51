/** Back-off when the HTTP/3 phases at an origin do not overlap: every recorded failure keeps
    every later request away for the whole window, and the recorded expiry never goes back. */
module BackOffDisjoint {
  import opened Wrappers
  import opened Client
  import opened Machine
  import opened RequestLaws
  import opened Interference
  import opened Overlap
  import opened BackOff

  predicate HasAttempt(p: Proc) {
    exists act | act in p.trail :: act.Attempted?
  }

  /** The first `born` failures were recorded before the request started; once past the negative
      check it started after their windows. */
  predicate Kept(cfg: Config, failures: seq<nat>, born: nat, p: Proc) {
    && born <= |failures|
    && (HasAttempt(p) || (p.pc.H3? && !p.pc.stage.NegativeCheck?) ==> Over(cfg, failures, born, p.now))
  }

  /** What the one active request knows of the entry and the failures. */
  predicate Informed(cfg: Config, entry: Option<nat>, failures: seq<nat>, born: nat, p: Proc)
    requires p.pc.H3?
  {
    match p.pc.stage
    case NegativeCheck =>
      && p.trail == [] && born == |failures| && Below(failures, p.now)
      && (entry.None? && failures != [] ==> failures[|failures| - 1] + cfg.negativeDuration <= p.now)
    case NegativeWrite(base, then_) => Below(failures, base) && (then_.ToHttpsRr? ==> base == p.now)
    case AltSvcRemove(then_) => then_.ToHttpsRr? ==> Below(failures, p.now)
    case TimeoutStamp => true
    case _ => Below(failures, p.now)
  }

  // ---- One step of the active request ----

  lemma CheckKeeps(cfg: Config, t: nat, c: Caches, failures: seq<nat>, born: nat, p: Proc)
    requires p.pc.H3? && p.pc.stage.NegativeCheck? && Ascending(failures)
    requires LastWriter(cfg, t, NegativeAt(c, p.pc.origin), failures)
    requires Informed(cfg, NegativeAt(c, p.pc.origin), failures, born, p)
    ensures var q := CheckNegative(cfg, c, p).1;
            Kept(cfg, failures, born, q) && (q.pc.H3? ==> Below(failures, q.now))
  {
    var q := CheckNegative(cfg, c, p).1;
    if q.pc.H3? && failures != [] {
      assert failures[|failures| - 1] + cfg.negativeDuration <= p.now;
    }
  }

  /** Past the check, a step moves on with the same captured instant and, unless it writes, the
      same failures in view. */
  lemma MovesOn(cfg: Config, t: nat, c: Caches, failures: seq<nat>, born: nat, p: Proc, i: Input)
    requires p.pc.H3? && !p.pc.stage.NegativeCheck? && !p.pc.stage.NegativeWrite?
    requires Kept(cfg, failures, born, p) && Below(failures, t)
    requires Informed(cfg, NegativeAt(c, p.pc.origin), failures, born, p)
    ensures var q := Step(cfg, t, c, p, i).1;
            && Kept(cfg, failures, born, q)
            && (q.pc.H3? ==> !q.pc.stage.NegativeCheck? && Informed(cfg, None, failures, born, q))
  {
    var q := Step(cfg, t, c, p, i).1;
    assert q.now == p.now;
  }

  lemma WriteKeeps(cfg: Config, c: Caches, failures: seq<nat>, born: nat, p: Proc)
    requires p.pc.H3? && p.pc.stage.NegativeWrite?
    requires Kept(cfg, failures, born, p) && Ascending(failures)
    requires Informed(cfg, NegativeAt(c, p.pc.origin), failures, born, p)
    ensures var q := RecordFailure(cfg, c, p).1; var failures' := failures + [p.pc.stage.base];
            && Kept(cfg, failures', born, q) && Ascending(failures')
            && q.pc.H3? && q.pc.stage.AltSvcRemove? && Informed(cfg, None, failures', born, q)
  {
    var failures' := failures + [p.pc.stage.base];
    assert forall k | 0 <= k < born :: failures'[k] == failures[k];
  }

  // ---- States ----

  ghost predicate Disciplined(cfg: Config, s: State, o: Origin) {
    && LastWriterDecides(cfg, s, o)
    && AtMostOne(s, o)
    && Ascending(Failures(s, o))
    && s.begun.Keys <= s.procs.Keys
    && forall id | id in s.procs && Owned(s.procs[id], o) :: ProcDisciplined(cfg, s, o, id)
  }

  ghost predicate ProcDisciplined(cfg: Config, s: State, o: Origin, id: nat)
    requires id in s.procs
  {
    var p := s.procs[id];
    && (p.pc.Created? ==> p.trail == [])
    && (p.pc.H3? ==> id in s.begun && Informed(cfg, NegativeAt(s.caches, o), Failures(s, o), s.begun[id], p))
    && (HasAttempt(p) ==> id in s.begun)
    && (id in s.begun ==> Kept(cfg, Failures(s, o), s.begun[id], p))
    && (id in s.begun ==> !p.pc.Created?)
  }

  lemma KeptLater(cfg: Config, failures: seq<nat>, more: seq<nat>, born: nat, p: Proc)
    requires failures <= more && Kept(cfg, failures, born, p)
    ensures Kept(cfg, more, born, p)
  {
    assert forall k | 0 <= k < born :: more[k] == failures[k];
  }

  /** The step of a request that is not active touches neither the entry nor its history. */
  lemma InactiveStep(cfg: Config, t: nat, c: Caches, p: Proc, i: Input)
    requires Admitted(cfg, p) && !p.pc.H3?
    ensures var q := Step(cfg, t, c, p, i).1;
            && (HasAttempt(q) ==> HasAttempt(p))
            && (p.pc.Created? || (q.now == p.now && !q.pc.H3?))
            && (p.pc.Created? ==> q.trail == p.trail)
            && (q.pc.Created? ==> p.pc.Created?)
  {
    var q := Step(cfg, t, c, p, i).1;
    assert q.trail == p.trail || exists sent :: q.trail == p.trail + [SentTcp(sent)];
  }

  // ---- One event ----

  lemma OwnerOfActive(cfg: Config, s: State, o: Origin, id: nat)
    requires AllAdmitted(cfg, s) && id in s.procs
    ensures s.procs[id].pc.H3? && Owned(s.procs[id], o) ==> Active(s.procs[id], o)
    ensures Active(s.procs[id], o) ==> Owned(s.procs[id], o)
  {
    assert Admitted(cfg, s.procs[id]);
  }

  /** The active request's own step. */
  lemma ActiveDisciplined(cfg: Config, s: State, id: nat, i: Input, o: Origin)
    requires Disciplined(cfg, s, o) && id in s.procs && Active(s.procs[id], o)
    ensures var n := Next(cfg, s, On(id, i));
            && ProcDisciplined(cfg, n, o, id)
            && Ascending(Failures(n, o)) && Failures(s, o) <= Failures(n, o)
            && n.begun == s.begun
  {
    var p, n, failures := s.procs[id], Next(cfg, s, On(id, i)), Failures(s, o);
    OwnerOfActive(cfg, s, o, id);
    OwnSlotStep(cfg, s, id, i, o);
    var born := s.begun[id];
    if !i.Proceed? && !Suspended(p.pc.stage) {
      assert n.procs[id] == p;
    } else if p.pc.stage.NegativeCheck? {
      CheckKeeps(cfg, s.clock, s.caches, failures, born, p);
    } else if p.pc.stage.NegativeWrite? {
      WriteKeeps(cfg, s.caches, failures, born, p);
    } else {
      MovesOn(cfg, s.clock, s.caches, failures, born, p, i);
    }
  }

  /** A request starts while none is active. */
  lemma StartDisciplined(cfg: Config, s: State, id: nat, i: Input, o: Origin)
    requires Disciplined(cfg, s, o) && id in s.procs && Owned(s.procs[id], o) && !s.procs[id].pc.H3?
    ensures var n := Next(cfg, s, On(id, i));
            && ProcDisciplined(cfg, n, o, id)
            && Failures(n, o) == Failures(s, o)
            && (forall j | j != id :: j in n.begun <==> j in s.begun)
            && (forall j | j != id && j in s.begun :: n.begun[j] == s.begun[j])
            && n.begun.Keys <= n.procs.Keys
  {
    var p, n := s.procs[id], Next(cfg, s, On(id, i));
    assert Admitted(cfg, p);
    InactiveStep(cfg, s.clock, s.caches, p, i);
    OwnSlotStep(cfg, s, id, i, o);
    var q := n.procs[id];
    if p.pc.Created? {
      assert !HasAttempt(q);
    }
  }

  lemma OwnEventDisciplined(cfg: Config, s: State, id: nat, i: Input, o: Origin)
    requires Disciplined(cfg, s, o) && id in s.procs && Owned(s.procs[id], o)
    requires Starts(s, On(id, i), o) ==> Idle(s, o)
    ensures var n := Next(cfg, s, On(id, i));
            && Ascending(Failures(n, o)) && n.begun.Keys <= n.procs.Keys
            && forall j | j in n.procs && Owned(n.procs[j], o) :: ProcDisciplined(cfg, n, o, j)
  {
    var n := Next(cfg, s, On(id, i));
    OwnerOfActive(cfg, s, o, id);
    if s.procs[id].pc.H3? {
      ActiveDisciplined(cfg, s, id, i, o);
    } else {
      StartDisciplined(cfg, s, id, i, o);
    }
    OwnSlotStep(cfg, s, id, i, o);
    forall j | j in n.procs && Owned(n.procs[j], o)
      ensures ProcDisciplined(cfg, n, o, j)
    {
      if j != id {
        OwnerOfActive(cfg, s, o, j);
        assert ProcDisciplined(cfg, s, o, j);
        if j in s.begun {
          KeptLater(cfg, Failures(s, o), Failures(n, o), s.begun[j], s.procs[j]);
        }
      }
    }
  }

  lemma OtherEventDisciplined(cfg: Config, s: State, e: Event, o: Origin)
    requires Disciplined(cfg, s, o)
    requires e.On? && e.id in s.procs ==> !Owned(s.procs[e.id], o)
    ensures var n := Next(cfg, s, e);
            && Ascending(Failures(n, o)) && n.begun.Keys <= n.procs.Keys
            && forall j | j in n.procs && Owned(n.procs[j], o) :: ProcDisciplined(cfg, n, o, j)
  {
    var n := Next(cfg, s, e);
    OtherSlotStep(cfg, s, e, o);
    forall j | j in n.procs && Owned(n.procs[j], o)
      ensures ProcDisciplined(cfg, n, o, j)
    {
      NextProc(cfg, s, e, j);
      if e.On? && e.id == j && j in s.procs {
        StepRequest(cfg, s.clock, s.caches, s.procs[j], e.input);
      } else if j in s.procs {
        assert ProcDisciplined(cfg, s, o, j);
      }
    }
  }

  lemma NextDisciplined(cfg: Config, s: State, e: Event, o: Origin)
    requires Disciplined(cfg, s, o)
    requires Starts(s, e, o) ==> Idle(s, o)
    ensures Disciplined(cfg, Next(cfg, s, e), o)
  {
    NextLastWriter(cfg, s, e, o);
    NextAtMostOne(cfg, s, e, o);
    if e.On? && e.id in s.procs && Owned(s.procs[e.id], o) {
      OwnEventDisciplined(cfg, s, e.id, e.input, o);
    } else {
      OtherEventDisciplined(cfg, s, e, o);
    }
  }

  // ---- Whole runs ----

  lemma {:induction false} RunDisciplined(cfg: Config, s: State, events: seq<Event>, o: Origin)
    requires Disciplined(cfg, s, o) && Disjoint(cfg, s, events, o)
    ensures Disciplined(cfg, Run(cfg, s, events), o)
    decreases |events|
  {
    if events != [] {
      NextDisciplined(cfg, s, events[0], o);
      RunDisciplined(cfg, Next(cfg, s, events[0]), events[1..], o);
    }
  }

  /** Failures accumulate, and a request that starts counts all there are. */
  lemma NextBorn(cfg: Config, s: State, e: Event, o: Origin, id: nat)
    requires Disciplined(cfg, s, o)
    ensures var n := Next(cfg, s, e);
            && Failures(s, o) <= Failures(n, o)
            && (id in n.begun && Owned(n.procs[id], o) ==>
                  if id in s.begun then n.begun[id] == s.begun[id] else n.begun[id] == |Failures(s, o)|)
    ensures Next(cfg, s, e).begun.Keys <= Next(cfg, s, e).procs.Keys
  {
    var n := Next(cfg, s, e);
    if e.On? && e.id in s.procs {
      assert Admitted(cfg, s.procs[e.id]) && Admitted(cfg, n.procs[e.id]) by {
        NextAdmitted(cfg, s, e);
      }
      if Owned(s.procs[e.id], o) {
        OwnSlotStep(cfg, s, e.id, e.input, o);
      } else {
        OtherSlotStep(cfg, s, e, o);
      }
      if e.id == id {
        StepRequest(cfg, s.clock, s.caches, s.procs[id], e.input);
      }
    } else {
      OtherSlotStep(cfg, s, e, o);
    }
  }

  lemma {:induction false} RunBorn(cfg: Config, s: State, events: seq<Event>, o: Origin, id: nat, m: nat)
    requires Disciplined(cfg, s, o) && Disjoint(cfg, s, events, o)
    requires m <= |Failures(s, o)|
    requires id in s.begun && Owned(s.procs[id], o) ==> s.begun[id] >= m
    ensures var e := Run(cfg, s, events);
            && Failures(s, o) <= Failures(e, o)
            && e.begun.Keys <= e.procs.Keys
            && (id in e.begun && Owned(e.procs[id], o) ==> e.begun[id] >= m)
    decreases |events|
  {
    if events != [] {
      var n := Next(cfg, s, events[0]);
      NextDisciplined(cfg, s, events[0], o);
      NextBorn(cfg, s, events[0], o, id);
      if id in n.begun && Owned(n.procs[id], o) && id in s.procs {
        NextProc(cfg, s, events[0], id);
        SameOwner(cfg, s, events[0], o, id);
      }
      RunBorn(cfg, n, events[1..], o, id, m);
    }
  }

  lemma SameOwner(cfg: Config, s: State, e: Event, o: Origin, id: nat)
    requires id in s.procs
    ensures id in Next(cfg, s, e).procs && (Owned(Next(cfg, s, e).procs[id], o) <==> Owned(s.procs[id], o))
  {
    if e.On? && e.id == id {
      StepRequest(cfg, s.clock, s.caches, s.procs[id], e.input);
    }
  }

  lemma InitDisciplined(cfg: Config, o: Origin)
    ensures Disciplined(cfg, INIT, o)
  {
  }

  /** When the HTTP/3 phases at an origin do not overlap: a failure recorded with base `t` keeps
      every request that starts later from beginning any HTTP/3 attempt unless it starts at
      `t + D` or after, whatever is learned about the origin in between. */
  lemma LaterRequestsBackOff(cfg: Config, before: seq<Event>, after: seq<Event>, o: Origin, k: nat, id: nat)
    requires Disjoint(cfg, INIT, before + after, o)
    requires k < |Failures(Run(cfg, INIT, before), o)|
    requires var s := Run(cfg, INIT, before); id in s.procs ==> s.procs[id].pc.Created?
    requires var e := Run(cfg, INIT, before + after);
             id in e.procs && Owned(e.procs[id], o) && HasAttempt(e.procs[id])
    ensures Run(cfg, INIT, before + after).procs[id].now
            >= Failures(Run(cfg, INIT, before), o)[k] + cfg.negativeDuration
  {
    var s, e := Run(cfg, INIT, before), Run(cfg, INIT, before + after);
    InitDisciplined(cfg, o);
    DisjointPrefix(cfg, INIT, before, after, o);
    RunConcat(cfg, INIT, before, after);
    RunDisciplined(cfg, INIT, before, o);
    RunDisciplined(cfg, s, after, o);
    assert id in s.begun && Owned(s.procs[id], o) ==> ProcDisciplined(cfg, s, o, id);
    RunBorn(cfg, s, after, o, id, |Failures(s, o)|);
    assert ProcDisciplined(cfg, e, o, id);
    assert Failures(e, o)[k] == Failures(s, o)[k];
  }

  /** And the expiry held in the negative cache at any time is at most the one held at any later
      time. */
  lemma ExpiryNeverDecreases(cfg: Config, before: seq<Event>, after: seq<Event>, o: Origin)
    requires Disjoint(cfg, INIT, before + after, o)
    requires o in Run(cfg, INIT, before).caches.negative && o in Run(cfg, INIT, before + after).caches.negative
    ensures Run(cfg, INIT, before).caches.negative[o] <= Run(cfg, INIT, before + after).caches.negative[o]
  {
    var s, e := Run(cfg, INIT, before), Run(cfg, INIT, before + after);
    InitDisciplined(cfg, o);
    DisjointPrefix(cfg, INIT, before, after, o);
    RunConcat(cfg, INIT, before, after);
    RunDisciplined(cfg, INIT, before, o);
    RunDisciplined(cfg, s, after, o);
    RunFailures(cfg, s, after, o);
    var earlier, later := Failures(s, o), Failures(e, o);
    assert later[|earlier| - 1] == earlier[|earlier| - 1];
  }

  lemma {:induction false} RunFailures(cfg: Config, s: State, events: seq<Event>, o: Origin)
    requires Disciplined(cfg, s, o) && Disjoint(cfg, s, events, o)
    ensures Failures(s, o) <= Failures(Run(cfg, s, events), o)
    decreases |events|
  {
    if events != [] {
      NextDisciplined(cfg, s, events[0], o);
      NextBorn(cfg, s, events[0], o, 0);
      RunFailures(cfg, Next(cfg, s, events[0]), events[1..], o);
    }
  }
}
