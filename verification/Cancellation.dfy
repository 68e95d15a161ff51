/** What a request leaves behind when its future is dropped or its timeout fires, at whichever
    suspension point that happens. */
module Cancellation {
  import opened HttpsRr
  import opened Client
  import opened Machine
  import opened RequestLaws

  /** Uninterrupted so far, and every failure recorded against the captured start instant: no
      guard has fired. */
  predicate Ordinary(trail: seq<Act>, now: nat) {
    forall act | act in trail :: !act.Interrupted? && (act.WroteNegative? ==> act.base == now)
  }

  /** An ordinary history ending in exactly these acts. */
  predicate CutShort(p: Proc, tail: seq<Act>) {
    var n := |p.trail| - |tail|;
    n >= 0 && p.trail[n..] == tail && Ordinary(p.trail[..n], p.now)
  }

  /** Dropped at `b`: with an attempt in flight the guard writes, otherwise nothing is written. */
  function DropTail(b: nat, inFlight: bool): seq<Act> {
    [Interrupted(b, inFlight, false)] + if inFlight then [WroteNegative(b), RemovedAltSvc] else []
  }

  /** Timed out at `b`: the guard's write, if an attempt was in flight. */
  function TimeoutHead(b: nat, inFlight: bool): seq<Act> {
    [Interrupted(b, inFlight, true)] + if inFlight then [WroteNegative(b), RemovedAltSvc] else []
  }

  /** Then the timeout's own write at `c`, in any case. */
  function TimeoutTail(b: nat, inFlight: bool, c: nat): seq<Act> {
    TimeoutHead(b, inFlight) + [WroteNegative(c), RemovedAltSvc]
  }

  predicate Begins(p: Proc, tail: seq<Act>, k: nat) {
    k <= |tail| && CutShort(p, tail[..k])
  }

  ghost predicate HeadDone(p: Proc, latest: nat) {
    exists b: nat, inFlight: bool | b <= latest :: CutShort(p, TimeoutHead(b, inFlight))
  }

  ghost predicate TracedWrite(p: Proc, base: nat, then_: After) {
    match then_
    case ToDropped => Begins(p, DropTail(base, true), 1)
    case ToTimeoutStamp => Begins(p, TimeoutHead(base, true), 1)
    case ToTimedOut => HeadDone(p, base)
    case _ => base == p.now && Ordinary(p.trail, p.now)
  }

  ghost predicate TracedRemove(t: nat, p: Proc, then_: After) {
    match then_
    case ToDropped => exists b: nat :: Begins(p, DropTail(b, true), 2)
    case ToTimeoutStamp => exists b: nat | b <= t :: Begins(p, TimeoutHead(b, true), 2)
    case ToTimedOut =>
      exists b: nat, inFlight: bool, c: nat | b <= c :: CutShort(p, TimeoutHead(b, inFlight) + [WroteNegative(c)])
    case _ => Ordinary(p.trail, p.now)
  }

  ghost predicate TracedOutcome(p: Proc, outcome: Outcome) {
    match outcome
    case Dropped => Ordinary(p.trail, p.now) || exists b: nat, inFlight: bool :: CutShort(p, DropTail(b, inFlight))
    case TimedOutInH3 => exists b: nat, inFlight: bool, c: nat | b <= c :: CutShort(p, TimeoutTail(b, inFlight, c))
    case _ => Ordinary(p.trail, p.now)
  }

  ghost predicate TracedStage(t: nat, p: Proc, stage: Stage) {
    match stage
    case NegativeWrite(base, then_) => base <= t && TracedWrite(p, base, then_)
    case AltSvcRemove(then_) => TracedRemove(t, p, then_)
    case TimeoutStamp => HeadDone(p, t)
    case _ => Ordinary(p.trail, p.now)
  }

  /** The history of a request, wherever it is by time `t`. */
  ghost predicate Traced(t: nat, p: Proc) {
    && p.now <= t
    && match p.pc
       case Created => p.trail == []
       case H3(_, _, stage) => TracedStage(t, p, stage)
       case Finished(outcome, _) => TracedOutcome(p, outcome)
       case _ => Ordinary(p.trail, p.now)
  }

  // ---- One act more ----

  lemma OrdinarySnoc(p: Proc, act: Act)
    requires Ordinary(p.trail, p.now) && !act.Interrupted? && (act.WroteNegative? ==> act.base == p.now)
    ensures Ordinary(p.Does(act).trail, p.now)
  {
  }

  lemma CutShortBegins(p: Proc, act: Act)
    requires Ordinary(p.trail, p.now)
    ensures CutShort(p.Does(act), [act])
  {
    assert (p.trail + [act])[..|p.trail|] == p.trail;
  }

  lemma CutShortSnoc(p: Proc, tail: seq<Act>, act: Act)
    requires CutShort(p, tail)
    ensures CutShort(p.Does(act), tail + [act])
  {
    var n := |p.trail| - |tail|;
    assert (p.trail + [act])[n..] == p.trail[n..] + [act];
    assert (p.trail + [act])[..n] == p.trail[..n];
  }

  lemma TracedStart(t: nat, p: Proc, source: Source, index: nat, target: Target)
    requires p.pc.H3? && p.now <= t && Ordinary(p.trail, p.now)
    ensures Traced(t, StartAttempt(t, p, source, index, target))
  {
    OrdinarySnoc(p, Attempted(source, index, target, Sent(p.request.uri, p.request.head, H3Payload(p.pc.body))));
  }

  lemma TracedFailed(t: nat, p: Proc)
    requires InAttempt(p) && Traced(t, p)
    ensures Traced(t, AttemptFailed(t, p))
  {
    var s := p.pc.stage;
    if s.phase.Open? && s.index == 0 {
      TracedStart(t, LeavePhase(t, p).(armed := false), s.source, 1, s.target);
    }
  }

  lemma TracedCompleted(t: nat, p: Proc, response: Response)
    requires InAttempt(p) && Traced(t, p)
    ensures Traced(t, PhaseCompleted(t, p, response))
  {
    OrdinarySnoc(LeavePhase(t, p), Opened(p.pc.stage.source));
  }

  lemma TracedInterrupt(t: nat, p: Proc, byTimeout: bool)
    requires p.pc.H3? && Suspended(p.pc.stage) && Traced(t, p) && (p.armed <==> InAttempt(p))
    ensures Traced(t, Interrupt(t, p, byTimeout))
  {
    var act := Interrupted(t, p.pc.stage.Attempt?, byTimeout);
    var q := LeavePhase(t, p).Does(act);
    CutShortBegins(LeavePhase(t, p), act);
    if byTimeout {
      assert TimeoutHead(t, p.armed)[..1] == [act];
      assert !p.armed ==> TimeoutHead(t, false) == [act];
    } else {
      assert DropTail(t, p.armed)[..1] == [act];
      assert !p.armed ==> DropTail(t, false) == [act];
    }
  }

  lemma WriteBecomesRemove(t: nat, p: Proc, base: nat, then_: After)
    requires base <= t && TracedWrite(p, base, then_)
    ensures TracedRemove(t, p.Does(WroteNegative(base)), then_)
  {
    var act := WroteNegative(base);
    match then_
    case ToDropped =>
      CutShortSnoc(p, DropTail(base, true)[..1], act);
      assert DropTail(base, true)[..2] == DropTail(base, true)[..1] + [act];
    case ToTimeoutStamp =>
      CutShortSnoc(p, TimeoutHead(base, true)[..1], act);
      assert TimeoutHead(base, true)[..2] == TimeoutHead(base, true)[..1] + [act];
    case ToTimedOut =>
      var b: nat, inFlight: bool :| b <= base && CutShort(p, TimeoutHead(b, inFlight));
      CutShortSnoc(p, TimeoutHead(b, inFlight), act);
    case _ => OrdinarySnoc(p, act);
  }

  lemma DropRemoved(p: Proc, b: nat)
    requires Begins(p, DropTail(b, true), 2)
    ensures CutShort(p.Does(RemovedAltSvc), DropTail(b, true))
  {
    CutShortSnoc(p, DropTail(b, true)[..2], RemovedAltSvc);
    assert DropTail(b, true) == DropTail(b, true)[..2] + [RemovedAltSvc];
  }

  lemma HeadRemoved(p: Proc, b: nat)
    requires Begins(p, TimeoutHead(b, true), 2)
    ensures CutShort(p.Does(RemovedAltSvc), TimeoutHead(b, true))
  {
    CutShortSnoc(p, TimeoutHead(b, true)[..2], RemovedAltSvc);
    assert TimeoutHead(b, true) == TimeoutHead(b, true)[..2] + [RemovedAltSvc];
  }

  lemma TailRemoved(p: Proc, b: nat, inFlight: bool, c: nat)
    requires CutShort(p, TimeoutHead(b, inFlight) + [WroteNegative(c)])
    ensures CutShort(p.Does(RemovedAltSvc), TimeoutTail(b, inFlight, c))
  {
    CutShortSnoc(p, TimeoutHead(b, inFlight) + [WroteNegative(c)], RemovedAltSvc);
    assert TimeoutTail(b, inFlight, c) == TimeoutHead(b, inFlight) + [WroteNegative(c)] + [RemovedAltSvc];
  }

  lemma ForgetDropped(t: nat, c: Caches, p: Proc)
    requires p.pc.H3? && p.pc.stage == AltSvcRemove(ToDropped) && Traced(t, p)
    ensures Traced(t, ForgetAltSvc(t, c, p).1)
  {
    var b: nat :| Begins(p, DropTail(b, true), 2);
    DropRemoved(p, b);
    var q := ForgetAltSvc(t, c, p).1;
    assert CutShort(q, DropTail(b, true));
  }

  lemma ForgetHead(t: nat, c: Caches, p: Proc)
    requires p.pc.H3? && p.pc.stage == AltSvcRemove(ToTimeoutStamp) && Traced(t, p)
    ensures Traced(t, ForgetAltSvc(t, c, p).1)
  {
    var b: nat :| b <= t && Begins(p, TimeoutHead(b, true), 2);
    HeadRemoved(p, b);
    var q := ForgetAltSvc(t, c, p).1;
    assert CutShort(q, TimeoutHead(b, true));
  }

  lemma ForgetTimedOut(t: nat, c: Caches, p: Proc)
    requires p.pc.H3? && p.pc.stage == AltSvcRemove(ToTimedOut) && Traced(t, p)
    ensures Traced(t, ForgetAltSvc(t, c, p).1)
  {
    var b: nat, inFlight: bool, d: nat :| b <= d && CutShort(p, TimeoutHead(b, inFlight) + [WroteNegative(d)]);
    TailRemoved(p, b, inFlight, d);
    var q := ForgetAltSvc(t, c, p).1;
    assert CutShort(q, TimeoutTail(b, inFlight, d));
  }

  lemma ForgetFailed(t: nat, c: Caches, p: Proc)
    requires p.pc.H3? && p.pc.stage in {AltSvcRemove(ToHttpsRr), AltSvcRemove(ToTcp)} && Traced(t, p)
    ensures Traced(t, ForgetAltSvc(t, c, p).1)
  {
    OrdinarySnoc(p, RemovedAltSvc);
  }

  lemma TracedForget(t: nat, c: Caches, p: Proc)
    requires p.pc.H3? && p.pc.stage.AltSvcRemove? && Traced(t, p)
    ensures Traced(t, ForgetAltSvc(t, c, p).1)
  {
    match p.pc.stage.then_
    case ToDropped => ForgetDropped(t, c, p);
    case ToTimeoutStamp => ForgetHead(t, c, p);
    case ToTimedOut => ForgetTimedOut(t, c, p);
    case _ => ForgetFailed(t, c, p);
  }

  lemma TracedRecord(cfg: Config, t: nat, c: Caches, p: Proc)
    requires p.pc.H3? && p.pc.stage.NegativeWrite? && Traced(t, p)
    ensures Traced(t, RecordFailure(cfg, c, p).1)
  {
    WriteBecomesRemove(t, p, p.pc.stage.base, p.pc.stage.then_);
    var q := RecordFailure(cfg, c, p).1;
    RemoveIgnoresPc(t, p.Does(WroteNegative(p.pc.stage.base)), q, p.pc.stage.then_);
  }

  lemma RemoveIgnoresPc(t: nat, p: Proc, q: Proc, then_: After)
    requires p.trail == q.trail && p.now == q.now && TracedRemove(t, p, then_)
    ensures TracedRemove(t, q, then_)
  {
    assert forall tail :: CutShort(p, tail) <==> CutShort(q, tail);
  }

  lemma TracedHttpsRr(t: nat, p: Proc, entry: HttpsRrEntry, cached: bool)
    requires p.pc.H3? && p.now <= t && Ordinary(p.trail, p.now)
    ensures Traced(t, StartHttpsRr(t, p, entry, cached))
  {
    if entry.hasH3 {
      TracedStart(t, p, FromHttpsRr(entry, cached), 0, HttpsRrTarget(p.pc.origin, entry));
    }
  }

  lemma TracedProceeds(cfg: Config, t: nat, c: Caches, p: Proc)
    requires p.pc.H3? && Traced(t, p)
    ensures Traced(t, Proceeds(cfg, t, c, p).1)
  {
    match p.pc.stage
    case AltSvcLookup =>
      var entry := LookupAltSvc(cfg, c, p.pc.origin, p.now).1;
      if entry.Some? {
        TracedStart(t, p, FromAltSvc(entry.value), 0, AltSvcTarget(p.pc.origin, entry.value));
      }
    case HttpsRrLookup =>
      var entry := LookupHttpsRr(cfg, c, p.pc.origin, p.now).1;
      if entry.Some? {
        TracedHttpsRr(t, p, entry.value, true);
      }
    case HttpsRrStore(entry) => TracedHttpsRr(t, p, entry, false);
    case NegativeWrite(_, _) => TracedRecord(cfg, t, c, p);
    case AltSvcRemove(_) => TracedForget(t, c, p);
    case _ =>
  }

  lemma TracedResumes(t: nat, p: Proc, i: Input)
    requires p.pc.H3? && Suspended(p.pc.stage) && Traced(t, p) && (p.armed <==> InAttempt(p))
    ensures Traced(t, Resumes(t, p, i))
  {
    match i
    case PhaseDone(response) => if InAttempt(p) { TracedCompleted(t, p, response); }
    case PhaseFailed => if InAttempt(p) { TracedFailed(t, p); }
    case TimeoutFires => TracedInterrupt(t, p, true);
    case FutureDropped => TracedInterrupt(t, p, false);
    case _ =>
  }

  lemma StepTraced(cfg: Config, t: nat, c: Caches, p: Proc, i: Input)
    requires Admitted(cfg, p) && Traced(t, p)
    ensures Traced(t, Step(cfg, t, c, p, i).1)
  {
    match p.pc
    case H3(_, _, stage) =>
      if Suspended(stage) {
        TracedResumes(t, p, i);
      } else {
        TracedProceeds(cfg, t, c, p);
      }
    case TcpStart => OrdinarySnoc(p, SentTcp(Sent(p.request.uri, p.request.head, p.request.payload)));
    case _ =>
  }

  lemma TracedLater(t: nat, u: nat, p: Proc)
    requires t <= u && Traced(t, p)
    ensures Traced(u, p)
  {
  }

  /** In every run: the guard is armed exactly while an attempt is in flight; a request that was
      dropped wrote the negative cache at the moment of the drop, and forgot the Alt-Svc entry,
      if and only if an attempt was in flight; one whose timeout fired in HTTP/3 did the same and
      then made the timeout's own write, wherever it was suspended; and no other request was
      ever written for by its guard. */
  lemma CancellationIsRecorded(cfg: Config, events: seq<Event>, id: nat)
    requires id in Run(cfg, INIT, events).procs
    ensures var p := Run(cfg, INIT, events).procs[id];
            && (p.armed <==> InAttempt(p))
            && (p.pc.Finished? ==>
                  match p.pc.outcome
                  case Dropped =>
                    Ordinary(p.trail, p.now) || exists b: nat, inFlight: bool :: CutShort(p, DropTail(b, inFlight))
                  case TimedOutInH3 =>
                    exists b: nat, inFlight: bool, c: nat | b <= c :: CutShort(p, TimeoutTail(b, inFlight, c))
                  case _ => Ordinary(p.trail, p.now))
  {
    var inv := (t: nat, p: Proc) => Admitted(cfg, p) && Traced(t, p);
    forall t: nat, c, p, i | inv(t, p)
      ensures inv(t, Step(cfg, t, c, p, i).1)
    {
      StepAdmitted(cfg, t, c, p, i);
      StepTraced(cfg, t, c, p, i);
    }
    forall t: nat, u: nat, p | t <= u && inv(t, p)
      ensures inv(u, p)
    {
      TracedLater(t, u, p);
    }
    forall t: nat, r
      ensures inv(t, NewProc(r))
    {
      assert Admitted(cfg, NewProc(r)) && Traced(t, NewProc(r));
    }
    EveryProc(cfg, INIT, events, inv);
  }

  // ---- What that leaves in the caches ----

  function Own(cfg: Config, s: State, id: nat): State {
    Next(cfg, s, On(id, Proceed))
  }

  /** Both halves of `insert_negative`, as two steps. */
  lemma PairWrites(cfg: Config, s: State, id: nat)
    requires id in s.procs && s.procs[id].pc.H3? && s.procs[id].pc.stage.NegativeWrite?
    ensures var p := s.procs[id]; var o := p.pc.origin; var n := Own(cfg, Own(cfg, s, id), id);
            && n.clock == s.clock && id in n.procs
            && n.caches == RemoveAltSvc(WriteNegative(cfg, s.caches, o, p.pc.stage.base), o)
            && n.procs[id].pc == Continue(s.clock, p, p.pc.stage.then_).pc
            && Failures(n, o) == Failures(s, o) + [p.pc.stage.base]
  {
    var p := s.procs[id];
    var m := Own(cfg, s, id);
    assert m.procs[id] == p.Does(WroteNegative(p.pc.stage.base)).To(AltSvcRemove(p.pc.stage.then_));
    assert m.caches == WriteNegative(cfg, s.caches, p.pc.origin, p.pc.stage.base);
  }

  lemma InterruptEffect(cfg: Config, s: State, id: nat, byTimeout: bool)
    requires id in s.procs && s.procs[id].pc.H3? && Suspended(s.procs[id].pc.stage) && Admitted(cfg, s.procs[id])
    requires byTimeout ==> s.procs[id].request.timeout.Some?
    ensures var p := s.procs[id]; var n := Next(cfg, s, On(id, if byTimeout then TimeoutFires else FutureDropped));
            && n.clock == s.clock && n.caches == s.caches && id in n.procs
            && n.procs[id].pc == (
                 if p.pc.stage.Attempt?
                 then p.pc.(stage := NegativeWrite(s.clock, if byTimeout then ToTimeoutStamp else ToDropped))
                 else if byTimeout then p.pc.(stage := TimeoutStamp)
                 else Finished(Dropped, s.clock))
  {
  }

  /** The expiry counts from `t`, the Alt-Svc entry is gone, and nothing else is changed. */
  function Stamped(cfg: Config, c: Caches, o: Origin, t: nat): Caches {
    c.(negative := c.negative[o := t + cfg.negativeDuration], altSvc := c.altSvc - {o})
  }

  /** Dropped with an attempt in flight: the guard's two steps make the expiry the drop instant
      plus the window, remove the Alt-Svc entry, and nothing else. Dropped while looking the
      records up: nothing is written. */
  lemma DropEffect(cfg: Config, s: State, id: nat)
    requires id in s.procs && s.procs[id].pc.H3? && Suspended(s.procs[id].pc.stage) && Admitted(cfg, s.procs[id])
    ensures var p := s.procs[id]; var o := p.pc.origin; var n := Next(cfg, s, On(id, FutureDropped));
            if InAttempt(p) then
              var m := Own(cfg, Own(cfg, n, id), id);
              && m.caches == Stamped(cfg, s.caches, o, s.clock)
              && id in m.procs && m.procs[id].pc == Finished(Dropped, s.clock)
            else n.caches == s.caches && n.procs[id].pc == Finished(Dropped, s.clock)
  {
    InterruptEffect(cfg, s, id, false);
    if InAttempt(s.procs[id]) {
      PairWrites(cfg, Next(cfg, s, On(id, FutureDropped)), id);
    }
  }

  /** The timeout's own write, once the guard is done. */
  lemma StampEffect(cfg: Config, s: State, id: nat)
    requires id in s.procs && s.procs[id].pc.H3? && s.procs[id].pc.stage.TimeoutStamp?
    ensures var o := s.procs[id].pc.origin; var n := Own(cfg, Own(cfg, Own(cfg, s, id), id), id);
            && n.caches == Stamped(cfg, s.caches, o, s.clock)
            && id in n.procs && n.procs[id].pc == Finished(TimedOutInH3, s.clock)
  {
    var n := Own(cfg, s, id);
    assert n.procs[id] == s.procs[id].To(NegativeWrite(s.clock, ToTimedOut)) && n.caches == s.caches;
    PairWrites(cfg, n, id);
  }

  /** The state from which the timeout makes its own write. */
  function Unwound(cfg: Config, s: State, id: nat): State
    requires id in s.procs
  {
    var n := Next(cfg, s, On(id, TimeoutFires));
    if InAttempt(s.procs[id]) then Own(cfg, Own(cfg, n, id), id) else n
  }

  lemma UnwindEffect(cfg: Config, s: State, id: nat)
    requires id in s.procs && s.procs[id].pc.H3? && Suspended(s.procs[id].pc.stage) && Admitted(cfg, s.procs[id])
    requires s.procs[id].request.timeout.Some?
    ensures var p := s.procs[id]; var o := p.pc.origin; var n := Unwound(cfg, s, id);
            && n.clock == s.clock && id in n.procs && n.procs[id].pc == p.pc.(stage := TimeoutStamp)
            && n.caches == if InAttempt(p) then Stamped(cfg, s.caches, o, s.clock) else s.caches
  {
    InterruptEffect(cfg, s, id, true);
    if InAttempt(s.procs[id]) {
      PairWrites(cfg, Next(cfg, s, On(id, TimeoutFires)), id);
    }
  }

  /** Timed out in HTTP/3, at whichever suspension point: the expiry becomes the present plus the
      window and the Alt-Svc entry goes, once for the guard if it is armed and once in any case. */
  lemma TimeoutEffect(cfg: Config, s: State, id: nat)
    requires id in s.procs && s.procs[id].pc.H3? && Suspended(s.procs[id].pc.stage) && Admitted(cfg, s.procs[id])
    requires s.procs[id].request.timeout.Some?
    ensures var o := s.procs[id].pc.origin; var n := Unwound(cfg, s, id);
            var e := Own(cfg, Own(cfg, Own(cfg, n, id), id), id);
            && e.caches == Stamped(cfg, s.caches, o, s.clock)
            && id in e.procs && e.procs[id].pc == Finished(TimedOutInH3, s.clock)
  {
    var o := s.procs[id].pc.origin;
    var n := Unwound(cfg, s, id);
    UnwindEffect(cfg, s, id);
    StampEffect(cfg, n, id);
    StampedTwice(cfg, s.caches, o, s.clock);
  }

  lemma StampedTwice(cfg: Config, c: Caches, o: Origin, t: nat)
    ensures Stamped(cfg, Stamped(cfg, c, o, t), o, t) == Stamped(cfg, c, o, t)
  {
  }
}
