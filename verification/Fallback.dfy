/** Transparent fallback: what is sent, in what order, and what the caller gets. */
module Fallback {
  import opened Wrappers
  import opened Client
  import opened Machine
  import opened RequestLaws

  /** The request as built, unchanged. */
  function Image(r: Request): Sent {
    Sent(r.uri, r.head, r.payload)
  }

  /** An act that sends carries the request's own image; over HTTP/3 only for an enabled client,
      an https origin and a body that can be sent again. */
  predicate Sends(cfg: Config, r: Request, act: Act) {
    match act
    case Attempted(_, _, _, sent) =>
      sent == Image(r) && cfg.http3Enabled && OriginOf(r.uri).Some? && !r.payload.Streaming?
    case SentTcp(sent) => sent == Image(r)
    case _ => true
  }

  /** An attempt was made with no negative write after it. */
  predicate Unanswered(trail: seq<Act>) {
    if trail == [] then false
    else
      var last := trail[|trail| - 1];
      last.Attempted? || (!last.WroteNegative? && Unanswered(trail[..|trail| - 1]))
  }

  lemma {:induction false} AnsweredMeans(trail: seq<Act>, i: nat)
    requires !Unanswered(trail) && i < |trail| && trail[i].Attempted?
    ensures exists j :: i < j < |trail| && trail[j].WroteNegative?
  {
    var n := |trail| - 1;
    if !trail[n].WroteNegative? {
      AnsweredMeans(trail[..n], i);
      var j :| i < j < n && trail[..n][j].WroteNegative?;
      assert trail[j].WroteNegative?;
    }
  }

  lemma UnansweredSnoc(p: Proc, act: Act)
    ensures Unanswered(p.Does(act).trail) <==> act.Attempted? || (!act.WroteNegative? && Unanswered(p.trail))
  {
    assert (p.trail + [act])[..|p.trail|] == p.trail;
  }

  predicate MayAttempt(stage: Stage) {
    stage.Attempt? || stage.NegativeWrite? || (stage.AltSvcRemove? && !(stage.then_.ToHttpsRr? || stage.then_.ToTcp?))
    || stage.TimeoutStamp?
  }

  /** Where an attempt may still lack its negative write. */
  predicate Settled(p: Proc) {
    match p.pc
    case H3(_, _, stage) => MayAttempt(stage) || !Unanswered(p.trail)
    case Finished(outcome, _) => outcome.ViaH3? || outcome.TimedOutInH3? || outcome.Dropped? || !Unanswered(p.trail)
    case _ => !Unanswered(p.trail)
  }

  /** Everything the trail of `q` sends is the request `r`. */
  predicate SendsOnly(cfg: Config, r: Request, q: Proc) {
    q.request == r && forall act | act in q.trail :: Sends(cfg, r, act)
  }

  lemma ResumesSends(cfg: Config, t: nat, p: Proc, i: Input)
    requires Admitted(cfg, p) && p.pc.H3? && Suspended(p.pc.stage) && SendsOnly(cfg, p.request, p)
    ensures SendsOnly(cfg, p.request, Resumes(t, p, i))
  {
    assert H3Payload(p.pc.body) == p.request.payload;
  }

  lemma ProceedsSends(cfg: Config, t: nat, c: Caches, p: Proc)
    requires Admitted(cfg, p) && p.pc.H3? && SendsOnly(cfg, p.request, p)
    ensures SendsOnly(cfg, p.request, Proceeds(cfg, t, c, p).1)
  {
    assert H3Payload(p.pc.body) == p.request.payload;
  }

  /** One step adds at most one act, and that act sends faithfully. */
  lemma StepSends(cfg: Config, t: nat, c: Caches, p: Proc, i: Input)
    requires Admitted(cfg, p) && SendsOnly(cfg, p.request, p)
    ensures SendsOnly(cfg, p.request, Step(cfg, t, c, p, i).1)
  {
    if p.pc.H3? {
      if Suspended(p.pc.stage) {
        ResumesSends(cfg, t, p, i);
      } else {
        ProceedsSends(cfg, t, c, p);
      }
    }
  }

  lemma SettledResumes(t: nat, p: Proc, i: Input)
    requires p.pc.H3? && Suspended(p.pc.stage) && Settled(p) && (p.armed <==> InAttempt(p))
    ensures Settled(Resumes(t, p, i))
  {
    UnansweredSnoc(LeavePhase(t, p), Interrupted(t, p.pc.stage.Attempt?, i.TimeoutFires?));
  }

  lemma SettledProceeds(cfg: Config, t: nat, c: Caches, p: Proc)
    requires p.pc.H3? && Settled(p)
    ensures Settled(Proceeds(cfg, t, c, p).1)
  {
    match p.pc.stage
    case NegativeWrite(base, _) => UnansweredSnoc(p, WroteNegative(base));
    case AltSvcRemove(_) => UnansweredSnoc(p, RemovedAltSvc);
    case AltSvcLookup => assert Settled(CheckAltSvc(cfg, t, c, p).1);
    case HttpsRrLookup => assert Settled(CheckHttpsRr(cfg, t, c, p).1);
    case HttpsRrStore(_) => assert Settled(KeepHttpsRr(t, c, p).1);
    case _ =>
  }

  lemma StepSettled(cfg: Config, t: nat, c: Caches, p: Proc, i: Input)
    requires Admitted(cfg, p) && Settled(p)
    ensures Settled(Step(cfg, t, c, p, i).1)
  {
    match p.pc
    case H3(_, _, stage) =>
      if Suspended(stage) {
        SettledResumes(t, p, i);
      } else {
        SettledProceeds(cfg, t, c, p);
      }
    case TcpStart => UnansweredSnoc(p, SentTcp(Sent(p.request.uri, p.request.head, p.request.payload)));
    case _ =>
  }

  predicate Faithful(cfg: Config, p: Proc) {
    && Admitted(cfg, p)
    && Settled(p)
    && (p.pc.Created? ==> p.trail == [])
    && forall act | act in p.trail :: Sends(cfg, p.request, act)
  }

  predicate PastH3(pc: Pc) {
    pc.TcpStart? || pc.TcpAwait? || pc.AltSvcStore? || (pc.Finished? && (pc.outcome.ViaTcp? || pc.outcome.TimedOutInTcp?))
  }

  /** In every run, whatever is sent over either transport is the request as built, HTTP/3 is
      never tried with a body that cannot be sent again, and by the time TCP is reached every
      attempt has been followed by a negative write. */
  lemma SendsAreFaithful(cfg: Config, events: seq<Event>, id: nat)
    requires id in Run(cfg, INIT, events).procs
    ensures var p := Run(cfg, INIT, events).procs[id];
            && (forall act | act in p.trail :: Sends(cfg, p.request, act))
            && (PastH3(p.pc) ==>
                  forall i | 0 <= i < |p.trail| && p.trail[i].Attempted? ::
                    exists j :: i < j < |p.trail| && p.trail[j].WroteNegative?)
  {
    var inv := (t: nat, p: Proc) => Faithful(cfg, p);
    forall t: nat, c, p, i | inv(t, p)
      ensures inv(t, Step(cfg, t, c, p, i).1)
    {
      FaithfulStep(cfg, t, c, p, i);
    }
    assert forall t: nat, r :: inv(t, NewProc(r));
    EveryProc(cfg, INIT, events, inv);
    var p := Run(cfg, INIT, events).procs[id];
    if PastH3(p.pc) {
      forall i | 0 <= i < |p.trail| && p.trail[i].Attempted?
        ensures exists j :: i < j < |p.trail| && p.trail[j].WroteNegative?
      {
        AnsweredMeans(p.trail, i);
      }
    }
  }

  lemma FaithfulStep(cfg: Config, t: nat, c: Caches, p: Proc, i: Input)
    requires Faithful(cfg, p)
    ensures Faithful(cfg, Step(cfg, t, c, p, i).1)
  {
    StepAdmitted(cfg, t, c, p, i);
    StepSettled(cfg, t, c, p, i);
    StepSends(cfg, t, c, p, i);
  }

  // ---- What the caller gets ----

  /** The input that brought a request where it is after waiting for TCP. */
  function Cause(pc: Pc): Option<Input> {
    match pc
    case AltSvcStore(_, _, _, response) => Some(TcpAnswer(Ok(response)))
    case Finished(ViaTcp(result), _) => Some(TcpAnswer(result))
    case Finished(TimedOutInTcp, _) => Some(TimeoutFires)
    case _ => None
  }

  /** Event `k` of the run gave the request that input while it was waiting for TCP. */
  ghost predicate CausedAt(cfg: Config, events: seq<Event>, id: nat, input: Input, k: nat) {
    && k < |events| && events[k] == On(id, input)
    && var s := Run(cfg, INIT, events[..k]);
       id in s.procs && s.procs[id].pc.TcpAwait?
  }

  /** The TCP side of a request: it was sent, and has ended for a cause. */
  ghost predicate TcpSide(cfg: Config, events: seq<Event>, id: nat, p: Proc) {
    && (p.pc.TcpAwait? || Cause(p.pc).Some? ==> SentTcp(Image(p.request)) in p.trail)
    && (Cause(p.pc).Some? ==> exists k: nat :: CausedAt(cfg, events, id, Cause(p.pc).value, k))
  }

  lemma StepCause(cfg: Config, t: nat, c: Caches, p: Proc, i: Input)
    requires p.pc.TcpAwait? || Cause(p.pc).Some? ==> SentTcp(Image(p.request)) in p.trail
    ensures var q := Step(cfg, t, c, p, i).1;
            && (q.pc.TcpAwait? || Cause(q.pc).Some? ==> SentTcp(Image(q.request)) in q.trail)
            && (Cause(q.pc).Some? ==> Cause(q.pc) == Cause(p.pc) || (p.pc.TcpAwait? && Cause(q.pc) == Some(i)))
  {
  }

  lemma CausedLater(cfg: Config, events: seq<Event>, id: nat, input: Input, k: nat)
    requires events != [] && CausedAt(cfg, events[..|events| - 1], id, input, k)
    ensures CausedAt(cfg, events, id, input, k)
  {
    assert events[..|events| - 1][..k] == events[..k];
  }

  lemma {:induction false} RunTcpSide(cfg: Config, events: seq<Event>, id: nat)
    requires id in Run(cfg, INIT, events).procs
    ensures TcpSide(cfg, events, id, Run(cfg, INIT, events).procs[id])
    decreases |events|
  {
    if events != [] {
      var n := |events| - 1;
      var s := Run(cfg, INIT, events[..n]);
      RunSnoc(cfg, INIT, events);
      NextProc(cfg, s, events[n], id);
      if id in s.procs {
        var p, q := s.procs[id], Run(cfg, INIT, events).procs[id];
        RunTcpSide(cfg, events[..n], id);
        if events[n].On? && events[n].id == id {
          StepCause(cfg, s.clock, s.caches, p, events[n].input);
        }
        if Cause(q.pc).Some? {
          if Cause(q.pc) == Cause(p.pc) {
            var k: nat :| CausedAt(cfg, events[..n], id, Cause(p.pc).value, k);
            CausedLater(cfg, events, id, Cause(p.pc).value, k);
          } else {
            assert CausedAt(cfg, events, id, Cause(q.pc).value, n);
          }
        }
      }
    }
  }

  /** A request that ends over TCP was sent there as built, and ends with an answer that TCP gave
      it, or with a timeout that fired, while it was waiting for one. */
  lemma TcpEndHasACause(cfg: Config, events: seq<Event>, id: nat) returns (k: nat)
    requires id in Run(cfg, INIT, events).procs
    requires var pc := Run(cfg, INIT, events).procs[id].pc;
             pc.Finished? && (pc.outcome.ViaTcp? || pc.outcome.TimedOutInTcp?)
    ensures var p := Run(cfg, INIT, events).procs[id];
            && CausedAt(cfg, events, id, if p.pc.outcome.ViaTcp? then TcpAnswer(p.pc.outcome.result) else TimeoutFires, k)
            && SentTcp(Image(p.request)) in p.trail
  {
    RunTcpSide(cfg, events, id);
    k :| CausedAt(cfg, events, id, Cause(Run(cfg, INIT, events).procs[id].pc).value, k);
  }
}
