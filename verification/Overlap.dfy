/** Runs in which the HTTP/3 phases of requests to one origin do not overlap. */
module Overlap {
  import opened Client
  import opened Machine
  import opened RequestLaws
  import opened Interference

  /** The request is between capturing its start instant and leaving HTTP/3 at `o`. */
  predicate Active(p: Proc, o: Origin) {
    p.pc.H3? && p.pc.origin == o
  }

  ghost predicate Idle(s: State, o: Origin) {
    forall id | id in s.procs :: !Active(s.procs[id], o)
  }

  ghost predicate AtMostOne(s: State, o: Origin) {
    forall i, j | i in s.procs && j in s.procs && Active(s.procs[i], o) && Active(s.procs[j], o) :: i == j
  }

  predicate Starts(s: State, e: Event, o: Origin) {
    e.On? && e.input.Proceed? && e.id in s.procs && s.procs[e.id].pc.Created? && Owned(s.procs[e.id], o)
  }

  /** A request to `o` starts only while no other is active there. */
  ghost predicate Disjoint(cfg: Config, s: State, events: seq<Event>, o: Origin)
    decreases |events|
  {
    events != [] ==>
      && (Starts(s, events[0], o) ==> Idle(s, o))
      && Disjoint(cfg, Next(cfg, s, events[0]), events[1..], o)
  }

  /** At most the one request with this number is in sight, or ever arrives. */
  predicate OnlyRequest(s: State, events: seq<Event>, id: nat) {
    s.procs.Keys <= {id} && forall e | e in events :: e.Spawn? ==> e.id == id
  }

  /** A client that sees one request has no overlap at any origin. */
  lemma {:induction false} OneRequestIsDisjoint(cfg: Config, s: State, events: seq<Event>, o: Origin, id: nat)
    requires OnlyRequest(s, events, id)
    ensures Disjoint(cfg, s, events, o)
    decreases |events|
  {
    if events != [] {
      assert events[0] in events && forall e | e in events[1..] :: e in events;
      OneRequestIsDisjoint(cfg, Next(cfg, s, events[0]), events[1..], o, id);
    }
  }

  lemma {:induction false} DisjointPrefix(cfg: Config, s: State, a: seq<Event>, b: seq<Event>, o: Origin)
    requires Disjoint(cfg, s, a + b, o)
    ensures Disjoint(cfg, s, a, o) && Disjoint(cfg, Run(cfg, s, a), b, o)
    decreases |a|
  {
    if a == [] {
      assert a + b == b;
    } else {
      assert (a + b)[0] == a[0] && (a + b)[1..] == a[1..] + b;
      DisjointPrefix(cfg, Next(cfg, s, a[0]), a[1..], b, o);
    }
  }

  /** A request becomes active only by starting. */
  lemma BecomesActive(cfg: Config, s: State, e: Event, o: Origin, id: nat)
    requires AllAdmitted(cfg, s)
    requires id in Next(cfg, s, e).procs && Active(Next(cfg, s, e).procs[id], o)
    ensures id in s.procs && (Active(s.procs[id], o) || (Starts(s, e, o) && e.id == id))
  {
    NextProc(cfg, s, e, id);
    if id in s.procs && e.On? && e.id == id {
      ActiveStep(cfg, s.clock, s.caches, s.procs[id], e.input, o);
    }
  }

  lemma ActiveStep(cfg: Config, t: nat, c: Caches, p: Proc, i: Input, o: Origin)
    requires Admitted(cfg, p) && Active(Step(cfg, t, c, p, i).1, o)
    ensures Active(p, o) || (p.pc.Created? && i.Proceed? && Owned(p, o))
  {
  }

  lemma NextAtMostOne(cfg: Config, s: State, e: Event, o: Origin)
    requires AllAdmitted(cfg, s) && AtMostOne(s, o)
    requires Starts(s, e, o) ==> Idle(s, o)
    ensures AtMostOne(Next(cfg, s, e), o)
  {
    var n := Next(cfg, s, e);
    forall i, j | i in n.procs && j in n.procs && Active(n.procs[i], o) && Active(n.procs[j], o)
      ensures i == j
    {
      BecomesActive(cfg, s, e, o, i);
      BecomesActive(cfg, s, e, o, j);
    }
  }
}
