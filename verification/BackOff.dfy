/** The negative cache keeps later requests off HTTP/3: what it guarantees in every run, and
    what more it guarantees when the HTTP/3 phases at an origin do not overlap. */
module BackOff {
  import opened Wrappers
  import opened Client
  import opened Machine
  import opened RequestLaws
  import opened Interference

  function NegativeAt(c: Caches, o: Origin): Option<nat> {
    if o in c.negative then Some(c.negative[o]) else None
  }

  predicate Below(base: seq<nat>, b: nat) {
    forall k | 0 <= k < |base| :: base[k] <= b
  }

  predicate Ascending(base: seq<nat>) {
    forall j, k | 0 <= j <= k < |base| :: base[j] <= base[k]
  }

  /** The windows of the first `n` failures are over at `now`. */
  predicate Over(cfg: Config, failures: seq<nat>, n: nat, now: nat) {
    forall k | 0 <= k < n && k < |failures| :: failures[k] + cfg.negativeDuration <= now
  }

  /** The entry is the last writer's; if it is gone, the last writer's window is over. */
  predicate LastWriter(cfg: Config, t: nat, entry: Option<nat>, failures: seq<nat>) {
    && Below(failures, t)
    && (entry.Some? ==> failures != [] && entry.value == failures[|failures| - 1] + cfg.negativeDuration)
    && (entry.None? && failures != [] ==> failures[|failures| - 1] + cfg.negativeDuration <= t)
  }

  predicate Dated(t: nat, p: Proc) {
    p.now <= t && (p.pc.H3? && p.pc.stage.NegativeWrite? ==> p.pc.stage.base <= t)
  }

  lemma StepDated(cfg: Config, t: nat, c: Caches, p: Proc, i: Input)
    requires Dated(t, p)
    ensures Dated(t, Step(cfg, t, c, p, i).1)
  {
  }

  // ---- Every run: the last writer decides ----

  ghost predicate LastWriterDecides(cfg: Config, s: State, o: Origin) {
    && AllAdmitted(cfg, s)
    && (forall id | id in s.procs :: Dated(s.clock, s.procs[id]))
    && LastWriter(cfg, s.clock, NegativeAt(s.caches, o), Failures(s, o))
  }

  /** What a step does to the negative entry and the failures of its own origin. */
  predicate SlotStep(cfg: Config, p: Proc, entry: Option<nat>, failures: seq<nat>, entry': Option<nat>, failures': seq<nat>) {
    || (entry' == entry && failures' == failures)
    || (entry'.None? && failures' == failures && p.pc.H3? && p.pc.stage.NegativeCheck?
        && (entry.Some? ==> entry.value <= p.now))
    || (p.pc.H3? && p.pc.stage.NegativeWrite? && failures' == failures + [p.pc.stage.base]
        && entry' == Some(p.pc.stage.base + cfg.negativeDuration))
  }

  lemma OwnSlotStep(cfg: Config, s: State, id: nat, i: Input, o: Origin)
    requires id in s.procs && Admitted(cfg, s.procs[id]) && Owned(s.procs[id], o)
    ensures var n := Next(cfg, s, On(id, i));
            SlotStep(cfg, s.procs[id], NegativeAt(s.caches, o), Failures(s, o), NegativeAt(n.caches, o), Failures(n, o))
  {
  }

  lemma OtherSlotStep(cfg: Config, s: State, e: Event, o: Origin)
    requires AllAdmitted(cfg, s)
    requires e.On? && e.id in s.procs ==> !Owned(s.procs[e.id], o)
    ensures var n := Next(cfg, s, e);
            NegativeAt(n.caches, o) == NegativeAt(s.caches, o) && Failures(n, o) == Failures(s, o)
  {
    if e.On? && e.id in s.procs {
      StepIsElsewhere(cfg, s.clock, s.caches, s.procs[e.id], e.input, o);
      OtherHistory(cfg, s, s.procs[e.id], e.input, o);
    }
  }

  lemma NextLastWriter(cfg: Config, s: State, e: Event, o: Origin)
    requires LastWriterDecides(cfg, s, o)
    ensures LastWriterDecides(cfg, Next(cfg, s, e), o)
  {
    var n := Next(cfg, s, e);
    NextAdmitted(cfg, s, e);
    forall id | id in n.procs
      ensures Dated(n.clock, n.procs[id])
    {
      NextProc(cfg, s, e, id);
      if e.On? && e.id == id && id in s.procs {
        StepDated(cfg, s.clock, s.caches, s.procs[id], e.input);
      }
    }
    if e.On? && e.id in s.procs && Owned(s.procs[e.id], o) {
      OwnSlotStep(cfg, s, e.id, e.input, o);
    } else {
      OtherSlotStep(cfg, s, e, o);
    }
  }

  lemma {:induction false} RunLastWriter(cfg: Config, s: State, events: seq<Event>, o: Origin)
    requires LastWriterDecides(cfg, s, o)
    ensures LastWriterDecides(cfg, Run(cfg, s, events), o)
    decreases |events|
  {
    if events != [] {
      NextLastWriter(cfg, s, events[0], o);
      RunLastWriter(cfg, Next(cfg, s, events[0]), events[1..], o);
    }
  }

  /** In every run, overlapping or not: a request is turned away exactly when an entry is present
      and the window of the most recently written failure is still open as seen from its captured
      instant; and when there is no entry that window is over by the real clock. */
  lemma GateHeedsLastWriter(cfg: Config, events: seq<Event>, id: nat)
    requires var s := Run(cfg, INIT, events);
             id in s.procs && s.procs[id].pc.H3? && s.procs[id].pc.stage.NegativeCheck?
    ensures var s := Run(cfg, INIT, events); var p := s.procs[id];
            var o := p.pc.origin; var failures := Failures(s, o);
            var q := Next(cfg, s, On(id, Proceed)).procs[id];
            && (!q.pc.H3? <==>
                  o in s.caches.negative && failures != [] && failures[|failures| - 1] + cfg.negativeDuration > p.now)
            && (o !in s.caches.negative && failures != [] ==>
                  failures[|failures| - 1] + cfg.negativeDuration <= s.clock)
  {
    var o := Run(cfg, INIT, events).procs[id].pc.origin;
    RunLastWriter(cfg, INIT, events, o);
  }
}
