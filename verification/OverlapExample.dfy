/** What can happen when the phases of requests to one origin overlap: of two requests the one
    that started earlier writes last, and the recorded expiry goes back; or one evicts what
    another would still have found. */
module OverlapExample {
  import opened Wrappers
  import opened HttpsRr
  import opened Client
  import opened Machine

  ghost predicate Reaches(cfg: Config, from: State, s: State) {
    exists events :: s == Run(cfg, from, events)
  }

  lemma ReachNext(cfg: Config, from: State, s: State, e: Event)
    requires Reaches(cfg, from, s)
    ensures Reaches(cfg, from, Next(cfg, s, e))
  {
    var events :| s == Run(cfg, from, events);
    RunConcat(cfg, from, events, [e]);
    assert [e][1..] == [];
    assert Next(cfg, s, e) == Run(cfg, from, events + [e]);
  }

  const ORIGIN := Origin("example.com", 443)

  function Get(): Request {
    Request(Uri(Some("https"), Some("example.com"), None, "/"), Head("GET", []), Empty, None)
  }

  /** An answer that offers h3 for longer than any window in play. */
  function Offer(window: nat): HttpsRecord {
    HttpsRecord(None, ["h3"], ["192.0.2.1"], 2 * window + 2)
  }

  function Found(window: nat): HttpsRrEntry {
    HttpsRrEntry(443, ["192.0.2.1"], true, 2 * window + 2)
  }

  predicate Attempting(p: Proc, now: nat) {
    && p.request == Get() && p.pc.H3? && p.pc.origin == ORIGIN && p.now == now && p.armed
    && p.pc.stage.Attempt? && p.pc.stage.source.FromHttpsRr? && p.pc.stage.phase.Connect?
    && p.trail != [] && p.trail[0].Attempted?
  }

  function Window(window: nat): Config {
    Config(true, window, true)
  }

  lemma Advance(cfg: Config, from: State, s: State, e: Event) returns (n: State)
    requires Reaches(cfg, from, s)
    ensures Reaches(cfg, from, n) && n == Next(cfg, s, e)
  {
    ReachNext(cfg, from, s, e);
    n := Next(cfg, s, e);
  }

  /** A request finds nothing cached and looks the origin up. */
  lemma LookingUp(w: nat) returns (s: State)
    ensures Reaches(Window(w), INIT, s)
    ensures s.clock == 0 && s.failures == map[] && s.caches == EMPTY && s.procs.Keys == {0}
    ensures s.procs[0] == NewProc(Get()).(pc := H3(ORIGIN, None, HttpsRrAwait(0)))
  {
    var cfg := Window(w);
    assert INIT == Run(cfg, INIT, []);
    s := PassesCheck(w, INIT, INIT, 0);
    s := Advance(cfg, INIT, s, On(0, Proceed));
    s := Advance(cfg, INIT, s, On(0, Proceed));
  }

  lemma FirstInFlight(w: nat) returns (s: State)
    ensures Reaches(Window(w), INIT, s) && s.clock == 0 && s.failures == map[]
    ensures s.procs.Keys == {0} && Attempting(s.procs[0], 0)
    ensures s.caches == Caches(map[], map[], map[ORIGIN := Found(w)])
  {
    var cfg := Window(w);
    s := LookingUp(w);
    assert FirstH3([Offer(w)]) == Some(Offer(w));
    s := Advance(cfg, INIT, s, On(0, HttpsRrAnswer(Some([Offer(w)]))));
    s := Advance(cfg, INIT, s, On(0, Proceed));
  }

  lemma PassesCheck(w: nat, from: State, s: State, id: nat) returns (n: State)
    requires Reaches(Window(w), from, s) && id !in s.procs
    requires ORIGIN in s.caches.negative ==> s.caches.negative[ORIGIN] <= s.clock
    ensures Reaches(Window(w), from, n) && n.clock == s.clock && n.failures == s.failures
    ensures id in n.procs && n.procs == s.procs[id := n.procs[id]]
    ensures n.procs[id] == NewProc(Get()).(started := s.clock, now := s.clock, pc := H3(ORIGIN, None, AltSvcLookup))
    ensures n.caches == s.caches.(negative := s.caches.negative - {ORIGIN})
  {
    var cfg := Window(w);
    n := Advance(cfg, from, s, Spawn(id, Get()));
    n := Advance(cfg, from, n, On(id, Proceed));
    n := Advance(cfg, from, n, On(id, Proceed));
  }

  /** With the offer cached, a request whose negative check passes is soon in flight. */
  lemma Joins(w: nat, from: State, s: State, id: nat) returns (n: State)
    requires Reaches(Window(w), from, s) && id !in s.procs
    requires ORIGIN in s.caches.negative ==> s.caches.negative[ORIGIN] <= s.clock
    requires ORIGIN !in s.caches.altSvc && ORIGIN in s.caches.httpsRr
    requires s.caches.httpsRr[ORIGIN] == Found(w) && s.clock <= 2 * w
    ensures Reaches(Window(w), from, n) && n.clock == s.clock && n.failures == s.failures
    ensures id in n.procs && n.procs == s.procs[id := n.procs[id]] && Attempting(n.procs[id], s.clock)
    ensures n.caches == s.caches.(negative := s.caches.negative - {ORIGIN})
  {
    var cfg := Window(w);
    n := PassesCheck(w, from, s, id);
    n := Advance(cfg, from, n, On(id, Proceed));
    n := Advance(cfg, from, n, On(id, Proceed));
    assert n.caches.altSvc == s.caches.altSvc;
  }

  lemma FailureNoticed(w: nat, from: State, s: State, id: nat, now: nat, dropped: bool) returns (n: State)
    requires Reaches(Window(w), from, s) && id in s.procs && Attempting(s.procs[id], now)
    ensures Reaches(Window(w), from, n)
    ensures id in n.procs && n == s.(procs := s.procs[id := n.procs[id]])
    ensures var pc := n.procs[id].pc;
            && pc.H3? && pc.origin == ORIGIN
            && pc.stage == NegativeWrite(if dropped then s.clock else now, if dropped then ToDropped else ToTcp)
  {
    n := Advance(Window(w), from, s, On(id, if dropped then FutureDropped else PhaseFailed));
  }

  /** An attempt ends: dropped now, or failed, which counts from the request's start. */
  lemma Fails(w: nat, from: State, s: State, id: nat, now: nat, dropped: bool) returns (n: State)
    requires Reaches(Window(w), from, s) && id in s.procs && Attempting(s.procs[id], now)
    ensures Reaches(Window(w), from, n) && n.clock == s.clock
    ensures var base := if dropped then s.clock else now;
            && Failures(n, ORIGIN) == Failures(s, ORIGIN) + [base]
            && n.caches == s.caches.(negative := s.caches.negative[ORIGIN := base + w],
                                     altSvc := s.caches.altSvc - {ORIGIN})
    ensures id in n.procs && n.procs == s.procs[id := n.procs[id]]
  {
    var cfg := Window(w);
    n := FailureNoticed(w, from, s, id, now, dropped);
    n := Advance(cfg, from, n, On(id, Proceed));
    n := Advance(cfg, from, n, On(id, Proceed));
  }

  /** For every positive window there is a run in which a failure is recorded, a request starts
      later but within that failure's window, and it begins an HTTP/3 attempt all the same. */
  lemma OverlapReopens(w: nat) returns (s: State, t: State)
    requires w > 0
    ensures Reaches(Window(w), INIT, s) && Failures(s, ORIGIN) == [1, 0] && 2 !in s.procs
    ensures Reaches(Window(w), s, t) && 2 in t.procs && t.procs[2].now < 1 + w
    ensures t.procs[2].trail != [] && t.procs[2].trail[0].Attempted?
  {
    var cfg := Window(w);
    s := FirstInFlight(w);
    s := Joins(w, INIT, s, 1);
    s := Advance(cfg, INIT, s, Tick(1));
    s := Fails(w, INIT, s, 0, 0, true);
    s := Fails(w, INIT, s, 1, 0, false);
    assert s == Run(cfg, s, []);
    t := Advance(cfg, s, s, Tick(w - 1));
    t := Joins(w, s, t, 2);
  }

  // ---- Overlapping requests can tell that lookups evict ----

  /** A run, and where it leads a client that evicts and one that does not. */
  datatype Pair = Pair(events: seq<Event>, evicting: State, keeping: State)

  ghost predicate Parallel(w: nat, x: Pair) {
    x.evicting == Run(Config(true, w, true), INIT, x.events) && x.keeping == Run(Config(true, w, false), INIT, x.events)
  }

  lemma Both(w: nat, x: Pair, e: Event) returns (y: Pair)
    requires Parallel(w, x)
    ensures Parallel(w, y) && y.events == x.events + [e]
    ensures y.evicting == Next(Config(true, w, true), x.evicting, e) && y.keeping == Next(Config(true, w, false), x.keeping, e)
  {
    assert [e][1..] == [];
    RunConcat(Config(true, w, true), INIT, x.events, [e]);
    RunConcat(Config(true, w, false), INIT, x.events, [e]);
    y := Pair(x.events + [e], Next(Config(true, w, true), x.evicting, e), Next(Config(true, w, false), x.keeping, e));
  }

  lemma Impatient(w: nat) returns (x: Pair)
    ensures Parallel(w, x) && x.evicting == x.keeping
    ensures x.evicting.procs.Keys == {0} && x.evicting.caches == EMPTY && x.evicting.clock == 0
    ensures var p := x.evicting.procs[0];
            p.pc == H3(ORIGIN, None, HttpsRrAwait(0)) && p.request.timeout.Some? && !p.armed
  {
    x := Pair([], INIT, INIT);
    assert Parallel(w, x);
    x := Arrives(w, x, 0, Some(0));
    x := Steps(w, x, H3(ORIGIN, None, AltSvcLookup));
    x := Steps(w, x, H3(ORIGIN, None, HttpsRrLookup));
    x := Steps(w, x, H3(ORIGIN, None, HttpsRrAwait(0)));
  }

  /** A lookup step with nothing cached. */
  lemma Steps(w: nat, x: Pair, pc: Pc) returns (y: Pair)
    requires Parallel(w, x) && x.evicting == x.keeping
    requires x.evicting.procs.Keys == {0} && x.evicting.caches == EMPTY && x.evicting.clock == 0
    requires x.evicting.procs[0].pc.H3? && x.evicting.procs[0].pc.origin == ORIGIN && !x.evicting.procs[0].armed
    requires var p := x.evicting.procs[0];
             Proceeds(Config(true, w, true), 0, EMPTY, p) == Proceeds(Config(true, w, false), 0, EMPTY, p) == (EMPTY, p.(pc := pc))
    requires !Suspended(x.evicting.procs[0].pc.stage) && !x.evicting.procs[0].pc.stage.NegativeWrite?
    ensures Parallel(w, y) && y.evicting == y.keeping
    ensures y.evicting == x.evicting.(procs := map[0 := x.evicting.procs[0].(pc := pc)])
  {
    y := Both(w, x, On(0, Proceed));
    assert y.evicting.procs == map[0 := x.evicting.procs[0].(pc := pc)];
  }

  lemma Forgets(w: nat, x: Pair) returns (y: Pair)
    requires Parallel(w, x) && x.evicting == x.keeping && x.evicting.procs.Keys == {0}
    requires x.evicting.procs[0].pc == H3(ORIGIN, None, AltSvcRemove(ToTimedOut)) && ORIGIN !in x.evicting.caches.altSvc
    ensures Parallel(w, y) && y.evicting == y.keeping
    ensures y.evicting.procs.Keys == {0} && y.evicting.caches == x.evicting.caches && y.evicting.clock == x.evicting.clock
  {
    y := Both(w, x, On(0, Proceed));
    assert y.evicting.caches.altSvc == x.evicting.caches.altSvc;
  }

  /** A request without patience: its timeout fires during the record lookup. */
  lemma TimesOut(w: nat) returns (x: Pair)
    ensures Parallel(w, x) && x.evicting == x.keeping
    ensures x.evicting.clock == 0 && x.evicting.procs.Keys == {0} && x.evicting.caches == Caches(map[ORIGIN := w], map[], map[])
  {
    x := Impatient(w);
    x := Fires(w, x);
    x := Both(w, x, On(0, Proceed));
    assert x.evicting.caches == x.keeping.caches == Caches(map[ORIGIN := w], map[], map[]);
    assert x.evicting.procs[0].pc == H3(ORIGIN, None, AltSvcRemove(ToTimedOut));
    x := Forgets(w, x);
  }

  lemma Fires(w: nat, x: Pair) returns (y: Pair)
    requires Parallel(w, x) && x.evicting == x.keeping
    requires x.evicting.procs.Keys == {0} && x.evicting.caches == EMPTY && x.evicting.clock == 0
    requires x.evicting.procs[0].pc == H3(ORIGIN, None, HttpsRrAwait(0))
    requires x.evicting.procs[0].request.timeout.Some? && !x.evicting.procs[0].armed
    ensures Parallel(w, y) && y.evicting == y.keeping
    ensures y.evicting.clock == 0 && y.evicting.procs.Keys == {0} && y.evicting.caches == EMPTY
    ensures y.evicting.procs[0].pc == H3(ORIGIN, None, NegativeWrite(0, ToTimedOut))
  {
    y := Both(w, x, On(0, TimeoutFires));
    y := Both(w, y, On(0, Proceed));
  }

  /** A request starts: it captures the present. */
  lemma Arrives(w: nat, x: Pair, id: nat, timeout: Option<nat>) returns (y: Pair)
    requires Parallel(w, x) && x.evicting == x.keeping && id !in x.evicting.procs
    ensures Parallel(w, y) && y.evicting == y.keeping
    ensures var now := x.evicting.clock; var r := Get().(timeout := timeout);
            && y.evicting.clock == now && y.evicting.caches == x.evicting.caches
            && y.evicting.procs ==
               x.evicting.procs[id := NewProc(r).(started := now, now := now, pc := H3(ORIGIN, None, NegativeCheck))]
  {
    y := Both(w, x, Spawn(id, Get().(timeout := timeout)));
    y := Both(w, y, On(id, Proceed));
  }

  /** Such a lookup exists: with overlapping phases a request can be misled. Request 1 captures its start within
      the window; request 2, starting when the window is over, evicts the entry first; and now
      request 1, which the entry would have turned away, passes the check. */
  lemma OverlapShowsEviction(w: nat) returns (events: seq<Event>)
    requires w > 0
    ensures var s, t := Run(Config(true, w, true), INIT, events), Run(Config(true, w, false), INIT, events);
            1 in s.procs && 1 in t.procs && s.procs[1].pc == H3(ORIGIN, None, AltSvcLookup) && t.procs[1].pc == TcpStart
  {
    var x := TimesOut(w);
    x := Arrives(w, x, 1, None);
    x := Both(w, x, Tick(w));
    x := SecondChecks(w, x);
    x := Both(w, x, On(1, Proceed));
    events := x.events;
  }

  lemma SecondChecks(w: nat, x: Pair) returns (y: Pair)
    requires Parallel(w, x) && x.evicting == x.keeping
    requires x.evicting.clock == w && x.evicting.procs.Keys == {0, 1}
    requires x.evicting.caches == Caches(map[ORIGIN := w], map[], map[])
    ensures Parallel(w, y) && 1 in y.evicting.procs && 1 in y.keeping.procs
    ensures y.evicting.procs[1] == y.keeping.procs[1] == x.evicting.procs[1]
    ensures y.evicting.caches.negative == map[] && y.keeping.caches.negative == map[ORIGIN := w]
  {
    y := Arrives(w, x, 2, None);
    y := Both(w, y, On(2, Proceed));
  }
}
