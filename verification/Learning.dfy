/** What a client learns, it uses: an Alt-Svc header sent over TCP makes later requests to that
    origin dial the first h3 alternative it lists. */
module Learning {
  import opened Wrappers
  import opened AltSvc
  import opened Client
  import opened Machine
  import opened BackOff
  import opened LazyEviction
  import opened RequestPath
  import opened AltSvcPrinter

  // ---- A cached offer stays ----

  /** The event writes the Alt-Svc entry of `o`: a failure recorded, or another header. */
  predicate Rewrites(s: State, e: Event, o: Origin) {
    && e.On? && e.id in s.procs
    && var pc := s.procs[e.id].pc;
       (pc.AltSvcStore? && pc.origin == o) || (pc.H3? && pc.origin == o && pc.stage.AltSvcRemove?)
  }

  predicate Untouched(cfg: Config, s: State, events: seq<Event>, o: Origin)
    decreases |events|
  {
    events != [] ==> !Rewrites(s, events[0], o) && Untouched(cfg, Next(cfg, s, events[0]), events[1..], o)
  }

  lemma NextKeepsOffer(cfg: Config, s: State, e: Event, o: Origin)
    requires Sound(cfg, s) && !Rewrites(s, e, o)
    requires o in s.caches.altSvc && s.caches.altSvc[o].expiresAt > s.clock
    ensures var c := Next(cfg, s, e).caches; o in c.altSvc && c.altSvc[o] == s.caches.altSvc[o]
  {
    if e.On? && e.id in s.procs {
      assert Dated(s.clock, s.procs[e.id]);
    }
  }

  lemma {:induction false} OfferStays(cfg: Config, s: State, events: seq<Event>, o: Origin)
    requires Sound(cfg, s) && Untouched(cfg, s, events, o)
    requires o in s.caches.altSvc && s.caches.altSvc[o].expiresAt > Run(cfg, s, events).clock
    ensures var c := Run(cfg, s, events).caches; o in c.altSvc && c.altSvc[o] == s.caches.altSvc[o]
    decreases |events|
  {
    if events != [] {
      ClockAdvances(cfg, s, events);
      NextSound(cfg, s, events[0]);
      NextKeepsOffer(cfg, s, events[0], o);
      OfferStays(cfg, Next(cfg, s, events[0]), events[1..], o);
    }
  }

  // ---- The first h3 alternative of a header ----

  predicate FirstH3(alternatives: seq<Alternative>, k: nat) {
    && k < |alternatives| && alternatives[k].H3?
    && forall j | 0 <= j < k :: alternatives[j].Other?
  }

  lemma {:induction false} FirstMeans(alternatives: seq<Alternative>, k: nat, now: nat)
    requires FirstH3(alternatives, k)
    ensures var a := alternatives[k];
            FirstMeaning(alternatives, now) ==
            Entry(AltSvcEntry(a.authority.host, a.authority.port, now + 1000 * LastAge(a.params)))
  {
    if k > 0 {
      FirstMeans(alternatives[1..], k - 1, now);
    }
  }

  // ---- From the header to the attempt ----

  /** The state after the response has been taken in. */
  function Taught(cfg: Config, s: State, id: nat, response: Response): State {
    Next(cfg, Next(cfg, s, On(id, TcpAnswer(Ok(response)))), On(id, Proceed))
  }

  lemma HeaderTaught(cfg: Config, s: State, id: nat, response: Response, alternatives: seq<Alternative>, k: nat)
    requires Has(s, id) && s.procs[id].pc.TcpAwait? && IsHttps(s.procs[id].request)
    requires forall j | 0 <= j < |alternatives| :: alternatives[j].Valid()
    requires FirstH3(alternatives, k) && response.altSvc == Some(Readable(PrintField(alternatives)))
    ensures var r := s.procs[id].request; var o := Origin(r.uri.host.value, PortOf(r)); var a := alternatives[k];
            var n := Taught(cfg, s, id, response);
            && n.clock == s.clock && o in n.caches.altSvc
            && n.caches.altSvc[o] == AltSvcEntry(a.authority.host, a.authority.port, s.clock + 1000 * LastAge(a.params))
  {
    var r := s.procs[id].request;
    ParseUndoesPrint(alternatives, s.clock, PortOf(r));
    FirstMeans(alternatives, k, s.clock);
    HeaderIsLearned(cfg, s, id, response, PrintField(alternatives));
  }

  /** A request that starts at this state, and runs up to its first lookups. */
  function Starting(cfg: Config, s: State, id: nat, r: Request): State {
    Next(cfg, Next(cfg, Next(cfg, s, Spawn(id, r)), On(id, Proceed)), On(id, Proceed))
  }

  /** Where no failure is remembered, a request reaches the Alt-Svc lookup. */
  lemma ReachesLookup(cfg: Config, s: State, id: nat, r: Request)
    requires cfg.http3Enabled && cfg.evicts && id !in s.procs && IsHttps(r) && !r.payload.Streaming?
    requires var o := Origin(r.uri.host.value, PortOf(r)); o in s.caches.negative ==> s.caches.negative[o] <= s.clock
    ensures var n := Starting(cfg, s, id, r);
            && StandsAt(n, id, r.uri.host.value, PortOf(r), AltSvcLookup)
            && n.procs[id].now == s.clock && n.procs[id].trail == [] && n.procs[id].request == r
            && n.clock == s.clock && n.caches.altSvc == s.caches.altSvc
  {
    var a := Next(cfg, s, Spawn(id, r));
    EntersHttp3(cfg, a, id);
    var b := Next(cfg, a, On(id, Proceed));
    assert b.procs[id].trail == [] && b.caches == s.caches;
    NegativeLeads(cfg, b, id, r.uri.host.value, PortOf(r));
  }

  /** A cached offer is dialled by a request that starts before it expires. */
  lemma OfferIsDialled(cfg: Config, s: State, id: nat, r: Request)
    requires cfg.http3Enabled && cfg.evicts && id !in s.procs && IsHttps(r) && !r.payload.Streaming?
    requires var o := Origin(r.uri.host.value, PortOf(r));
             && (o in s.caches.negative ==> s.caches.negative[o] <= s.clock)
             && o in s.caches.altSvc && s.caches.altSvc[o].expiresAt > s.clock
    ensures var e := s.caches.altSvc[Origin(r.uri.host.value, PortOf(r))];
            var n := Next(cfg, Starting(cfg, s, id, r), On(id, Proceed));
            Has(n, id) && |n.procs[id].trail| == 1 && n.procs[id].trail[0].Attempted?
            && n.procs[id].trail[0].target ==
               Target(match e.host case Some(h) => h case None => r.uri.host.value, e.port, [])
            && n.procs[id].pc.H3? && n.procs[id].pc.stage.Attempt? && n.procs[id].armed
  {
    ReachesLookup(cfg, s, id, r);
    AltSvcLeads(cfg, Starting(cfg, s, id, r), id, r.uri.host.value, PortOf(r));
  }

  /** A server that answers an https request over TCP with any well-formed Alt-Svc header, however
      laid out: every request to that origin that starts before the offer expires, with no failure
      remembered and no failure or other header in between, whatever else happens, first dials
      the first h3 alternative listed, at its host or else the origin's, and at its port. */
  lemma LearnedOfferIsDialled(cfg: Config, before: seq<Event>, id: nat, response: Response,
                              alternatives: seq<Alternative>, k: nat, after: seq<Event>, jd: nat, r: Request)
    requires cfg.http3Enabled && cfg.evicts && IsHttps(r) && !r.payload.Streaming?
    requires forall j | 0 <= j < |alternatives| :: alternatives[j].Valid()
    requires FirstH3(alternatives, k) && response.altSvc == Some(Readable(PrintField(alternatives)))
    requires var s := Run(cfg, INIT, before);
             && Has(s, id) && s.procs[id].pc.TcpAwait? && IsHttps(s.procs[id].request)
             && s.procs[id].request.uri.host == r.uri.host && PortOf(s.procs[id].request) == PortOf(r)
    requires var s := Run(cfg, INIT, before); var o := Origin(r.uri.host.value, PortOf(r));
             var n := Taught(cfg, s, id, response); var e := Run(cfg, n, after);
             && Untouched(cfg, n, after, o) && jd !in e.procs
             && e.clock < s.clock + 1000 * LastAge(alternatives[k].params)
             && (o in e.caches.negative ==> e.caches.negative[o] <= e.clock)
    ensures var e := Run(cfg, Taught(cfg, Run(cfg, INIT, before), id, response), after);
            var n := Next(cfg, Starting(cfg, e, jd, r), On(jd, Proceed)); var authority := alternatives[k].authority;
            && Has(n, jd) && |n.procs[jd].trail| == 1 && n.procs[jd].trail[0].Attempted?
            && n.procs[jd].trail[0].target.port == authority.port
            && n.procs[jd].trail[0].target.host == (match authority.host case Some(h) => h case None => r.uri.host.value)
  {
    var s, o := Run(cfg, INIT, before), Origin(r.uri.host.value, PortOf(r));
    var n := Taught(cfg, s, id, response);
    HeaderTaught(cfg, s, id, response, alternatives, k);
    RunSound(cfg, INIT, before);
    NextSound(cfg, s, On(id, TcpAnswer(Ok(response))));
    NextSound(cfg, Next(cfg, s, On(id, TcpAnswer(Ok(response)))), On(id, Proceed));
    OfferStays(cfg, n, after, o);
    OfferIsDialled(cfg, Run(cfg, n, after), jd, r);
  }
}
