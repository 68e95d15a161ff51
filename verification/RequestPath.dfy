/** The way of one request through `send`, turn by turn, in every state of every client: when it
    enters HTTP/3, what each lookup leads to, where attempts go and what their failures lead to,
    and how a TCP response teaches the client. */
module RequestPath {
  import opened Wrappers
  import opened Errors
  import opened AltSvc
  import opened HttpsRr
  import opened Client
  import opened Machine
  import opened RequestLaws

  predicate Has(s: State, id: nat) {
    id in s.procs
  }

  /** The request stands at `stage` for the origin with this host and port. */
  predicate StandsAt(s: State, id: nat, host: string, port: nat, stage: Stage) {
    Has(s, id) && s.procs[id].pc.H3? && s.procs[id].pc.origin == Origin(host, port) && s.procs[id].pc.stage == stage
  }

  /** The request has just begun attempt `index`, dialling `dial` and sending what it was built
      as, under an armed guard; the caches are untouched. */
  predicate Attempts(s: State, n: State, id: nat, source: Source, index: nat, dial: Target)
    requires Has(s, id) && s.procs[id].pc.H3?
  {
    var p := s.procs[id];
    && n.caches == s.caches && Has(n, id) && n.procs[id].armed
    && n.procs[id].pc == H3(p.pc.origin, p.pc.body,
                            Attempt(source, index, dial, if dial.addresses == [] then Resolve else Connect, s.clock))
    && n.procs[id].trail ==
       p.trail + [Attempted(source, index, dial,
                            Sent(p.request.uri, p.request.head, match p.pc.body case None => Empty case Some(b) => Replayable(b)))]
  }

  /** The request moves on to `pc` and nothing else happens. */
  predicate Moves(s: State, n: State, id: nat, pc: Pc) {
    n.caches == s.caches && Has(n, id) && n.procs[id].pc == pc
  }

  // ---- Entering HTTP/3 ----

  predicate IsHttps(r: Request) {
    r.uri.scheme == Some("https") && r.uri.host.Some?
  }

  function PortOf(r: Request): nat {
    if r.uri.port.Some? then r.uri.port.value else 443
  }

  /** A request goes to HTTP/3 if and only if that is enabled, its URI is https with a host, and
      its body can be sent again; otherwise it goes to TCP. */
  lemma EntersHttp3(cfg: Config, s: State, id: nat)
    requires Has(s, id) && s.procs[id].pc.Created?
    ensures var r := s.procs[id].request; var n := Next(cfg, s, On(id, Proceed));
            if cfg.http3Enabled && IsHttps(r) && !r.payload.Streaming? then
              && StandsAt(n, id, r.uri.host.value, PortOf(r), NegativeCheck)
              && n.procs[id].now == s.clock && n.procs[id].started == s.clock
              && n.procs[id].pc.body == (match r.payload case Empty => None case Replayable(b) => Some(b) case Streaming(b) => None)
            else Moves(s, n, id, TcpStart)
  {
  }

  // ---- Lookups ----

  /** A negative entry that expires after the captured start sends the request to TCP; otherwise
      there is none afterwards and the Alt-Svc entry is looked up. */
  lemma NegativeLeads(cfg: Config, s: State, id: nat, host: string, port: nat)
    requires cfg.evicts && StandsAt(s, id, host, port, NegativeCheck)
    ensures var o := Origin(host, port); var n := Next(cfg, s, On(id, Proceed));
            if o in s.caches.negative && s.caches.negative[o] > s.procs[id].now then Moves(s, n, id, TcpStart)
            else
              && StandsAt(n, id, host, port, AltSvcLookup)
              && n.caches == s.caches.(negative := s.caches.negative - {o})
  {
  }

  /** An unexpired Alt-Svc entry is tried at the host it names, or else the origin's, and at the
      port it names; without one the HTTPS RR is looked up. */
  lemma AltSvcLeads(cfg: Config, s: State, id: nat, host: string, port: nat)
    requires StandsAt(s, id, host, port, AltSvcLookup)
    ensures var o := Origin(host, port); var n := Next(cfg, s, On(id, Proceed));
            if o in s.caches.altSvc && s.caches.altSvc[o].expiresAt > s.procs[id].now then
              var e := s.caches.altSvc[o];
              Attempts(s, n, id, FromAltSvc(e), 0, Target(match e.host case Some(h) => h case None => host, e.port, []))
            else StandsAt(n, id, host, port, HttpsRrLookup)
  {
    var o, p := Origin(host, port), s.procs[id];
    if o in s.caches.altSvc && s.caches.altSvc[o].expiresAt > p.now {
      AttemptStarts(cfg, s, id, FromAltSvc(s.caches.altSvc[o]), AltSvcTarget(o, s.caches.altSvc[o]));
    }
  }

  lemma AttemptStarts(cfg: Config, s: State, id: nat, source: Source, target: Target)
    requires Has(s, id) && s.procs[id].pc.H3?
    requires !Suspended(s.procs[id].pc.stage)
    requires Proceeds(cfg, s.clock, s.caches, s.procs[id]) == (s.caches, StartAttempt(s.clock, s.procs[id], source, 0, target))
    ensures Attempts(s, Next(cfg, s, On(id, Proceed)), id, source, 0, target)
  {
    var p := s.procs[id];
    assert StartAttempt(s.clock, p, source, 0, target).trail ==
           p.trail + [Attempted(source, 0, target, Sent(p.request.uri, p.request.head, H3Payload(p.pc.body)))];
  }

  /** An unexpired HTTPS RR entry is tried, at the origin's host and at the port and addresses it
      gives, if it offers h3, and otherwise leads to TCP; without one the record is awaited. */
  lemma HttpsRrLeads(cfg: Config, s: State, id: nat, host: string, port: nat)
    requires StandsAt(s, id, host, port, HttpsRrLookup)
    ensures var o := Origin(host, port); var n := Next(cfg, s, On(id, Proceed));
            if o in s.caches.httpsRr && s.caches.httpsRr[o].expiresAt > s.procs[id].now then
              var e := s.caches.httpsRr[o];
              if e.hasH3 then Attempts(s, n, id, FromHttpsRr(e, true), 0, Target(host, e.port, e.addresses))
              else Moves(s, n, id, TcpStart)
            else StandsAt(n, id, host, port, HttpsRrAwait(s.clock))
  {
    var o := Origin(host, port);
    if o in s.caches.httpsRr && s.caches.httpsRr[o].expiresAt > s.procs[id].now && s.caches.httpsRr[o].hasH3 {
      AttemptStarts(cfg, s, id, FromHttpsRr(s.caches.httpsRr[o], true), HttpsRrTarget(o, s.caches.httpsRr[o]));
    }
  }

  /** A failed or empty lookup leads to TCP; otherwise what the preferred record says is kept, in a
      step of its own. */
  lemma AnswerLeads(cfg: Config, s: State, id: nat, host: string, port: nat, since: nat, records: Option<seq<HttpsRecord>>, k: nat)
    requires StandsAt(s, id, host, port, HttpsRrAwait(since))
    ensures var n := Next(cfg, s, On(id, HttpsRrAnswer(records)));
            && n.caches == s.caches
            && (records.None? || records.value == [] ==> Moves(s, n, id, TcpStart))
            && (records.Some? && Preferred(records.value, k) ==>
                  exists e :: Conveys(records.value[k], port, e) && StandsAt(n, id, host, port, HttpsRrStore(e)))
  {
    if records.Some? {
      ChoiceExactly(records.value, port);
      if Preferred(records.value, k) {
        var e := Choose(records.value, port).value;
        assert StandsAt(Next(cfg, s, On(id, HttpsRrAnswer(records))), id, host, port, HttpsRrStore(e));
      }
    }
  }

  /** What is kept is used at once, without looking at its expiry. */
  lemma KeptLeads(cfg: Config, s: State, id: nat, host: string, port: nat, e: HttpsRrEntry)
    requires StandsAt(s, id, host, port, HttpsRrStore(e))
    ensures var o := Origin(host, port); var n := Next(cfg, s, On(id, Proceed));
            var kept := s.(caches := s.caches.(httpsRr := s.caches.httpsRr[o := e]));
            if e.hasH3 then Attempts(kept, n, id, FromHttpsRr(e, false), 0, Target(host, e.port, e.addresses))
            else Moves(kept, n, id, TcpStart)
  {
    var p := s.procs[id];
    assert StartAttempt(s.clock, p, FromHttpsRr(e, false), 0, HttpsRrTarget(Origin(host, port), e)).trail ==
           p.trail + [Attempted(FromHttpsRr(e, false), 0, Target(host, e.port, e.addresses),
                                Sent(p.request.uri, p.request.head, H3Payload(p.pc.body)))];
  }

  // ---- Attempts ----

  /** Only a first attempt whose stream did not open is tried again, against the same target;
      every other failure is recorded against the captured start, after which an Alt-Svc branch
      goes on to the HTTPS RR and an HTTPS RR branch to TCP. */
  lemma FailureLeads(cfg: Config, s: State, id: nat)
    requires Has(s, id) && InAttempt(s.procs[id])
    ensures var p := s.procs[id]; var stage := p.pc.stage; var n := Next(cfg, s, On(id, PhaseFailed));
            if stage.phase.Open? && stage.index == 0 then
              Attempts(s, n, id, stage.source, 1, stage.target)
            else
              && Moves(s, n, id, p.pc.(stage := NegativeWrite(p.now, if stage.source.FromAltSvc? then ToHttpsRr else ToTcp)))
              && !n.procs[id].armed
  {
    var p := s.procs[id];
    if p.pc.stage.phase.Open? && p.pc.stage.index == 0 {
      assert AttemptFailed(s.clock, p).trail ==
             p.trail + [Attempted(p.pc.stage.source, 1, p.pc.stage.target,
                                  Sent(p.request.uri, p.request.head, H3Payload(p.pc.body)))];
    }
  }

  /** What follows a recorded failure. */
  lemma FailureEnds(cfg: Config, s: State, id: nat, host: string, port: nat, then_: After)
    requires StandsAt(s, id, host, port, AltSvcRemove(then_))
    ensures var o := Origin(host, port); var n := Next(cfg, s, On(id, Proceed));
            && n.caches == s.caches.(altSvc := s.caches.altSvc - {o})
            && (then_.ToHttpsRr? ==> StandsAt(n, id, host, port, HttpsRrLookup))
            && (then_.ToTcp? ==> Has(n, id) && n.procs[id].pc == TcpStart)
  {
  }

  /** The phases of an attempt, in order: a body is uploaded only if there is one, and the answer
      to the last is the response the request ends with. */
  lemma PhasesInOrder(cfg: Config, s: State, id: nat, response: Response)
    requires Has(s, id) && InAttempt(s.procs[id])
    ensures var p := s.procs[id]; var stage := p.pc.stage; var n := Next(cfg, s, On(id, PhaseDone(response)));
            && n.caches == s.caches && Has(n, id)
            && (stage.phase.Headers? ==> n.procs[id].pc == Finished(ViaH3(response), s.clock))
            && (!stage.phase.Headers? ==>
                  n.procs[id].pc == p.pc.(stage := stage.(since := s.clock, phase :=
                    match stage.phase
                    case Resolve => Connect
                    case Connect => Setup
                    case Setup => Open
                    case Open => if p.pc.body == None then Finish else Upload
                    case Upload => Finish
                    case _ => Headers)))
  {
  }

  // ---- TCP ----

  /** TCP is given the request as built. */
  lemma TcpIsSent(cfg: Config, s: State, id: nat)
    requires Has(s, id) && s.procs[id].pc.TcpStart?
    ensures var p := s.procs[id]; var n := Next(cfg, s, On(id, Proceed));
            && Moves(s, n, id, TcpAwait(s.clock))
            && n.procs[id].trail == p.trail + [SentTcp(Sent(p.request.uri, p.request.head, p.request.payload))]
  {
  }


  /** A TCP response to an https request leaves at its origin exactly what its readable Alt-Svc
      header says, read as of now: an entry is kept, `clear` removes, anything else changes
      nothing; and the request ends with the response. */
  lemma HeaderIsLearned(cfg: Config, s: State, id: nat, response: Response, text: string)
    requires Has(s, id) && s.procs[id].pc.TcpAwait? && IsHttps(s.procs[id].request)
    requires response.altSvc == Some(Readable(text))
    ensures var r := s.procs[id].request; var o := Origin(r.uri.host.value, PortOf(r));
            var n := Next(cfg, Next(cfg, s, On(id, TcpAnswer(Ok(response)))), On(id, Proceed));
            && Has(n, id) && n.procs[id].pc == Finished(ViaTcp(Ok(response)), s.clock)
            && n.caches == match FieldValue(text, s.clock, o.port)
                           case Entry(e) => s.caches.(altSvc := s.caches.altSvc[o := e])
                           case Clear => s.caches.(altSvc := s.caches.altSvc - {o})
                           case NoAlternative => s.caches
  {
  }

  /** No header, an unreadable one, a request that is not https, or an error: nothing is learned. */
  lemma NothingIsLearned(cfg: Config, s: State, id: nat, result: Result<Response, Error>)
    requires Has(s, id) && s.procs[id].pc.TcpAwait?
    requires result.Err? || result.value.altSvc.None? || result.value.altSvc == Some(Unreadable) || !IsHttps(s.procs[id].request)
    ensures var n := Next(cfg, Next(cfg, s, On(id, TcpAnswer(result))), On(id, Proceed));
            && Has(n, id) && n.procs[id].pc == Finished(ViaTcp(result), s.clock) && n.caches == s.caches
  {
  }
}
