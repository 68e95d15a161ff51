/** The fallback protocol of src/request.rs and src/http3.rs as a step machine: any number of
    requests share the caches of one client. A step is one lock section, one reading of the
    clock, or what one suspended request finds when it resumes. */
module Machine {
  import opened Wrappers
  import opened Errors
  import opened Body
  import opened AltSvc
  import opened HttpsRr
  import opened Client

  // ---- Requests and responses ----

  datatype Payload = Empty | Replayable(bytes: Bytes) | Streaming(source: Bytes)

  /** Method and merged headers, carried unchanged. */
  datatype Head = Head(method_: string, headers: seq<(string, string)>)

  datatype Request = Request(uri: Uri, head: Head, payload: Payload, timeout: Option<nat>)

  /** What a transport is given to send. */
  datatype Sent = Sent(uri: Uri, head: Head, payload: Payload)

  datatype Response = Response(tag: nat, altSvc: Option<HeaderValue>)

  /** The body an HTTP/3 attempt would carry; none for a body that cannot be replayed. */
  function ReplayableForH3(payload: Payload): Option<Option<Bytes>> {
    match payload
    case Empty => Some(None)
    case Replayable(bytes) => Some(Some(bytes))
    case Streaming(_) => None
  }

  function H3Payload(body: Option<Bytes>): Payload {
    match body
    case None => Empty
    case Some(bytes) => Replayable(bytes)
  }

  // ---- One HTTP/3 attempt ----

  /** Where to dial: the authority host, its port, and known addresses. */
  datatype Target = Target(host: string, port: nat, addresses: seq<Address>)

  function AltSvcTarget(o: Origin, entry: AltSvcEntry): Target {
    Target(if entry.host.Some? then entry.host.value else o.host, entry.port, [])
  }

  function HttpsRrTarget(o: Origin, entry: HttpsRrEntry): Target {
    Target(o.host, entry.port, entry.addresses)
  }

  /** The awaits inside one attempt. */
  datatype Phase = Resolve | Connect | Setup | Open | Upload | Finish | Headers

  /** The time limit on each, in milliseconds; waiting for headers has none. */
  function Limit(phase: Phase): Option<nat> {
    match phase
    case Resolve => Some(150)
    case Connect => Some(500)
    case Setup => Some(500)
    case Open => Some(150)
    case Upload => Some(500)
    case Finish => Some(500)
    case Headers => None
  }

  const HTTPS_RR_LIMIT: nat := 150

  function FirstPhase(target: Target): Phase {
    if target.addresses == [] then Resolve else Connect
  }

  function NextPhase(phase: Phase, body: Option<Bytes>): Phase {
    match phase
    case Resolve => Connect
    case Connect => Setup
    case Setup => Open
    case Open => if body.Some? then Upload else Finish
    case Upload => Finish
    case Finish => Headers
    case Headers => Headers
  }

  datatype AttemptError = Handshake | Stream(retryWithoutH3: bool)

  /** Whether a phase fails or runs out of time makes no difference. */
  function FailureOf(phase: Phase): AttemptError {
    match phase
    case Resolve | Connect | Setup => Handshake
    case Open => Stream(true)
    case Upload | Finish | Headers => Stream(false)
  }

  datatype FailureAction = RetryFreshH3 | UseTcp

  function StreamFailureAction(retryWithoutH3: bool, attempt: nat): FailureAction {
    if retryWithoutH3 && attempt == 0 then RetryFreshH3 else UseTcp
  }

  const ATTEMPTS: nat := 2

  // ---- One request ----

  datatype Source = FromAltSvc(entry: AltSvcEntry) | FromHttpsRr(answer: HttpsRrEntry, cached: bool)

  /** What follows the two halves of `insert_negative`. */
  datatype After = ToHttpsRr | ToTcp | ToTimeoutStamp | ToTimedOut | ToDropped

  /** Where a request is within `try_http3`, or within the handling of its timeout or drop. */
  datatype Stage =
    | NegativeCheck
    | AltSvcLookup
    | HttpsRrLookup
    | HttpsRrAwait(since: nat)
    | HttpsRrStore(entry: HttpsRrEntry)
    | Attempt(source: Source, index: nat, target: Target, phase: Phase, since: nat)
    | NegativeWrite(base: nat, then_: After)
    | AltSvcRemove(then_: After)
    | TimeoutStamp

  datatype Outcome =
    | ViaH3(response: Response)
    | ViaTcp(result: Result<Response, Error>)
    | TimedOutInH3
    | TimedOutInTcp
    | Dropped

  datatype Pc =
    | Created
    | H3(origin: Origin, body: Option<Bytes>, stage: Stage)
    | TcpStart
    | TcpAwait(since: nat)
    | AltSvcStore(origin: Origin, value: HeaderValue, at: nat, response: Response)
    | Finished(outcome: Outcome, at: nat)

  /** What a request has done so far, in order. */
  datatype Act =
    | Attempted(source: Source, index: nat, target: Target, sent: Sent)
    | Opened(source: Source)
    | Interrupted(at: nat, inFlight: bool, byTimeout: bool)
    | WroteNegative(base: nat)
    | RemovedAltSvc
    | SentTcp(sent: Sent)

  /** `now` is the instant captured on entering `try_http3`, `armed` the cancellation guard,
      `waited` the time spent waiting for HTTP/3 response headers. */
  datatype Proc = Proc(request: Request, pc: Pc, started: nat, now: nat, armed: bool, waited: nat, trail: seq<Act>) {
    function Does(act: Act): (q: Proc) {
      this.(trail := trail + [act])
    }

    function To(stage: Stage): (q: Proc)
      requires pc.H3?
    {
      this.(pc := pc.(stage := stage))
    }
  }

  function NewProc(request: Request): Proc {
    Proc(request, Created, 0, 0, false, 0, [])
  }

  /** What the environment does to a request; `Proceed` is a step of the request's own. */
  datatype Input =
    | Proceed
    | PhaseDone(response: Response)
    | PhaseFailed
    | HttpsRrAnswer(records: Option<seq<HttpsRecord>>)
    | TcpAnswer(result: Result<Response, Error>)
    | TimeoutFires
    | FutureDropped

  /** The head of `send`: into HTTP/3 when enabled, for an https origin and a replayable body. */
  function Begin(cfg: Config, clock: nat, p: Proc): Proc {
    var q := p.(started := clock);
    match (OriginOf(p.request.uri), ReplayableForH3(p.request.payload))
    case (Some(o), Some(body)) =>
      if cfg.http3Enabled then q.(now := clock, pc := H3(o, body, NegativeCheck)) else q.(pc := TcpStart)
    case _ => q.(pc := TcpStart)
  }

  /** One turn of the retry loop begins: a fresh armed guard, a fresh connection. */
  function StartAttempt(clock: nat, p: Proc, source: Source, index: nat, target: Target): Proc
    requires p.pc.H3?
  {
    p.Does(Attempted(source, index, target, Sent(p.request.uri, p.request.head, H3Payload(p.pc.body))))
    .(armed := true).To(Attempt(source, index, target, FirstPhase(target), clock))
  }

  function AfterBranch(source: Source): After {
    if source.FromAltSvc? then ToHttpsRr else ToTcp
  }

  /** Waiting for headers is the one unbounded phase; time in it is kept apart. */
  function LeavePhase(clock: nat, p: Proc): (q: Proc)
    ensures q == p.(waited := q.waited)
  {
    if p.pc.H3? && p.pc.stage.Attempt? && p.pc.stage.phase.Headers? && p.pc.stage.since <= clock
    then p.(waited := p.waited + (clock - p.pc.stage.since))
    else p
  }

  function AttemptFailed(clock: nat, p: Proc): Proc
    requires p.pc.H3? && p.pc.stage.Attempt?
  {
    var s := p.pc.stage;
    var q := LeavePhase(clock, p).(armed := false);
    var giveUp := q.To(NegativeWrite(p.now, AfterBranch(s.source)));
    match FailureOf(s.phase)
    case Handshake => giveUp
    case Stream(retry) =>
      match StreamFailureAction(retry, s.index)
      case UseTcp => giveUp
      case RetryFreshH3 =>
        if s.index + 1 < ATTEMPTS then StartAttempt(clock, q, s.source, s.index + 1, s.target) else giveUp
  }

  function PhaseCompleted(clock: nat, p: Proc, response: Response): Proc
    requires p.pc.H3? && p.pc.stage.Attempt?
  {
    var s := p.pc.stage;
    var q := LeavePhase(clock, p);
    if s.phase.Headers? then q.(armed := false, pc := Finished(ViaH3(response), clock))
    else (if s.phase.Open? then q.Does(Opened(s.source)) else q).To(s.(phase := NextPhase(s.phase, p.pc.body), since := clock))
  }

  /** The future is dropped where it is suspended: an armed guard writes first. Only then does a
      fired timeout make its own entry. */
  function Interrupt(clock: nat, p: Proc, byTimeout: bool): Proc
    requires p.pc.H3?
  {
    var q := LeavePhase(clock, p).Does(Interrupted(clock, p.pc.stage.Attempt?, byTimeout));
    if p.armed then q.(armed := false).To(NegativeWrite(clock, if byTimeout then ToTimeoutStamp else ToDropped))
    else if byTimeout then q.To(TimeoutStamp)
    else q.(pc := Finished(Dropped, clock))
  }

  function Continue(clock: nat, p: Proc, after: After): Proc
    requires p.pc.H3?
  {
    match after
    case ToHttpsRr => p.To(HttpsRrLookup)
    case ToTcp => p.(pc := TcpStart)
    case ToTimeoutStamp => p.To(TimeoutStamp)
    case ToTimedOut => p.(pc := Finished(TimedOutInH3, clock))
    case ToDropped => p.(pc := Finished(Dropped, clock))
  }

  function StartHttpsRr(clock: nat, p: Proc, entry: HttpsRrEntry, cached: bool): Proc
    requires p.pc.H3?
  {
    if entry.hasH3
    then StartAttempt(clock, p, FromHttpsRr(entry, cached), 0, HttpsRrTarget(p.pc.origin, entry))
    else p.(pc := TcpStart)
  }

  // The lock sections of `try_http3`, in order.

  function CheckNegative(cfg: Config, c: Caches, p: Proc): (Caches, Proc)
    requires p.pc.H3?
  {
    var (c', hit) := LookupNegative(cfg, c, p.pc.origin, p.now);
    (c', if hit then p.(pc := TcpStart) else p.To(AltSvcLookup))
  }

  function CheckAltSvc(cfg: Config, clock: nat, c: Caches, p: Proc): (Caches, Proc)
    requires p.pc.H3?
  {
    var (c', entry) := LookupAltSvc(cfg, c, p.pc.origin, p.now);
    (c', if entry.Some?
         then StartAttempt(clock, p, FromAltSvc(entry.value), 0, AltSvcTarget(p.pc.origin, entry.value))
         else p.To(HttpsRrLookup))
  }

  function CheckHttpsRr(cfg: Config, clock: nat, c: Caches, p: Proc): (Caches, Proc)
    requires p.pc.H3?
  {
    var (c', entry) := LookupHttpsRr(cfg, c, p.pc.origin, p.now);
    (c', if entry.Some? then StartHttpsRr(clock, p, entry.value, true) else p.To(HttpsRrAwait(clock)))
  }

  function KeepHttpsRr(clock: nat, c: Caches, p: Proc): (Caches, Proc)
    requires p.pc.H3? && p.pc.stage.HttpsRrStore?
  {
    (StoreHttpsRr(c, p.pc.origin, p.pc.stage.entry), StartHttpsRr(clock, p, p.pc.stage.entry, false))
  }

  // The two lock sections of `insert_negative`.

  function RecordFailure(cfg: Config, c: Caches, p: Proc): (Caches, Proc)
    requires p.pc.H3? && p.pc.stage.NegativeWrite?
  {
    (WriteNegative(cfg, c, p.pc.origin, p.pc.stage.base),
     p.Does(WroteNegative(p.pc.stage.base)).To(AltSvcRemove(p.pc.stage.then_)))
  }

  function ForgetAltSvc(clock: nat, c: Caches, p: Proc): (Caches, Proc)
    requires p.pc.H3? && p.pc.stage.AltSvcRemove?
  {
    (RemoveAltSvc(c, p.pc.origin), Continue(clock, p.Does(RemovedAltSvc), p.pc.stage.then_))
  }

  function Proceeds(cfg: Config, clock: nat, c: Caches, p: Proc): (Caches, Proc)
    requires p.pc.H3?
  {
    match p.pc.stage
    case NegativeCheck => CheckNegative(cfg, c, p)
    case AltSvcLookup => CheckAltSvc(cfg, clock, c, p)
    case HttpsRrLookup => CheckHttpsRr(cfg, clock, c, p)
    case HttpsRrStore(_) => KeepHttpsRr(clock, c, p)
    case NegativeWrite(_, _) => RecordFailure(cfg, c, p)
    case AltSvcRemove(_) => ForgetAltSvc(clock, c, p)
    case TimeoutStamp => (c, p.To(NegativeWrite(clock, ToTimedOut)))
    case HttpsRrAwait(_) => (c, p)
    case Attempt(_, _, _, _, _) => (c, p)
  }

  predicate Suspended(s: Stage) {
    s.HttpsRrAwait? || s.Attempt?
  }

  function Resumes(clock: nat, p: Proc, input: Input): Proc
    requires p.pc.H3? && Suspended(p.pc.stage)
  {
    match input
    case PhaseDone(response) => if p.pc.stage.Attempt? then PhaseCompleted(clock, p, response) else p
    case PhaseFailed => if p.pc.stage.Attempt? then AttemptFailed(clock, p) else p
    case HttpsRrAnswer(records) =>
      if p.pc.stage.Attempt? then p
      else
        var entry := if records.Some? then Choose(records.value, p.pc.origin.port) else None;
        if entry.Some? then p.To(HttpsRrStore(entry.value)) else p.(pc := TcpStart)
    case TimeoutFires => if p.request.timeout.Some? then Interrupt(clock, p, true) else p
    case FutureDropped => Interrupt(clock, p, false)
    case _ => p
  }

  /** A TCP response; for an https origin its Alt-Svc header, if any, is
      parsed as of now and applied. */
  function TcpAnswered(clock: nat, p: Proc, result: Result<Response, Error>): Proc {
    match (result, OriginOf(p.request.uri))
    case (Ok(response), Some(o)) =>
      if response.altSvc.Some?
      then p.(pc := AltSvcStore(o, response.altSvc.value, clock, response))
      else p.(pc := Finished(ViaTcp(result), clock))
    case _ => p.(pc := Finished(ViaTcp(result), clock))
  }

  function Step(cfg: Config, clock: nat, c: Caches, p: Proc, input: Input): (Caches, Proc) {
    match p.pc
    case Created =>
      (c, match input
          case Proceed => Begin(cfg, clock, p)
          case FutureDropped => p.(pc := Finished(Dropped, clock))
          case _ => p)
    case H3(_, _, stage) =>
      if Suspended(stage) then (c, Resumes(clock, p, input))
      else if input.Proceed? then Proceeds(cfg, clock, c, p)
      else (c, p)
    case TcpStart =>
      (c, if input.Proceed?
          then p.Does(SentTcp(Sent(p.request.uri, p.request.head, p.request.payload))).(pc := TcpAwait(clock))
          else p)
    case TcpAwait(_) =>
      (c, match input
          case TcpAnswer(result) => TcpAnswered(clock, p, result)
          case TimeoutFires => if p.request.timeout.Some? then p.(pc := Finished(TimedOutInTcp, clock)) else p
          case FutureDropped => p.(pc := Finished(Dropped, clock))
          case _ => p)
    case AltSvcStore(o, value, at, response) =>
      if input.Proceed?
      then (ApplyUpdate(c, o, HeaderUpdate(value, at, o.port)), p.(pc := Finished(ViaTcp(Ok(response)), clock)))
      else (c, p)
    case Finished(_, _) => (c, p)
  }

  // ---- Many requests ----

  /** Something a client has been told about an origin. */
  datatype Discovery =
    | HeaderSeen(origin: Origin, value: HeaderValue, at: nat)
    | RecordsSeen(origin: Origin, records: seq<HttpsRecord>)

  /** `failures` lists per origin the base instants of all negative writes, `begun` how many
      there were when each request captured its `now`, `seen` all that was discovered. */
  datatype State = State(clock: nat, caches: Caches, procs: map<nat, Proc>,
                         failures: map<Origin, seq<nat>>, begun: map<nat, nat>, seen: set<Discovery>)

  datatype Event = Tick(elapsed: nat) | Spawn(id: nat, request: Request) | On(id: nat, input: Input)

  const INIT := State(0, EMPTY, map[], map[], map[], {})

  function Failures(s: State, o: Origin): seq<nat> {
    if o in s.failures then s.failures[o] else []
  }

  /** The failure a step records, if it is a negative write. */
  function Recorded(s: State, p: Proc, input: Input): map<Origin, seq<nat>> {
    if p.pc.H3? && p.pc.stage.NegativeWrite? && input.Proceed?
    then s.failures[p.pc.origin := Failures(s, p.pc.origin) + [p.pc.stage.base]]
    else s.failures
  }

  function Discovered(s: State, p: Proc, input: Input): set<Discovery> {
    if p.pc.TcpAwait? && input.TcpAnswer? && input.result.Ok? && input.result.value.altSvc.Some?
       && OriginOf(p.request.uri).Some?
    then s.seen + {HeaderSeen(OriginOf(p.request.uri).value, input.result.value.altSvc.value, s.clock)}
    else if p.pc.H3? && p.pc.stage.HttpsRrAwait? && input.HttpsRrAnswer? && input.records.Some?
    then s.seen + {RecordsSeen(p.pc.origin, input.records.value)}
    else s.seen
  }

  function Begun(s: State, id: nat, p: Proc, q: Proc): map<nat, nat> {
    if p.pc.Created? && q.pc.H3? then s.begun[id := |Failures(s, q.pc.origin)|] else s.begun
  }

  /** One event. An event that does not apply changes nothing, so every sequence of events is
      a run. */
  function Next(cfg: Config, s: State, e: Event): State {
    match e
    case Tick(elapsed) => s.(clock := s.clock + elapsed)
    case Spawn(id, request) => if id in s.procs then s else s.(procs := s.procs[id := NewProc(request)])
    case On(id, input) =>
      if id !in s.procs then s
      else
        var p := s.procs[id];
        var (c, q) := Step(cfg, s.clock, s.caches, p, input);
        State(s.clock, c, s.procs[id := q], Recorded(s, p, input), Begun(s, id, p, q), Discovered(s, p, input))
  }

  function Run(cfg: Config, s: State, events: seq<Event>): State
    decreases |events|
  {
    if events == [] then s else Run(cfg, Next(cfg, s, events[0]), events[1..])
  }

  lemma {:induction false} RunConcat(cfg: Config, s: State, a: seq<Event>, b: seq<Event>)
    ensures Run(cfg, s, a + b) == Run(cfg, Run(cfg, s, a), b)
    decreases |a|
  {
    if a == [] {
      assert a + b == b;
    } else {
      assert (a + b)[0] == a[0] && (a + b)[1..] == a[1..] + b;
      RunConcat(cfg, Next(cfg, s, a[0]), a[1..], b);
    }
  }

  lemma RunSnoc(cfg: Config, s: State, events: seq<Event>)
    requires events != []
    ensures var n := |events| - 1;
            Run(cfg, s, events) == Next(cfg, Run(cfg, s, events[..n]), events[n])
  {
    var n := |events| - 1;
    assert events == events[..n] + [events[n]];
    RunConcat(cfg, s, events[..n], [events[n]]);
    assert [events[n]][1..] == [];
  }
}
