# Verification of the HTTP client's opportunistic HTTP/3

This project models, in Dafny, how the client decides between HTTP/3 and TCP, how it learns that an
origin speaks HTTP/3, and how it reads a response body under a cap; and it proves what that design
promises, for every run, every header value and every body.

There are three parts.

**The fallback protocol** (`src/request.rs`, `src/http3.rs`, `src/https_rr.rs`, `src/client.rs`).
`Machine` is a step machine over the three caches of one client, a clock and any number of requests.
One step is one lock section, one reading of the clock, or what one suspended request finds when it
resumes; the environment picks which request steps, how long things take, what every await yields,
when timeouts fire and when futures are dropped. Every sequence of events is a run, so a law stated
for all event sequences holds for every interleaving. `RequestLaws`, `Cancellation`, `Fallback`,
`Transparency`, `TimeBound`, `Interference`, `Provenance`, `BackOff`, `BackOffDisjoint`, `CacheHistory` and
`LazyEviction` prove the laws. `RequestPath` says turn by turn, in plain values, where each step leads;
`Learning` joins it with the parser: what a server offers over TCP is what later requests dial; and
`SmoothSend` shows that an attempt that meets no trouble answers the request. `OverlapExample` gives runs in which the phases of requests to one origin
overlap and the conclusions drawn without overlap fail, and `SlowestFallback` a run that attains the time
bound. `Sending` is the same path in the form of the source — mutable caches, drop guard, retry loop,
early returns — for one request at a time, and `Solo` says what it is proved against: the machine, driven
by the same environment with exact timeouts.

**The Alt-Svc field parser** (`src/alt_svc.rs`), the h3 subset of section 3 of RFC 7838 with `ma` from
section 3.1. `Text`, `QuotedSplitter` and `AltSvc` hold the parser, as loops over a mutable iterator
and as functions; `AltSvcLaws` says what a value means and what appended text can change;
`AltSvcPrinter` prints well-formed values with every freedom of layout and proves that parsing undoes
printing; `AltSvcForms` says both ways, in characters, which texts are accepted as what.

**Reading bodies** (`src/http3.rs`, `src/response.rs`). `Body` is the poll-driven HTTP/3 body, `Response`
the two capped collectors, each proved exact against a description of the body as a whole.

Time is in whole milliseconds without bound. Whatever comes from outside — the outcome of each phase of
an attempt, DNS answers, TCP responses — is an input of the model.

Findings where the code does less than one might assume, each with its exact condition:

- Not every recorded failure keeps requests off HTTP/3 for its whole window. A request is turned away
  exactly when the window of the failure written last is open at its captured start and was open at
  the captured start of every check since (`CacheHistory.GateIsExact`); with overlapping requests the
  last writer's expiry can be the earlier one (`OverlapExample.OverlapReopens`). While the HTTP/3 phases
  at an origin do not overlap, every recorded failure counts in full
  (`BackOffDisjoint.LaterRequestsBackOff`).
- Lookups judge entries by the instant captured at the request's start, so one request can remove an
  entry that another, which started earlier, would still have found. In any run the requests to an
  origin go as they would if lookups removed nothing exactly when no lookup is misled in that way: the
  entry last written is unexpired by its instant, but a lookup since, in any of the three caches, was by
  an instant at or after the expiry (`LazyEviction.EvictionIsVisibleExactly`). Such runs exist
  (`OverlapExample.OverlapShowsEviction`), but not without overlapping phases
  (`LazyEviction.EvictionIsInvisible`).
- An accepted Alt-Svc field is stable under appended alternatives exactly when its quotes are closed or
  an alternative before its last piece decides it (`AltSvcLaws.StableUnderAppending`): text appended
  after an open quote becomes part of the deciding alternative, as for the field of
  `AltSvcLaws.UnsettledField`.
- Alternatives in front that all mean nothing by themselves leave every field behind them as it is
  exactly when their quotes are closed (`AltSvcLaws.RejectedPrefixIsSkipped`). After an open quote they can
  hide an h3 alternative, as `x="` does in `x=",h3=":1"` (`AltSvcLaws.OpenPrefixHides`), or turn a field
  that means nothing into one that offers h3.
- A port that does not decode rejects `":port"` but falls back to the origin's port in `"host:port"`
  (`AltSvcPrinter.UndecodablePort`).

## Model

| member | source | states |
|---|---|---|
| RequestLaws.BoundedDuplication | src/request.rs:288-382 | in every run a request makes at most two attempts per discovery branch and one TCP send, at most one attempt per branch gets past stream-open, so it is started at most three times; an HTTP/3 answer is its last act and excludes TCP; no attempt comes after the second of its branch |
| RequestLaws.EveryProc | src/request.rs:175-250 | an invariant of one request's own steps and of passing time holds of every request in every interleaved run |
| RequestLaws.StepAdmitted | src/request.rs:198-205 | HTTP/3 is entered only when enabled, for an https origin and a body that can be sent again; the guard is armed exactly while an attempt is in flight |
| Cancellation.CancellationIsRecorded | src/request.rs:213-222 | in every run a dropped request wrote the negative cache at the drop instant if and only if an attempt was in flight; a request timed out in HTTP/3 did that and then made the timeout's own write wherever it was suspended; no completed attempt ever fires the guard |
| Cancellation.DropEffect | src/request.rs:422-429 | a drop during an attempt makes the expiry drop instant plus window, removes the origin's Alt-Svc entry and changes nothing else; a drop during the record lookup writes nothing |
| Cancellation.TimeoutEffect | src/request.rs:213-222 | a timeout at any suspension point in HTTP/3 leaves the expiry at the present plus the window and no Alt-Svc entry, and ends the request |
| Cancellation.PairWrites | src/request.rs:494-504 | the two lock sections of a negative write set the expiry to base plus window and forget the Alt-Svc entry, and the base joins the recorded failures |
| Fallback.SendsAreFaithful | src/request.rs:49-66 | everything sent over either transport in any run is the request as built; a streaming body is never tried over HTTP/3; by the time TCP is reached every attempt has been followed by a negative write |
| Fallback.TcpEndHasACause | src/request.rs:230-249 | a request that ends over TCP was sent there as built and ends with an answer TCP gave it, or a timeout that fired, at an event of the run when it was waiting for TCP |
| Transparency.FallbackIsTransparent | src/request.rs:223-250 | for a TCP answer and delay fixed in advance, the same request on two clients, HTTP/3 enabled or not, in any two timely runs among any other requests, has the same outcome if it comes to TCP: the answer, or a timeout when the answer takes longer |
| Transparency.SameAsWithoutHttp3 | src/request.rs:206-243 | with one environment and no drop, `send` from any caches and start ends in an HTTP/3 response, an HTTP/3 timeout, or exactly the outcome of a client without HTTP/3 from any caches and start of its own |
| Transparency.PlainEnd | src/request.rs:230-250 | a client without HTTP/3 does reach that outcome, having sent the request as built over TCP and nothing else |
| TimeBound.FallbackIsPrompt | src/http3.rs:28-31 | with exact timeouts a request that is starting TCP, or is in HTTP/3 and not waiting for response headers, began at most 7350 ms ago, time spent waiting for headers apart; a request with timeout d is not still running after 2 d, and if not dropped it ended by then |
| SlowestFallback.BoundIsReached | src/http3.rs:59-84 | the 7350 ms are attained: some environment makes a request start TCP exactly then without waiting for headers |
| Interference.OriginsDoNotInterfere | src/request.rs:277-327 | leaving out of any run all that does not concern an origin is again a run, with the same requests to it step for step, and the same caches, failures and discoveries for it |
| Interference.OnlyOwnEventsMatter | src/request.rs:432-526 | two runs that agree on what concerns an origin end the same for it |
| Interference.StepIsLocal | src/request.rs:432-526 | a step of a request depends on and changes only what is cached for its own origin |
| Provenance.AttemptsHaveProvenance | src/request.rs:283-324 | every attempt in every run dials what an Alt-Svc header on a TCP response to the same https origin named, or an HTTPS RR answer for it that offers h3, at an event of the run when a request to that origin was awaiting it; a cached source was unexpired at the captured start |
| Provenance.AllTold | src/request.rs:507-526 | every discovery comes from an event of the run at a request to that origin that was awaiting it, a header's at the very instant by which its age is reckoned |
| BackOff.GateHeedsLastWriter | src/request.rs:480-491 | in every run a request is turned away if and only if an entry is present and the window of the last written failure is open at its captured start; a missing entry means that window is over by the real clock |
| BackOffDisjoint.LaterRequestsBackOff | src/request.rs:283-286 | while phases at an origin do not overlap, no request starting after a failure with base t is recorded begins an attempt unless it starts at t + D or later, whatever Alt-Svc headers arrive in between |
| BackOffDisjoint.ExpiryNeverDecreases | src/request.rs:494-504 | while phases do not overlap the expiry held in the negative cache is never later than the one held at any later time |
| OverlapExample.OverlapReopens | src/request.rs:494-504 | for every window there is a run with two overlapping requests after which a later request within a recorded failure's window begins an attempt |
| OverlapExample.OverlapShowsEviction | src/request.rs:480-491 | for every window there is a run with overlapping requests in which a removed entry would still have turned a request away |
| CacheHistory.GateIsExact | src/request.rs:480-504 | in every run a request is turned away if and only if the window of the failure written last is open at its captured start and was open at that of every check since |
| CacheHistory.LookupsAreExact | src/request.rs:437-491 | in every run each of the three lookups answers with what was last written if and only if that is unexpired by the instant asked and no lookup since was by an instant at or after its expiry |
| LazyEviction.EvictionIsVisibleExactly | src/request.rs:437-491 | in every run the requests to an origin go step for step as on a client whose lookups remove nothing if and only if none of their lookups misses an unexpired entry that one by a later instant removed |
| LazyEviction.EvictionIsInvisible | src/request.rs:437-491 | while phases at an origin do not overlap, no lookup is misled: its requests do exactly what they would on caches from which no lookup ever removes anything, and both answer alike from now on |
| LazyEviction.PurgesOnlyExpired | src/request.rs:437-491 | in every run, overlapping or not, an entry that disappears had expired by the real clock, or is an Alt-Svc entry withdrawn by a recorded failure or by the origin |
| LazyEviction.AnswerHolds | src/request.rs:432-463 | a stored HTTPS RR answer, with or without h3, is what every lookup gives until it expires, unless another answer is stored |
| RequestPath.EntersHttp3 | src/request.rs:198-228 | a request goes to HTTP/3 if and only if that is enabled, its URI is https with a host and its body can be sent again, at the URI's host and its port or else 443; otherwise to TCP |
| RequestPath.NegativeLeads | src/request.rs:283-286 | a negative entry that expires after the captured start sends the request to TCP, otherwise none is left and the Alt-Svc entry is looked up |
| RequestPath.AltSvcLeads | src/request.rs:288-306 | an unexpired entry starts an attempt at the host it names, or else the origin's, and at its port, with no addresses known; without one the HTTPS RR is looked up |
| RequestPath.HttpsRrLeads | src/request.rs:308-326 | an unexpired record that offers h3 starts an attempt at the origin's host, its port and its addresses, one that does not leads to TCP; without one the record is awaited |
| RequestPath.AnswerLeads | src/request.rs:446-462 | an empty or failed lookup leads to TCP, otherwise what the preferred record says, field by field, is kept |
| RequestPath.KeptLeads | src/request.rs:454-459 | what is kept is used at once, without looking at its expiry |
| RequestPath.FailureLeads | src/request.rs:361-381 | only a first attempt whose stream did not open is repeated, against the same target; every other failure is recorded against the captured start |
| RequestPath.FailureEnds | src/request.rs:300-326 | after a recorded failure the Alt-Svc branch goes on to the HTTPS RR and the HTTPS RR branch to TCP |
| RequestPath.PhasesInOrder | src/http3.rs:59-89 | the phases of an attempt in order, an upload only of a body, and the answer to the last is the request's response |
| RequestPath.TcpIsSent | src/request.rs:230-235 | TCP is given the request as built |
| RequestPath.HeaderIsLearned | src/request.rs:507-526 | a TCP response to an https request leaves at its origin exactly what its readable Alt-Svc header says as of now: the entry, nothing for `clear`, or no change |
| RequestPath.NothingIsLearned | src/request.rs:507-514 | no header, an unreadable one, a request that is not https, or an error changes no cache |
| Learning.LearnedOfferIsDialled | src/request.rs:288-306 | after a TCP response with any well-formed Alt-Svc header, every request to that origin that starts before the offer expires, with no failure remembered and no failure or header in between, first dials the first h3 alternative listed, whatever else happens |
| Learning.OfferStays | src/request.rs:466-477 | a cached offer stays, whatever lookups and other requests do, until it expires by the real clock, is withdrawn or replaced |
| SmoothSend.SmoothEnd | src/http3.rs:50-90 | with an unexpired offer and no failure remembered, if every phase of an attempt is done within its limit, `send` ends with the response its last await gave, after exactly the awaits of one attempt and the time they took |
| Solo.LimitsAre | src/http3.rs:28-31 | address and stream-open fail at 150 ms, connect, setup and each upload step at 500 ms, headers are awaited without limit; a record lookup finds nothing at 150 ms |
| TimeBound.WaitedForHeaders | src/http3.rs:81-84 | the time kept apart from the bound is exactly that spent waiting for response headers |
| Overlap.OneRequestIsDisjoint | src/request.rs:277-327 | a client that sees one request has no overlapping phases at any origin |
| Client.OriginExactly | src/request.rs:255-262 | only an https URI with a host has an origin: that host, and its port or else 443 |
| Solo.OneEnd | src/request.rs:175-250 | the environment of one request determines its end: outcome, caches and time |
| Solo.ReachedInRun | src/request.rs:175-250 | what a request on its own reaches, it reaches in a run of the machine that keeps to all timeouts |
| Solo.AloneInTime | src/request.rs:206-243 | a request on its own with timeout d is not still running after 2 d, and if not dropped it ended by then |
| Sending.Exchange.Send | src/request.rs:175-250 | the path as written reaches exactly the end the machine reaches in the same environment, caches and clock included, and the caller gets the response the last await of an HTTP/3 attempt gave, or TCP's answer, or a timeout error, or nothing when it gave up; with HTTP/3 off, TCP's answer unless that takes longer than the timeout |
| Sending.Exchange.TryHttp3 | src/request.rs:277-308 | ends with a response, or at the start of TCP, or cut at an await with the guard's work done; never with an error |
| Sending.Exchange.TryHttpsRr | src/request.rs:308-327 | the second branch attempts only when the entry offers h3 |
| Sending.Exchange.RequestHttp3WithStaleRetry | src/request.rs:338-382 | the retry loop ends in a response, a recorded failure from the captured start, or the guard's write at the present; whenever a failure calls for another attempt one is left, so the code after the loop is unreachable |
| Sending.Exchange.Http3Request | src/http3.rs:50-90 | one attempt: each phase under its own limit, failures before the stream opens retryable or handshake, failures after it not |
| Sending.Exchange.Connection | src/http3.rs:92-119 | an address is looked up only when none is known; any failure on the way is a handshake failure |
| Sending.Exchange.Exchanged | src/http3.rs:76-89 | after stream-open: a body is uploaded if there is one, the upload is finished, headers are awaited without a limit, and no failure may be retried |
| Sending.Exchange.AwaitPhase | src/http3.rs:259-270 | an await under a limit and the outer timeout answers, fails at the limit, or is cut by whichever comes first |
| Sending.Exchange.HttpsRrEntryFor | src/request.rs:432-463 | a fresh cached entry is used; otherwise the chosen record of an answer within 150 ms is stored and used, even without h3, and used without a freshness check |
| Sending.Exchange.AwaitHttpsRr | src/request.rs:446-462 | a lookup that fails or takes longer than its limit finds nothing |
| Sending.Exchange.NegativeCacheHit | src/request.rs:480-491 | a live entry sends the request to TCP, otherwise it goes on to the Alt-Svc cache |
| Sending.Exchange.AltSvcEntryFor | src/request.rs:288-299 | a fresh entry starts the first attempt at its host, or the origin's, and its port |
| Sending.Exchange.Unwind | src/request.rs:407-429 | an armed guard's drop does the machine's two writes at the present |
| Sending.Exchange.StampTimeout | src/request.rs:216-219 | the timeout's own negative write at the present |
| Sending.Exchange.MaybeUpdateAltSvc | src/request.rs:507-526 | an https response's readable Alt-Svc header replaces or removes the origin's entry as its value says, and nothing else is changed |
| Sending.Exchange.SendTcp | src/request.rs:230-244 | the request goes out over TCP under a fresh timeout |
| Sending.H3AttemptCancellationGuard.Drop | src/request.rs:422-429 | writes the negative cache and forgets the Alt-Svc entry exactly when armed |
| Sending.NegativeSteps | src/request.rs:494-504 | one negative write as code is two steps of the machine |
| Client.ClientInner.constructor | src/client.rs:329-342 | empty caches, and a window of five minutes unless set |
| Client.ClientInner.NegativeCacheHit | src/request.rs:480-491 | hit exactly for an entry that expires after the given instant; otherwise the entry is removed |
| Client.ClientInner.AltSvcEntryFor | src/request.rs:466-477 | the entry exactly when fresh at the given instant; otherwise it is removed |
| Client.ClientInner.CachedHttpsRr | src/request.rs:437-444 | the entry exactly when fresh at the given instant; otherwise it is removed |
| Client.ClientInner.InsertNegative | src/request.rs:494-504 | expiry base plus window, and the Alt-Svc entry forgotten |
| Client.ClientInner.UpdateAltSvc | src/request.rs:515-525 | clear removes, an entry replaces, anything else leaves the cache alone |
| HttpsRr.Choose | src/https_rr.rs:38-57 | an entry for every answer but an empty one, and one with h3 exactly when some record advertises it |
| HttpsRr.ChoiceExactly | src/https_rr.rs:38-57 | the choice by position and field: the earliest record with h3, else the first; its port or else the origin's, its addresses, whether it offers h3, its expiry |
| HttpsRr.FirstH3IsFirst | src/https_rr.rs:38-47 | the h3 record chosen is the earliest one |
| HttpsRr.Select | src/https_rr.rs:38-47 | the selection loop returns what the earliest h3 record says, else the first record, field by field, and none only for an empty answer |
| QuotedSplitter.SplitQuoted.Next | src/alt_svc.rs:118-139 | yields the pieces one by one, progressing every time, the last included, then none |
| QuotedSplitter.PiecesAreGlobalSegments | src/alt_svc.rs:121-138 | although quotes are counted afresh in each piece, the cuts are exactly the separators with even quote parity over the whole string |
| QuotedSplitter.JoinOfPieces | src/alt_svc.rs:111-146 | joining the pieces restores the string; no piece holds an unquoted separator and all but the last close their quotes |
| QuotedSplitter.PiecesOfJoin | src/alt_svc.rs:111-146 | splitting a join of such pieces restores the pieces |
| QuotedSplitter.PiecesUnique | src/alt_svc.rs:111-146 | the pieces are the only such way to write the string as a join |
| QuotedSplitter.PiecesOfAppend | src/alt_svc.rs:111-146 | appended text reaches only the last piece |
| AltSvc.ReadMaxAge | src/alt_svc.rs:77-87 | the parameter loop computes the age over the remaining parameters |
| AltSvc.ParseAlternative | src/alt_svc.rs:61-94 | the alternative as written means what the specification function says |
| AltSvc.ParseStr | src/alt_svc.rs:46-59 | the first-match loop over the iterator computes the meaning of the whole field |
| AltSvc.ParseHeader | src/alt_svc.rs:39-44 | an unreadable header says nothing |
| AltSvcLaws.Selection | src/alt_svc.rs:46-59 | a field gives an entry if and only if it is not `clear` and the earliest acceptable segment between unquoted commas gives it; it clears if and only if the whole trimmed value is `clear` |
| AltSvcLaws.RejectedPrefixIsSkipped | src/alt_svc.rs:51-56 | alternatives in front that mean nothing by themselves, quoted commas included, hide and forge nothing in any field behind them if and only if their quotes are closed |
| AltSvcLaws.OpenPrefixHides | src/alt_svc.rs:51-56 | a concrete rejected alternative with an open quote that hides the h3 alternative after it |
| AltSvcLaws.StableUnderAppending | src/alt_svc.rs:51-56 | no appended alternatives change an accepted field if and only if its quotes are closed or an earlier piece decides |
| AltSvcLaws.UnsettledField | src/alt_svc.rs:51-56 | a concrete field that is accepted and that appended text changes |
| AltSvcLaws.LastMaxAgeDecides | src/alt_svc.rs:77-87 | the last readable `ma` in the list is the age, and without one the default stands |
| AltSvcLaws.AlternativeIgnoresPadding | src/alt_svc.rs:52-73 | spaces around an alternative play no part |
| AltSvcForms.ClearExactly | src/alt_svc.rs:47-49 | a field clears if and only if it is the five letters of `clear`, in any case, between white space |
| AltSvcForms.AuthorityExactly | src/alt_svc.rs:96-109 | which quoted texts are authorities and which host and port each gives, both ways |
| AltSvcForms.MaxAgeExactly | src/alt_svc.rs:79-86 | which parameters are read as an age and as which, both ways, `ma` in its four spellings |
| AltSvcForms.AlternativeExactly | src/alt_svc.rs:61-94 | which texts are h3 alternatives and which entry each gives, both ways, a day by default |
| AltSvcForms.UsualFieldIsRead | src/alt_svc.rs:46-94 | `h3=":port"; ma=seconds` gives that port and that age for every port and age |
| AltSvcForms.OrdinaryField | src/alt_svc.rs:154-163 | the field of the repository's own example, exactly |
| AltSvcForms.DefaultAge | src/alt_svc.rs:77 | an h3 alternative without parameters lasts 86400 s |
| AltSvcForms.DraftField | src/alt_svc.rs:166-169 | a draft h3 variant is no h3 alternative |
| AltSvcPrinter.ParseUndoesPrint | src/alt_svc.rs:46-109 | parsing any printed list of well-formed alternatives gives exactly the first h3 one's host, port and expiry |
| AltSvcPrinter.ReadPrintedAlternative | src/alt_svc.rs:61-94 | parsing one printed alternative gives its meaning |
| AltSvcPrinter.ReadPrintedParameter | src/alt_svc.rs:79-86 | a printed `ma`, quoted or not, in any case and padding, reads back its seconds; any other parameter reads as none |
| AltSvcPrinter.ParsePrintedAuthority | src/alt_svc.rs:96-109 | hostless, plain and bracketed authorities read back their host and port |
| AltSvcPrinter.UndecodablePort | src/alt_svc.rs:98-108 | an undecodable port rejects the hostless form and becomes the origin's port in the other |
| Text.PrintThenParse | src/alt_svc.rs:83-107 | decimal printing then bounded parsing is the identity up to the bound |
| Text.ParseUnsignedExactly | src/alt_svc.rs:83-107 | a number is read from digits in decimal notation, after an optional `+`, up to the bound, and from nothing else |
| Text.SpacesAre | src/alt_svc.rs:47-103 | the white space that is trimmed, character by character |
| Text.SpellingsOfMa | src/alt_svc.rs:82 | the four spellings of `ma` |
| Text.StripDecomposes | src/alt_svc.rs:47-103 | trimming removes only characters of the class, at both ends, and leaves none there |
| Body.H3ResponseBody.PollFrame | src/http3.rs:182-228 | each poll's loop ends, in the one next state and result of the machine |
| Body.PollDelivers | src/http3.rs:182-228 | `Pending` loses nothing, anything else is the next delivery, the end is final, and no poll leaves `Ready(None)` behind |
| Body.AnyScheduleDelivers | src/http3.rs:182-228 | however often a body is polled, the frames are the stream's chunks once each and in order, then its end or error for ever |
| Body.ScheduleIndependent | src/http3.rs:182-228 | streams that differ only in waits read the same |
| Response.CollectExact | src/response.rs:168-192 | the loop's result in terms of the whole body: bytes in order if they fit and it ends, `BodyTooLarge` if a prefix before any error does not fit, otherwise its error |
| Response.CollectMhcBodyWithCap | src/response.rs:168-192 | the collector over the HTTP/3 body gives that result for what the body still holds, and empty bytes for one already read to its end |
| Response.CollectBodyWithCap | src/response.rs:141-165 | the other collector's result in terms of the body's own items: bytes in order, `BodyTooLarge`, or its first error classified |
| Response.ReadH3 | src/response.rs:105-114 | body reader and collector together: exact for every chunk script and every schedule of waits |
| Response.BodyMeans | src/response.rs:144-162 | what a body holds and how it ends, built up item by item: data frames in order, nothing from other frames and waits, nothing after an end or error |
| Response.StreamMeans | src/http3.rs:194-222 | the same for an HTTP/3 stream and what its polls find |
| Response.DeliveriesExactly | src/http3.rs:208-222 | a stream delivers its chunks as data frames, once each and in order, then its end or error |
| Response.ConcatAppend | src/response.rs:155 | collected bytes are those of the parts, in order |
| Response.SeenIsLargestFit | src/response.rs:148-154 | the reported `seen` is the largest run of whole leading frames within the cap |
| Response.CapMeaning | src/response.rs:79-81 | too large exactly when some prefix exceeds a cap below the maximum, never under the cap of `bytes`; success is monotone in the cap; re-chunking a cleanly ending body changes nothing |
| Response.NextFrame | src/response.rs:174-188 | waiting for a frame polls until there is one and loses none |

## Left out

- QUIC, TLS, DNS, hyper and tokio themselves: their results and delays are inputs; the memo of the QUIC endpoint is part of the connect phase, whose failure it can only add to.
- Sending.Exchange.Send: runs one request at a time; what other requests do to the caches between its lock sections is modelled in `Machine` only.
- TimeBound.FallbackIsPrompt: takes timeouts as exact and the request's own steps as instant; scheduler delay is not modelled.
- `Instant` overflow and sub-millisecond durations: time is an unbounded number of milliseconds, so `now + ma` is always representable.
- Poisoned locks: every lock section is taken to succeed.
- Building requests: URL parsing, deferred builder errors, failures to assemble the request; the effective timeout is one value, the request's own or else the client's.
- Merging of headers: one merged value is carried unchanged. `src/client.rs:244-245` says that per-request headers override the defaults, but `src/request.rs:189-196` appends both.
- The repository's `README.md:112` lists HTTP/3 as out of scope, but the code implements it; the code is followed.
- Classification of transport errors by their message (`src/request.rs:528-542`, `src/response.rs:194-202`): a parameter where it is used.
- Decompression, UTF-8 and JSON decoding after collection, and consuming a body twice.
- The resolver's crate is not part of this model: a record arrives with its ALPN list, its address hints in order, and its expiry.
- RFC 7838 features the parser lacks: backslash escapes, `persist`, `Age`; text is ASCII, one character per byte.
- Body.H3ResponseBody.Drop: which stream is cancelled is modelled, the two QUIC signals are not.
