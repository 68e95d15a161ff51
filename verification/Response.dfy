/** Reading a response body under a wire-byte cap (src/response.rs). */
module Response {
  import opened Wrappers
  import opened Errors
  import opened Body

  const USIZE_MAX: nat := 0xFFFF_FFFF_FFFF_FFFF

  function SaturatingAdd(a: nat, b: nat): nat {
    if a + b > USIZE_MAX then USIZE_MAX else a + b
  }

  /** A collector returns bytes, fails, or stays suspended on a body that never ends. */
  datatype Collected = Complete(bytes: Bytes) | Failed(error: Error) | Suspended

  // ---- What the result should be ----

  /** The data frames that come before the end or the first error. */
  function Payloads<E>(items: seq<Polled<E>>): seq<Bytes> {
    if items == [] then []
    else match items[0]
      case Pending => Payloads(items[1..])
      case Item(Ok(Data(data))) => [data] + Payloads(items[1..])
      case Item(Ok(Trailers)) => Payloads(items[1..])
      case Item(Err(_)) => []
      case EndOfBody => []
  }

  datatype Ending<+E> = Clean | Broke(error: E) | Never

  function EndingOf<E>(items: seq<Polled<E>>): Ending<E> {
    if items == [] then Never
    else match items[0]
      case EndOfBody => Clean
      case Item(Err(error)) => Broke(error)
      case _ => EndingOf(items[1..])
  }

  function Concat(chunks: seq<Bytes>): Bytes {
    if chunks == [] then [] else chunks[0] + Concat(chunks[1..])
  }

  /** Whether a body of `total` bytes breaks the cap. The largest cap breaks for none. */
  predicate Exceeds(total: nat, cap: nat) {
    cap < USIZE_MAX && total > cap
  }

  /** The most bytes a run of whole leading chunks holds without exceeding the cap. */
  function LargestPrefix(chunks: seq<Bytes>, cap: nat): nat {
    if chunks == [] || !Exceeds(|Concat(chunks)|, cap) then |Concat(chunks)|
    else LargestPrefix(chunks[..|chunks| - 1], cap)
  }

  /** The outcome, in terms of the body as a whole. */
  function Expected(items: seq<Polled<Error>>, cap: nat): Collected {
    var chunks := Payloads(items);
    if Exceeds(|Concat(chunks)|, cap) then Failed(BodyTooLarge(cap, LargestPrefix(chunks, cap)))
    else match EndingOf(items)
      case Clean => Complete(Concat(chunks))
      case Broke(error) => Failed(error)
      case Never => Suspended
  }

  // ---- The loop ----

  /** The collecting loop from a buffer on. */
  function Collect(buf: Bytes, items: seq<Polled<Error>>, cap: nat): Collected
    decreases |items|
  {
    if items == [] then Suspended
    else match items[0]
      case Pending => Collect(buf, items[1..], cap)
      case EndOfBody => Complete(buf)
      case Item(Err(error)) => Failed(error)
      case Item(Ok(Trailers)) => Collect(buf, items[1..], cap)
      case Item(Ok(Data(data))) =>
        if SaturatingAdd(|buf|, |data|) > cap then Failed(BodyTooLarge(cap, |buf|))
        else Collect(buf + data, items[1..], cap)
  }

  lemma {:induction false} ConcatAppend(a: seq<Bytes>, b: seq<Bytes>)
    ensures Concat(a + b) == Concat(a) + Concat(b)
  {
    if a == [] {
      assert a + b == b;
    } else {
      assert (a + b)[1..] == a[1..] + b;
      ConcatAppend(a[1..], b);
    }
  }

  /** With `ConcatAppend`, all there is to know of concatenation. */
  lemma ConcatOne(chunk: Bytes)
    ensures Concat([]) == [] && Concat([chunk]) == chunk
  {
    assert Concat([chunk]) == chunk + Concat([]);
  }

  /** Nothing in it ends the body. */
  predicate Unended<E>(items: seq<Polled<E>>) {
    forall i | 0 <= i < |items| :: items[i].Pending? || (items[i].Item? && items[i].frame.Ok?)
  }

  /** What a body holds and how it ends, built up from its items: data frames count, one by one
      and in order, other frames and waits do not, and nothing counts after an end or an error. */
  lemma BodyMeans<E>(items: seq<Polled<E>>, rest: seq<Polled<E>>, data: Bytes, error: E)
    requires Unended(items)
    ensures Payloads(items + rest) == Payloads(items) + Payloads(rest) && EndingOf(items + rest) == EndingOf(rest)
    ensures Payloads<E>([]) == [] && EndingOf<E>([]) == Never
    ensures Payloads<E>([Item(Ok(Data(data)))]) == [data]
    ensures Payloads<E>([Item(Ok(Trailers))]) == [] && Payloads<E>([Pending]) == []
    ensures Payloads([EndOfBody] + rest) == [] && EndingOf([EndOfBody] + rest) == Clean
    ensures Payloads([Item(Err(error))] + rest) == [] && EndingOf([Item(Err(error))] + rest) == Broke(error)
  {
    UnendedPrefix(items, rest);
  }

  lemma {:induction false} UnendedPrefix<E>(items: seq<Polled<E>>, rest: seq<Polled<E>>)
    requires Unended(items)
    ensures Payloads(items + rest) == Payloads(items) + Payloads(rest) && EndingOf(items + rest) == EndingOf(rest)
  {
    if items == [] {
      assert items + rest == rest;
    } else {
      assert (items + rest)[1..] == items[1..] + rest;
      UnendedPrefix(items[1..], rest);
    }
  }

  /** Dropping chunks beyond the first that breaks the cap does not change the prefix found. */
  lemma {:induction false} LargestPrefixStops(kept: seq<Bytes>, over: Bytes, more: seq<Bytes>, cap: nat)
    requires !Exceeds(|Concat(kept)|, cap) && Exceeds(|Concat(kept)| + |over|, cap)
    ensures LargestPrefix(kept + [over] + more, cap) == |Concat(kept)|
    ensures Exceeds(|Concat(kept + [over] + more)|, cap)
    decreases |more|
  {
    var all := kept + [over] + more;
    ConcatAppend(kept, [over]);
    ConcatAppend(kept + [over], more);
    assert Concat([over]) == over + Concat([]);
    if more == [] {
      assert all[..|all| - 1] == kept;
    } else {
      assert all[..|all| - 1] == kept + [over] + more[..|more| - 1];
      LargestPrefixStops(kept, over, more[..|more| - 1], cap);
    }
  }

  /** The loop from a buffer gives the expected outcome of everything read and still to come. */
  lemma {:induction false} CollectMeetsExpected(read: seq<Bytes>, items: seq<Polled<Error>>, cap: nat)
    requires cap <= USIZE_MAX && !Exceeds(|Concat(read)|, cap)
    ensures var chunks := read + Payloads(items);
            Collect(Concat(read), items, cap) ==
            if Exceeds(|Concat(chunks)|, cap) then Failed(BodyTooLarge(cap, LargestPrefix(chunks, cap)))
            else match EndingOf(items)
              case Clean => Complete(Concat(chunks))
              case Broke(error) => Failed(error)
              case Never => Suspended
    decreases |items|
  {
    assert read + [] == read;
    if items != [] {
      var rest := items[1..];
      match items[0]
      case Pending => CollectMeetsExpected(read, rest, cap);
      case EndOfBody =>
      case Item(Err(_)) =>
      case Item(Ok(Trailers)) => CollectMeetsExpected(read, rest, cap);
      case Item(Ok(Data(data))) =>
        assert read + ([data] + Payloads(rest)) == read + [data] + Payloads(rest);
        if SaturatingAdd(|Concat(read)|, |data|) > cap {
          LargestPrefixStops(read, data, Payloads(rest), cap);
        } else {
          ConcatAppend(read, [data]);
          assert Concat([data]) == data + Concat([]) == data;
          CollectMeetsExpected(read + [data], rest, cap);
        }
    }
  }

  /** The loop gives the expected outcome for every body and cap: the bytes in order when they
      fit and the body ends, `BodyTooLarge` when they do not fit, otherwise the body's error. */
  lemma CollectExact(items: seq<Polled<Error>>, cap: nat)
    requires cap <= USIZE_MAX
    ensures Collect([], items, cap) == Expected(items, cap)
  {
    assert Concat([]) == [];
    assert [] + Payloads(items) == Payloads(items);
    CollectMeetsExpected([], items, cap);
  }

  // ---- The two collectors as written ----

  /** What a body still has to say; one that has ended says so again. */
  function Unread(state: BodyState): seq<Polled<Error>> {
    if state.Done? then [EndOfBody] else Outstanding(state)
  }

  /** Waits for the next frame: polls until something other than `Pending` comes. A stream with
      nothing left to say leaves the wait pending. */
  method NextFrame(body: H3ResponseBody) returns (polled: Polled<Error>)
    requires body.state != Ready(None)
    modifies body
    ensures body.state != Ready(None)
    ensures var all := old(Outstanding(body.state));
            if all == [] then polled == (if old(body.state).Done? then EndOfBody else Pending)
            else polled == all[0] && !polled.Pending? && Outstanding(body.state) == all[1..]
    ensures polled.Item? && polled.frame.Ok? ==> !body.state.Done?
  {
    PollDelivers(body.state);
    polled := body.PollFrame();
    while polled.Pending? && Answers(body.state) > 0
      invariant body.state != Ready(None)
      invariant polled.Pending? ==>
                  Outstanding(body.state) == old(Outstanding(body.state)) && !body.state.Done? && !old(body.state).Done?
      invariant !polled.Pending? ==>
                  var all := old(Outstanding(body.state));
                  if all == [] then polled == EndOfBody && old(body.state).Done?
                  else polled == all[0] && Outstanding(body.state) == all[1..]
      invariant polled.Item? && polled.frame.Ok? ==> !body.state.Done?
      decreases Answers(body.state), polled.Pending?
    {
      PollDelivers(body.state);
      polled := body.PollFrame();
    }
    if polled.Pending? {
      PollDelivers(body.state);
    }
  }

  /** `collect_mhc_body_with_cap` over an HTTP/3 body, however far it has been read. */
  method CollectMhcBodyWithCap(body: H3ResponseBody, maxBytes: nat) returns (result: Collected)
    requires body.state != Ready(None) && maxBytes <= USIZE_MAX
    modifies body
    ensures result == Expected(old(Unread(body.state)), maxBytes)
    ensures old(body.state).Done? ==> result == Complete([])
  {
    CollectExact(Unread(body.state), maxBytes);
    ghost var all := Unread(body.state);
    var buf: Bytes := [];
    while true
      invariant body.state != Ready(None)
      invariant Collect(buf, Unread(body.state), maxBytes) == Expected(all, maxBytes)
      decreases |Outstanding(body.state)|
    {
      var polled := NextFrame(body);
      match polled {
        case Pending => return Suspended;
        case EndOfBody => return Complete(buf);
        case Item(Err(error)) => return Failed(error);
        case Item(Ok(frame)) =>
          if frame.Data? {
            var newTotal := SaturatingAdd(|buf|, |frame.bytes|);
            if newTotal > maxBytes {
              return Failed(BodyTooLarge(maxBytes, |buf|));
            }
            buf := buf + frame.bytes;
          }
      }
    }
  }

  /** The body of an HTTP/1.1 or HTTP/2 response, as successive waits for a frame find it. */
  class IncomingBody {
    var items: seq<Polled<string>>

    constructor (items: seq<Polled<string>>)
      ensures this.items == items
    {
      this.items := items;
    }

    method NextFrame() returns (polled: Polled<string>)
      modifies this
      ensures if old(items) == [] then polled == Pending && items == []
              else polled == old(items)[0] && items == old(items)[1..]
    {
      if items == [] {
        return Pending;
      }
      polled, items := items[0], items[1..];
    }
  }

  /** The same items with every error classified by `classify`. */
  function Classified(items: seq<Polled<string>>, classify: string -> Error): seq<Polled<Error>> {
    if items == [] then []
    else
      [match items[0]
       case Pending => Pending
       case Item(Ok(frame)) => Item(Ok(frame))
       case Item(Err(message)) => Item(Err(classify(message)))
       case EndOfBody => EndOfBody] + Classified(items[1..], classify)
  }

  /** Classifying touches the first error only: the data and where they end stay. */
  lemma {:induction false} ClassifiedKeeps(items: seq<Polled<string>>, classify: string -> Error)
    ensures Payloads(Classified(items, classify)) == Payloads(items)
    ensures EndingOf(Classified(items, classify)) ==
            match EndingOf(items) case Clean => Clean case Broke(message) => Broke(classify(message)) case Never => Never
  {
    if items != [] {
      ClassifiedKeeps(items[1..], classify);
      assert Classified(items, classify)[1..] == Classified(items[1..], classify);
    }
  }

  /** `collect_body_with_cap`: the same loop, with `classify` for `map_hyper_body_error`. */
  method CollectBodyWithCap(body: IncomingBody, maxBytes: nat, classify: string -> Error) returns (result: Collected)
    requires maxBytes <= USIZE_MAX
    modifies body
    ensures result == Expected(Classified(old(body.items), classify), maxBytes)
    ensures var chunks := Payloads(old(body.items));
            if Exceeds(|Concat(chunks)|, maxBytes)
            then result == Failed(BodyTooLarge(maxBytes, LargestPrefix(chunks, maxBytes)))
            else match EndingOf(old(body.items))
              case Clean => result == Complete(Concat(chunks))
              case Broke(message) => result == Failed(classify(message))
              case Never => result == Suspended
  {
    ClassifiedKeeps(body.items, classify);
    CollectExact(Classified(body.items, classify), maxBytes);
    ghost var all := Classified(body.items, classify);
    var buf: Bytes := [];
    while body.items != []
      invariant Collect(buf, Classified(body.items, classify), maxBytes) == Expected(all, maxBytes)
      decreases |body.items|
    {
      var polled := body.NextFrame();
      match polled {
        case Pending =>
        case EndOfBody => return Complete(buf);
        case Item(Err(message)) => return Failed(classify(message));
        case Item(Ok(frame)) =>
          if frame.Data? {
            var newTotal := SaturatingAdd(|buf|, |frame.bytes|);
            if newTotal > maxBytes {
              return Failed(BodyTooLarge(maxBytes, |buf|));
            }
            buf := buf + frame.bytes;
          }
      }
    }
    return Suspended;
  }

  // ---- What the cap means ----

  lemma {:induction false} ConcatPrefix(chunks: seq<Bytes>, k: nat)
    requires k <= |chunks|
    ensures |Concat(chunks[..k])| <= |Concat(chunks)|
  {
    assert chunks == chunks[..k] + chunks[k..];
    ConcatAppend(chunks[..k], chunks[k..]);
  }

  /** `seen` is the size of some run of whole leading frames, and of the largest that fits. */
  lemma {:induction false} SeenIsLargestFit(chunks: seq<Bytes>, cap: nat)
    ensures var seen := LargestPrefix(chunks, cap);
            && !Exceeds(seen, cap)
            && (exists k: nat | k <= |chunks| :: seen == |Concat(chunks[..k])|)
            && (forall k: nat | k <= |chunks| && !Exceeds(|Concat(chunks[..k])|, cap) :: |Concat(chunks[..k])| <= seen)
  {
    var n := |chunks|;
    if n == 0 || !Exceeds(|Concat(chunks)|, cap) {
      assert chunks[..n] == chunks;
      forall k: nat | k <= n
        ensures |Concat(chunks[..k])| <= |Concat(chunks)|
      {
        ConcatPrefix(chunks, k);
      }
    } else {
      var init := chunks[..n - 1];
      SeenIsLargestFit(init, cap);
      assert forall k: nat | k < n :: chunks[..k] == init[..k];
      assert chunks[..n] == chunks;
    }
  }

  predicate TooLarge(result: Collected) {
    result.Failed? && result.error.BodyTooLarge?
  }

  /** A body is too large exactly when some run of leading frames, before any end or error,
      breaks the cap, which never happens under the cap `bytes` uses. A body that fits keeps its
      bytes under every larger cap, and however the same bytes are cut into frames, and whatever
      other frames come between, a cleanly ending body reads the same. */
  lemma CapMeaning(items: seq<Polled<Error>>, other: seq<Polled<Error>>, cap: nat, larger: nat)
    requires cap <= larger <= USIZE_MAX
    requires EndingOf(items).Broke? ==> !EndingOf(items).error.BodyTooLarge?
    ensures TooLarge(Expected(items, cap)) <==>
            cap < USIZE_MAX && exists k: nat | k <= |Payloads(items)| :: |Concat(Payloads(items)[..k])| > cap
    ensures !TooLarge(Expected(items, USIZE_MAX))
    ensures Expected(items, cap).Complete? ==> Expected(items, larger) == Expected(items, cap)
    ensures Concat(Payloads(items)) == Concat(Payloads(other)) && EndingOf(items).Clean? && EndingOf(other).Clean? ==>
              && (Expected(items, cap).Complete? <==> Expected(other, cap).Complete?)
              && (Expected(items, cap).Complete? ==> Expected(items, cap) == Expected(other, cap))
  {
    var chunks := Payloads(items);
    assert chunks[..|chunks|] == chunks;
    forall k: nat | k <= |chunks|
      ensures |Concat(chunks[..k])| <= |Concat(chunks)|
    {
      ConcatPrefix(chunks, k);
    }
  }

  // ---- The reader and the collector together ----

  /** The data chunks a stream holds before its end or error. */
  function Chunks(s: Stream): seq<Bytes> {
    if s == [] || s[0].Eof? || s[0].Broken? then []
    else (if s[0].Chunk? then [s[0].data] else []) + Chunks(s[1..])
  }

  /** The first end or error a stream holds. */
  function StreamEnding(s: Stream): Ending<Error> {
    if s == [] then Never
    else match s[0]
      case Eof => Clean
      case Broken(message) => Broke(Cancelled(message))
      case _ => StreamEnding(s[1..])
  }

  /** What a stream holds and how it ends, built up from what its polls find. */
  lemma StreamMeans(s: Stream, rest: Stream, data: Bytes, message: string)
    requires forall i | 0 <= i < |s| :: s[i].NotReady? || s[i].Chunk?
    ensures Chunks(s + rest) == Chunks(s) + Chunks(rest) && StreamEnding(s + rest) == StreamEnding(rest)
    ensures Chunks([]) == [] && StreamEnding([]) == Never
    ensures Chunks([Chunk(data)]) == [data] && Chunks([NotReady]) == []
    ensures Chunks([Eof] + rest) == [] && StreamEnding([Eof] + rest) == Clean
    ensures Chunks([Broken(message)] + rest) == [] && StreamEnding([Broken(message)] + rest) == Broke(Cancelled(message))
  {
    OpenStreamPrefix(s, rest);
  }

  lemma {:induction false} OpenStreamPrefix(s: Stream, rest: Stream)
    requires forall i | 0 <= i < |s| :: s[i].NotReady? || s[i].Chunk?
    ensures Chunks(s + rest) == Chunks(s) + Chunks(rest) && StreamEnding(s + rest) == StreamEnding(rest)
  {
    if s == [] {
      assert s + rest == rest;
    } else {
      assert (s + rest)[1..] == s[1..] + rest;
      OpenStreamPrefix(s[1..], rest);
    }
  }

  /** A stream delivers its chunks as data frames, once each and in order, and then its end. */
  lemma {:induction false} DeliveriesExactly(s: Stream)
    ensures var chunks := Chunks(s);
            Deliveries(s) ==
            seq(|chunks|, i requires 0 <= i < |chunks| => Item(Ok(Data(chunks[i]))))
            + (match StreamEnding(s) case Clean => [EndOfBody] case Broke(error) => [Item(Err(error))] case Never => [])
  {
    if s != [] {
      DeliveriesExactly(s[1..]);
    }
  }

  lemma {:induction false} DeliveriesCarryChunks(s: Stream)
    ensures Payloads(Deliveries(s)) == Chunks(s)
    ensures EndingOf(Deliveries(s)) == StreamEnding(s)
  {
    if s != [] {
      DeliveriesCarryChunks(s[1..]);
      if s[0].Chunk? {
        assert Deliveries(s)[1..] == Deliveries(s[1..]);
      }
    }
  }

  /** Reading a fresh HTTP/3 body: the chunks in order when they fit and the stream ends,
      `BodyTooLarge` when some prefix does not fit, otherwise the stream's own error, whatever
      waits lie in between. */
  method ReadH3(stream: Stream, maxBytes: nat) returns (result: Collected)
    requires maxBytes <= USIZE_MAX
    ensures var chunks := Chunks(stream);
            if Exceeds(|Concat(chunks)|, maxBytes)
            then result == Failed(BodyTooLarge(maxBytes, LargestPrefix(chunks, maxBytes)))
            else match StreamEnding(stream)
              case Clean => result == Complete(Concat(chunks))
              case Broke(error) => result == Failed(error)
              case Never => result == Suspended
  {
    DeliveriesCarryChunks(stream);
    var body := new H3ResponseBody(stream);
    result := CollectMhcBodyWithCap(body, maxBytes);
  }
}
