/** Response bodies: the poll-driven HTTP/3 body of src/http3.rs and what any schedule of polls
    delivers from it. */
module Body {
  import opened Wrappers
  import opened Errors

  newtype byte = x: int | 0 <= x < 256
  type Bytes = seq<byte>

  datatype Frame = Data(bytes: Bytes) | Trailers

  /** `Poll<Option<Result<Frame, E>>>`. */
  datatype Polled<+E> = Pending | Item(frame: Result<Frame, E>) | EndOfBody

  /** What one poll of `recv_data` finds. */
  datatype Recv = NotReady | Chunk(data: Bytes) | Eof | Broken(message: string)

  /** A request stream: what successive polls will find. Past the end nothing more arrives. */
  type Stream = seq<Recv>

  datatype BodyState = Ready(stream: Option<Stream>) | Reading(future: Stream) | Done

  /** One poll of the read in progress. */
  function PollRead(s: Stream): (BodyState, Polled<Error>) {
    if s == [] then (Reading(s), Pending)
    else match s[0]
      case NotReady => (Reading(s[1..]), Pending)
      case Chunk(data) => (Ready(Some(s[1..])), Item(Ok(Data(data))))
      case Eof => (Done, EndOfBody)
      case Broken(message) => (Done, Item(Err(Cancelled(message))))
  }

  function PollBody(state: BodyState): (BodyState, Polled<Error>) {
    match state
    case Ready(None) => (Done, EndOfBody)
    case Ready(Some(stream)) => PollRead(stream)
    case Reading(future) => PollRead(future)
    case Done => (Done, EndOfBody)
  }

  class H3ResponseBody {
    var state: BodyState

    constructor (stream: Stream)
      ensures state == Ready(Some(stream))
    {
      state := Ready(Some(stream));
    }

    /** The loop of `poll_frame`; each turn either returns or leaves `Ready`. */
    method PollFrame() returns (polled: Polled<Error>)
      modifies this
      ensures (state, polled) == PollBody(old(state))
    {
      while true
        invariant PollBody(state) == PollBody(old(state))
        decreases state.Ready?
      {
        match state {
          case Ready(stream) =>
            if stream.None? {
              state := Done;
              continue;
            }
            state := Reading(stream.value);
          case Reading(future) =>
            if future == [] {
              return Pending;
            }
            match future[0] {
              case NotReady =>
                state := Reading(future[1..]);
                return Pending;
              case Chunk(data) =>
                state := Ready(Some(future[1..]));
                return Item(Ok(Data(data)));
              case Eof =>
                state := Done;
                return EndOfBody;
              case Broken(message) =>
                state := Done;
                return Item(Err(Cancelled(message)));
            }
          case Done =>
            return EndOfBody;
        }
      }
    }

    /** Dropping the body cancels the stream, but only one that is idle between reads. */
    method Drop() returns (cancelled: Option<Stream>)
      ensures cancelled == if state.Ready? then state.stream else None
    {
      if state.Ready? && state.stream.Some? {
        return state.stream;
      }
      return None;
    }
  }

  // ---- What a stream holds, whatever the schedule ----

  /** The deliveries of a stream in order, the last one its end or error if it has one. */
  function Deliveries(s: Stream): seq<Polled<Error>> {
    if s == [] then []
    else match s[0]
      case NotReady => Deliveries(s[1..])
      case Chunk(data) => [Item(Ok(Data(data)))] + Deliveries(s[1..])
      case Eof => [EndOfBody]
      case Broken(message) => [Item(Err(Cancelled(message)))]
  }

  /** What is still to be delivered from a state; a finished body has only its end to report. */
  function Outstanding(state: BodyState): seq<Polled<Error>> {
    match state
    case Ready(None) => []
    case Ready(Some(stream)) => Deliveries(stream)
    case Reading(future) => Deliveries(future)
    case Done => []
  }

  function PollTimes(state: BodyState, n: nat): (BodyState, seq<Polled<Error>>)
    decreases n
  {
    if n == 0 then (state, [])
    else
      var (next, first) := PollBody(state);
      var (last, rest) := PollTimes(next, n - 1);
      (last, [first] + rest)
  }

  /** The results of polls, without the `Pending` ones. */
  function Delivered(polls: seq<Polled<Error>>): seq<Polled<Error>> {
    if polls == [] then []
    else (if polls[0].Pending? then [] else [polls[0]]) + Delivered(polls[1..])
  }

  function Ends(n: nat): seq<Polled<Error>> {
    seq(n, i => EndOfBody)
  }

  /** `got` is what a reader may have received of `all` so far: a prefix of it, or all of it
      followed by ends. */
  predicate InOrder(got: seq<Polled<Error>>, all: seq<Polled<Error>>) {
    if |got| <= |all| then got <= all else got == all + Ends(|got| - |all|)
  }

  function Answers(state: BodyState): nat {
    match state
    case Ready(Some(stream)) => |stream|
    case Reading(future) => |future|
    case _ => 0
  }

  /** One poll: `Pending` loses nothing, anything else is the next delivery, and the end is
      reported only when nothing is outstanding. */
  lemma PollDelivers(state: BodyState)
    requires state != Ready(None)
    ensures var (next, polled) := PollBody(state);
            && next != Ready(None)
            && (polled.Pending? ==> Outstanding(next) == Outstanding(state) && !next.Done?)
            && (!polled.Pending? ==>
                  InOrder([polled], Outstanding(state))
                  && (Outstanding(state) != [] ==> Outstanding(next) == Outstanding(state)[1..])
                  && (Outstanding(state) == [] ==> state.Done? && next.Done?))
            && (polled.Item? && polled.frame.Ok? ==> !next.Done?)
            && (Answers(state) > 0 ==> Answers(next) < Answers(state))
            && (Answers(state) == 0 ==> Outstanding(state) == [])
  {
    if state.Done? {
      assert [EndOfBody] == [] + Ends(1);
    }
  }

  lemma OrderCons(first: Polled<Error>, rest: seq<Polled<Error>>, all: seq<Polled<Error>>)
    requires InOrder([first], all)
    requires InOrder(rest, if all == [] then [] else all[1..])
    ensures InOrder([first] + rest, all)
  {
    if all == [] {
      assert [first] + rest == [] + Ends(|rest| + 1);
    } else if |rest| + 1 > |all| {
      assert [first] + (all[1..] + Ends(|rest| - |all[1..]|)) == all + Ends(|rest| + 1 - |all|);
    }
  }

  /** However a body is polled, the frames received are the outstanding ones, once each and in
      order; the end or error is final; `Ready(None)` never shows between polls; and polling as
      often as the stream has answers delivers everything. */
  lemma {:induction false} AnyScheduleDelivers(state: BodyState, n: nat)
    requires state != Ready(None)
    ensures var (last, polls) := PollTimes(state, n);
            && last != Ready(None)
            && InOrder(Delivered(polls), Outstanding(state))
            && (n >= Answers(state) ==> |Delivered(polls)| >= |Outstanding(state)|)
    decreases n
  {
    if n > 0 {
      var (next, first) := PollBody(state);
      var (last, rest) := PollTimes(next, n - 1);
      PollDelivers(state);
      AnyScheduleDelivers(next, n - 1);
      var polls := [first] + rest;
      assert polls[1..] == rest;
      if !first.Pending? {
        OrderCons(first, Delivered(rest), Outstanding(state));
      }
    }
  }

  /** Two streams with the same deliveries, however different their waits, read the same once
      each has been polled as often as it has answers. */
  lemma ScheduleIndependent(a: Stream, b: Stream, n: nat, m: nat)
    requires Deliveries(a) == Deliveries(b) && n >= |a| && m >= |b|
    ensures var x := Delivered(PollTimes(Ready(Some(a)), n).1);
            var y := Delivered(PollTimes(Ready(Some(b)), m).1);
            && |x| >= |Deliveries(a)| && |y| >= |Deliveries(a)|
            && x[..|Deliveries(a)|] == y[..|Deliveries(a)|] == Deliveries(a)
  {
    AnyScheduleDelivers(Ready(Some(a)), n);
    AnyScheduleDelivers(Ready(Some(b)), m);
  }
}
