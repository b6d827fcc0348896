/**
 The polling contract of `stream.rs`: the three-way `PollRecv` result, the two
 adapters that turn it into a `Result` (`Stream::try_recv`) or a future's
 `Poll<Option<_>>` (`RecvFuture::poll`), and the `&mut S` / `Pin<P>` impls that
 forward `poll_recv` to the stream behind them.

 A stream is modelled as its state `S` together with a poll function that takes
 the state and the waker of the polling context and returns the next state and
 the poll result.
 */
module Stream {
  import opened Wrappers
  import opened Notifier

  /** `PollRecv<T>`: one receive attempt. */
  datatype PollRecv<T> = Ready(value: T) | Pending | Closed

  /** `PollSend<T>`: one send attempt; a rejected value is handed back. */
  datatype PollSend<T> = Ready | Rejected(value: T)

  /** `stream::TryRecvError`. */
  datatype TryRecvError = Pending | Rejected

  /** `std::task::Poll<T>`, the result of polling a future. */
  datatype Poll<T> = Ready(value: T) | Pending

  /**
   The result mapping of `Stream::try_recv`: an item is `Ok`, a pending poll is
   the `Pending` error and a closed stream the `Rejected` error.
   */
  function TryRecvResult<T>(p: PollRecv<T>): (r: Result<T, TryRecvError>)
    ensures r.Ok? <==> p.Ready?
    ensures r.Ok? ==> r.value == p.value
    ensures r == Err(TryRecvError.Pending) <==> p.Pending?
    ensures r == Err(TryRecvError.Rejected) <==> p.Closed?
  {
    match p
    case Ready(v) => Ok(v)
    case Pending => Err(TryRecvError.Pending)
    case Closed => Err(TryRecvError.Rejected)
  }

  /** The poll result a `try_recv` outcome came from. */
  function PollOfTryRecv<T>(r: Result<T, TryRecvError>): (p: PollRecv<T>) {
    match r
    case Ok(v) => PollRecv.Ready(v)
    case Err(e) => if e.Pending? then PollRecv.Pending else PollRecv.Closed
  }

  /** `try_recv` loses nothing: its result determines the poll result, and back. */
  lemma TryRecvResultRoundTrip<T>(p: PollRecv<T>, r: Result<T, TryRecvError>)
    ensures PollOfTryRecv(TryRecvResult(p)) == p
    ensures TryRecvResult(PollOfTryRecv(r)) == r
  {
  }

  /**
   The result mapping of `RecvFuture::poll`: an item resolves the future with
   `Some`, a closed stream resolves it with `None`, and a pending poll leaves it
   pending.
   */
  function RecvFutureResult<T>(p: PollRecv<T>): (r: Poll<Option<T>>)
    ensures r.Pending? <==> p.Pending?
    ensures r == Poll.Ready(None) <==> p.Closed?
    ensures r.Ready? && r.value.Some? <==> p.Ready?
    ensures p.Ready? ==> r == Poll.Ready(Some(p.value))
  {
    match p
    case Ready(v) => Poll.Ready(Some(v))
    case Pending => Poll.Pending
    case Closed => Poll.Ready(None)
  }

  /**
   The two adapters agree: the future resolves with `Some(v)` exactly when
   `try_recv` gives `Ok(v)`, with `None` exactly when it gives `Rejected`, and
   stays pending exactly when it gives `Pending`.
   */
  lemma AdaptersAgree<T>(p: PollRecv<T>)
    ensures forall v: T :: RecvFutureResult(p) == Poll.Ready(Some(v)) <==> TryRecvResult(p) == Ok(v)
    ensures RecvFutureResult(p) == Poll.Ready(None) <==> TryRecvResult(p) == Err(TryRecvError.Rejected)
    ensures RecvFutureResult(p) == Poll.Pending <==> TryRecvResult(p) == Err(TryRecvError.Pending)
  {
  }

  /** A stream's `poll_recv`: state and context waker to next state and result. */
  type PollFn<!S, T> = (S, WakerId) -> (S, PollRecv<T>)

  /**
   `Stream::try_recv`: one poll with the no-op waker, result mapped to a
   `Result`; the stream's state changes exactly as that poll changes it.
   */
  function TryRecv<S, T>(poll: PollFn<S, T>, s: S): (r: (S, Result<T, TryRecvError>))
    ensures r.0 == poll(s, NoopWaker).0
    ensures r.1.Ok? <==> poll(s, NoopWaker).1.Ready?
    ensures r.1 == Err(TryRecvError.Pending) <==> poll(s, NoopWaker).1.Pending?
    ensures r.1 == Err(TryRecvError.Rejected) <==> poll(s, NoopWaker).1.Closed?
    ensures poll(s, NoopWaker).1.Ready? ==> r.1 == Ok(poll(s, NoopWaker).1.value)
  {
    var (s', p) := poll(s, NoopWaker);
    (s', TryRecvResult(p))
  }

  /**
   `RecvFuture::poll`: one poll of the borrowed stream with the future's own
   context waker `w`, result mapped to `Poll<Option<_>>`.
   */
  function RecvFuturePoll<S, T>(poll: PollFn<S, T>, s: S, w: WakerId): (r: (S, Poll<Option<T>>))
    ensures r.0 == poll(s, w).0
    ensures r.1.Pending? <==> poll(s, w).1.Pending?
    ensures r.1 == Poll.Ready(None) <==> poll(s, w).1.Closed?
    ensures poll(s, w).1.Ready? ==> r.1 == Poll.Ready(Some(poll(s, w).1.value))
  {
    var (s', p) := poll(s, w);
    (s', RecvFutureResult(p))
  }

  /**
   How a stream is reached: directly, through `&mut S`, or through `Pin<P>`;
   the wrappers nest (`Pin<&mut &mut S>` is `Pinned(MutRef(MutRef(Direct)))`).
   */
  datatype Via = Direct | MutRef(inner: Via) | Pinned(inner: Via)

  /**
   `poll_recv` of the wrapped stream: each wrapper forwards to what it wraps, so
   polling through any chain of `&mut` and `Pin` wrappers gives exactly the
   wrapped stream's result and state change.
   */
  function PollVia<S, T>(via: Via, poll: PollFn<S, T>, s: S, w: WakerId): (r: (S, PollRecv<T>))
    ensures r == poll(s, w)
    decreases via
  {
    match via
    case Direct => poll(s, w)
    case MutRef(inner) => PollVia(inner, poll, s, w)
    case Pinned(inner) => PollVia(inner, poll, s, w)
  }
}
