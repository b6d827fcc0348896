/**
 `channels::barrier`: a fire-once signal from one sender to any number of
 receivers. Sender and every receiver clone are handles on one shared record,
 a two-state flag (`Pending`, then `Closed` for good) and a `Notifier` for a
 waiting receiver. A send, or dropping the sender, closes the channel.

 Each method is one indivisible step on an immutable record. Handles carry no
 state of their own, so the channel is modelled as the shared record together
 with whether the sender still exists and how many receiver handles exist;
 calls on a handle that does not exist cannot be written in Rust and are
 excluded by `requires`.
 */
module Barrier {
  import opened Wrappers
  import opened Notifier
  import Stream

  /** `barrier::State`. */
  datatype State = Pending | Closed

  /** `barrier::Shared`. */
  datatype Shared = Shared(state: State, notifyRx: Notifier)

  /**
   `Shared::close()`: the channel is closed and the waiting receiver, if any, is
   woken once. Closing a closed channel keeps it closed.
   */
  function Close(s: Shared, wakes: WakeCounts): (r: (Shared, WakeCounts))
    ensures r.0.state.Closed? && r.0.notifyRx.slot.None?
    ensures forall u: WakerId :: Count(r.1, u) == Count(wakes, u) + (if s.notifyRx.slot == Some(u) then 1 else 0)
  {
    var (n, wakes') := s.notifyRx.Notify(wakes);
    (Shared(Closed, n), wakes')
  }

  /**
   `<Sender as Sink>::poll_send`: the first send closes the channel and is
   accepted; on a closed channel it is rejected and nothing changes.
   */
  function SenderPollSend(s: Shared, wakes: WakeCounts): (r: (Shared, WakeCounts, Stream.PollSend<()>))
    ensures r.2 == Stream.PollSend.Ready <==> s.state.Pending?
    ensures r.2 == Stream.PollSend.Rejected(()) <==> s.state.Closed?
    ensures r.0.state.Closed?
    ensures s.state.Closed? ==> r.0 == s && r.1 == wakes
    ensures s.state.Pending? ==> r.0.notifyRx.slot.None? && forall u: WakerId ::
      Count(r.1, u) == Count(wakes, u) + (if s.notifyRx.slot == Some(u) then 1 else 0)
  {
    match s.state
    case Pending =>
      var (s', wakes') := Close(s, wakes);
      (s', wakes', Stream.PollSend.Ready)
    case Closed => (s, wakes, Stream.PollSend.Rejected(()))
  }

  /**
   `<Receiver as Stream>::poll_recv` with context waker `w`: a closed channel is
   ready, every time, and unchanged; an open one registers `w` in place of any
   earlier waker and is pending. A barrier receiver is never `Closed`.
   */
  function ReceiverPoll(s: Shared, w: WakerId): (r: (Shared, Stream.PollRecv<()>))
    ensures r.1 == Stream.PollRecv.Ready(()) <==> s.state.Closed?
    ensures r.1.Pending? <==> s.state.Pending?
    ensures !r.1.Closed?
    ensures s.state.Closed? ==> r.0 == s
    ensures s.state.Pending? ==> r.0.state.Pending? && r.0.notifyRx.slot == Some(w)
  {
    match s.state
    case Pending => (s.(notifyRx := s.notifyRx.Subscribe(w)), Stream.PollRecv.Pending)
    case Closed => (s, Stream.PollRecv.Ready(()))
  }

  // ---------------------------------------------------------------------
  // The channel and its handles

  /**
   The shared record as seen by all handles: `senderAlive` says whether the
   unique `Sender` still exists, `receivers` counts the `Receiver` clones, and
   `wakes` records how often each waker has been woken.
   */
  datatype Channel = Channel(shared: Shared, senderAlive: bool, receivers: nat, wakes: WakeCounts)

  /** `barrier::channel()`: one sender and one receiver on a fresh, open record. */
  function New(): (c: Channel)
    ensures c.shared.state.Pending? && c.shared.notifyRx.slot.None?
    ensures c.senderAlive && c.receivers == 1
    ensures forall u: WakerId :: Count(c.wakes, u) == 0
  {
    Channel(Shared(Pending, Notifier.New()), true, 1, map[])
  }

  /** `Sender::poll_send` through the sender handle. */
  function PollSend(c: Channel): (r: (Channel, Stream.PollSend<()>))
    requires c.senderAlive
    ensures r.1 == Stream.PollSend.Ready <==> c.shared.state.Pending?
    ensures r.0.shared.state.Closed?
    ensures r.0.senderAlive && r.0.receivers == c.receivers
    ensures c.shared.state.Closed? ==> r.0 == c && r.1 == Stream.PollSend.Rejected(())
    ensures c.shared.state.Pending? ==> r.0.shared.notifyRx.slot.None? && forall u: WakerId ::
      Count(r.0.wakes, u) == Count(c.wakes, u) + (if c.shared.notifyRx.slot == Some(u) then 1 else 0)
  {
    var (s', wakes', p) := SenderPollSend(c.shared, c.wakes);
    (c.(shared := s', wakes := wakes'), p)
  }

  /** `Drop for Sender`: always closes, whether or not a send happened. */
  function DropSender(c: Channel): (r: Channel)
    requires c.senderAlive
    ensures r.shared.state.Closed? && !r.senderAlive && r.receivers == c.receivers
    ensures r.shared.notifyRx.slot.None?
    ensures forall u: WakerId ::
      Count(r.wakes, u) == Count(c.wakes, u) + (if c.shared.notifyRx.slot == Some(u) then 1 else 0)
  {
    var (s', wakes') := Close(c.shared, c.wakes);
    c.(shared := s', senderAlive := false, wakes := wakes')
  }

  /** `Receiver::clone`: another handle on the same record; nothing else changes. */
  function CloneReceiver(c: Channel): (r: Channel)
    requires c.receivers > 0
    ensures r.receivers == c.receivers + 1
    ensures r.shared == c.shared && r.senderAlive == c.senderAlive && r.wakes == c.wakes
  {
    c.(receivers := c.receivers + 1)
  }

  /** Dropping a receiver: one handle fewer; the sender is not affected. */
  function DropReceiver(c: Channel): (r: Channel)
    requires c.receivers > 0
    ensures r.receivers + 1 == c.receivers
    ensures r.shared == c.shared && r.senderAlive == c.senderAlive && r.wakes == c.wakes
  {
    c.(receivers := c.receivers - 1)
  }

  /** `poll_recv` through any receiver handle, with context waker `w`. */
  function PollRecv(c: Channel, w: WakerId): (r: (Channel, Stream.PollRecv<()>))
    requires c.receivers > 0
    ensures r.1 == Stream.PollRecv.Ready(()) <==> c.shared.state.Closed?
    ensures r.1 == Stream.PollRecv.Pending <==> c.shared.state.Pending?
    ensures r.0.senderAlive == c.senderAlive && r.0.receivers == c.receivers && r.0.wakes == c.wakes
    ensures c.shared.state.Closed? ==> r.0 == c
    ensures c.shared.state.Pending? ==> r.0.shared.state.Pending? && r.0.shared.notifyRx.slot == Some(w)
  {
    var (s', p) := ReceiverPoll(c.shared, w);
    (c.(shared := s'), p)
  }

  /** `Stream::try_recv` through any receiver handle: a poll with the no-op waker. */
  function TryRecv(c: Channel): (r: (Channel, Result<(), Stream.TryRecvError>))
    requires c.receivers > 0
    ensures r.1 == Ok(()) <==> c.shared.state.Closed?
    ensures r.1 == Err(Stream.TryRecvError.Pending) <==> c.shared.state.Pending?
    ensures c.shared.state.Pending? ==> r.0.shared.state.Pending? && r.0.shared.notifyRx.slot == Some(NoopWaker)
    ensures r.0.senderAlive == c.senderAlive && r.0.receivers == c.receivers && r.0.wakes == c.wakes
    ensures c.shared.state.Closed? ==> r.0 == c
  {
    var (s', res) := Stream.TryRecv(ReceiverPoll, c.shared);
    (c.(shared := s'), res)
  }

  /**
   Composed with the barrier, the `RecvFuture` returned by `Stream::recv`
   resolves with `Some(())` once the channel is closed and stays pending before;
   it never resolves with `None`.
   */
  lemma RecvFutureOnBarrier(s: Shared, w: WakerId)
    ensures Stream.RecvFuturePoll(ReceiverPoll, s, w).1 == Stream.Poll.Ready(Some(())) <==> s.state.Closed?
    ensures Stream.RecvFuturePoll(ReceiverPoll, s, w).1 == Stream.Poll.Pending <==> s.state.Pending?
  {
  }

  // ---------------------------------------------------------------------
  // What holds of every reachable channel

  /**
   A dropped sender means closed; a closed channel holds no waker; while the
   channel is open nobody has been woken; and over the channel's life at most
   one waker is woken, at most once.
   */
  ghost predicate Valid(c: Channel) {
    && (!c.senderAlive ==> c.shared.state.Closed?)
    && (c.shared.state.Closed? ==> c.shared.notifyRx.slot.None?)
    && (c.shared.state.Pending? ==> forall u: WakerId :: Count(c.wakes, u) == 0)
    && (forall u: WakerId :: Count(c.wakes, u) <= 1)
    && (forall u: WakerId, v: WakerId :: Count(c.wakes, u) > 0 && Count(c.wakes, v) > 0 ==> u == v)
  }

  /** One call on the channel. */
  datatype Op = SendOp | DropSenderOp | CloneReceiverOp | DropReceiverOp | PollRecvOp(w: WakerId) | TryRecvOp

  /** What a call returned; `Skipped` marks a call on a handle that no longer exists. */
  datatype Event =
    | Sent(send: Stream.PollSend<()>)
    | Polled(poll: Stream.PollRecv<()>)
    | Tried(result: Result<(), Stream.TryRecvError>)
    | Done
    | Skipped

  function Step(c: Channel, op: Op): (r: (Channel, Event)) {
    match op
    case SendOp =>
      if c.senderAlive then var (c', p) := PollSend(c); (c', Sent(p)) else (c, Skipped)
    case DropSenderOp =>
      if c.senderAlive then (DropSender(c), Done) else (c, Skipped)
    case CloneReceiverOp =>
      if c.receivers > 0 then (CloneReceiver(c), Done) else (c, Skipped)
    case DropReceiverOp =>
      if c.receivers > 0 then (DropReceiver(c), Done) else (c, Skipped)
    case PollRecvOp(w) =>
      if c.receivers > 0 then var (c', p) := PollRecv(c, w); (c', Polled(p)) else (c, Skipped)
    case TryRecvOp =>
      if c.receivers > 0 then var (c', r) := TryRecv(c); (c', Tried(r)) else (c, Skipped)
  }

  /** Runs the calls in order; one event per call. */
  function Run(c: Channel, ops: seq<Op>): (r: (Channel, seq<Event>))
    ensures |r.1| == |ops|
    decreases |ops|
  {
    if |ops| == 0 then (c, [])
    else
      var (c1, e) := Step(c, ops[0]);
      var (c2, es) := Run(c1, ops[1..]);
      (c2, [e] + es)
  }

  lemma NewIsValid()
    ensures Valid(New())
  {
  }

  lemma StepKeepsValid(c: Channel, op: Op)
    requires Valid(c)
    ensures Valid(Step(c, op).0)
  {
  }

  /** Every channel reachable from `channel()` satisfies `Valid`. */
  lemma {:induction false} RunKeepsValid(c: Channel, ops: seq<Op>)
    requires Valid(c)
    ensures Valid(Run(c, ops).0)
    decreases |ops|
  {
    if |ops| > 0 {
      StepKeepsValid(c, ops[0]);
      RunKeepsValid(Step(c, ops[0]).0, ops[1..]);
    }
  }

  /** The answer of a call on a closed channel. */
  ghost predicate ClosedAnswer(e: Event) {
    match e
    case Sent(p) => p == Stream.PollSend.Rejected(())
    case Polled(p) => p == Stream.PollRecv.Ready(())
    case Tried(r) => r == Ok(())
    case Done => true
    case Skipped => true
  }

  /**
   Closed is terminal and durable: from a closed channel, whatever is called, it
   stays closed, every poll of every receiver handle (clones made before or
   after the close alike) is `Ready(())`, every `try_recv` is `Ok(())` and every
   send is rejected.
   */
  lemma {:induction false} ClosedStaysClosed(c: Channel, ops: seq<Op>)
    requires c.shared.state.Closed?
    ensures Run(c, ops).0.shared.state.Closed?
    ensures forall i :: 0 <= i < |ops| ==> ClosedAnswer(Run(c, ops).1[i])
    decreases |ops|
  {
    if |ops| > 0 {
      var (c1, e) := Step(c, ops[0]);
      ClosedStaysClosed(c1, ops[1..]);
      var (c2, es) := Run(c1, ops[1..]);
      assert Run(c, ops).1 == [e] + es;
      forall i | 0 <= i < |ops|
        ensures ClosedAnswer(Run(c, ops).1[i])
      {
        if i > 0 {
          assert Run(c, ops).1[i] == es[i - 1];
        }
      }
    }
  }

  /** Number of accepted sends. */
  function Accepted(es: seq<Event>): (n: nat) {
    if |es| == 0 then 0
    else (if es[0] == Sent(Stream.PollSend.Ready) then 1 else 0) + Accepted(es[1..])
  }

  /**
   At most one send is accepted from an open channel and none from a closed
   one, whatever drops and clones happen in between.
   */
  lemma {:induction false} AtMostOneSend(c: Channel, ops: seq<Op>)
    ensures Accepted(Run(c, ops).1) <= (if c.shared.state.Pending? then 1 else 0)
    decreases |ops|
  {
    if |ops| > 0 {
      var (c1, e) := Step(c, ops[0]);
      AtMostOneSend(c1, ops[1..]);
      var (c2, es) := Run(c1, ops[1..]);
      assert ([e] + es)[1..] == es;
      if c1.shared.state.Closed? {
        ClosedStaysClosed(c1, ops[1..]);
        NoneAcceptedWhenClosed(es);
      }
    }
  }

  /** A run of closed answers accepts no send. */
  lemma {:induction false} NoneAcceptedWhenClosed(es: seq<Event>)
    requires forall i :: 0 <= i < |es| ==> ClosedAnswer(es[i])
    ensures Accepted(es) == 0
    decreases |es|
  {
    if |es| > 0 {
      assert forall i :: 0 <= i < |es[1..]| ==> es[1..][i] == es[i + 1];
      NoneAcceptedWhenClosed(es[1..]);
    }
  }

  /**
   Wake-up delivery over the channel's whole life: no waker is ever woken twice,
   at most one waker is ever woken, and while the channel is still open nobody
   has been woken. Once the sender is dropped the channel is closed, so every
   receiver's next poll is ready.
   */
  lemma WakesOverLifetime(ops: seq<Op>)
    ensures var c := Run(New(), ops).0;
            && (forall u: WakerId :: Count(c.wakes, u) <= 1)
            && (forall u: WakerId, v: WakerId :: Count(c.wakes, u) > 0 && Count(c.wakes, v) > 0 ==> u == v)
            && (c.shared.state.Pending? ==> forall u: WakerId :: Count(c.wakes, u) == 0)
            && (!c.senderAlive ==> c.shared.state.Closed?)
  {
    NewIsValid();
    RunKeepsValid(New(), ops);
  }

  /**
   The close wakes the waiting receiver: on a reachable open channel whose
   receiver last polled with `w`, a send or a sender drop wakes `w` exactly
   once in total.
   */
  lemma CloseWakesWaiter(c: Channel, w: WakerId)
    requires Valid(c) && c.senderAlive && c.shared.state.Pending? && c.shared.notifyRx.slot == Some(w)
    ensures Count(PollSend(c).0.wakes, w) == 1
    ensures Count(DropSender(c).wakes, w) == 1
  {
  }
}
