/**
 `sync::transfer::Transfer<T>`: a one-shot hand-off of a single value from one
 sender to one receiver. It combines a `OneshotCell`, a `Notifier` for the
 receiver's waker, and one liveness flag per side. Each method is one
 indivisible step on an immutable state record.
 */
module Transfer {
  import opened Wrappers
  import opened Notifier
  import OneshotCell
  import Stream

  /** `transfer::State`: whether an endpoint still exists. */
  datatype Liveness = Alive | Dead

  datatype Transfer<T> = Transfer(
    sender: Liveness,
    receiver: Liveness,
    value: OneshotCell.Cell<T>,
    notifyRx: Notifier)

  /** `Transfer::new()`: both ends alive, nothing sent, nobody waiting. */
  function New<T>(): (t: Transfer<T>)
    ensures t.sender.Alive? && t.receiver.Alive?
    ensures t.value.Empty?
    ensures t.notifyRx.slot.None?
  {
    Transfer(Alive, Alive, OneshotCell.New(), Notifier.New())
  }

  /**
   `Transfer::send(value)`. A dead receiver refuses the value before the cell is
   looked at. Otherwise the cell decides: a refused value comes back unchanged;
   an accepted value fills the cell and the waiting receiver is woken.
   */
  function Send<T>(t: Transfer<T>, wakes: WakeCounts, v: T): (r: (Transfer<T>, WakeCounts, Result<(), T>))
    ensures r.2.Ok? <==> t.receiver.Alive? && t.value.Empty?
    ensures r.2.Ok? ==> r.0.value == OneshotCell.Full(v) && r.0.notifyRx.slot.None?
    ensures r.2.Ok? ==> forall u: WakerId ::
      Count(r.1, u) == Count(wakes, u) + (if t.notifyRx.slot == Some(u) then 1 else 0)
    ensures r.2.Err? ==> r.2.error == v && r.0 == t && r.1 == wakes
    ensures r.0.sender == t.sender && r.0.receiver == t.receiver
  {
    if t.receiver.Dead? then
      (t, wakes, Err(v))
    else
      var (cell, sent) := OneshotCell.Send(t.value, v);
      match sent
      case Err(back) => (t.(value := cell), wakes, Err(back))
      case Ok(_) =>
        var (n, wakes') := t.notifyRx.Notify(wakes);
        (t.(value := cell, notifyRx := n), wakes', Ok(()))
  }

  /** The inline mapping of a cell read to a poll result in `Transfer::recv`. */
  function PollOfCell<T>(r: Result<T, OneshotCell.TryRecvError>): (p: Stream.PollRecv<T>)
    ensures p.Ready? <==> r.Ok?
    ensures p.Ready? ==> p.value == r.value
    ensures p.Pending? <==> r == Err(OneshotCell.TryRecvError.Pending)
    ensures p.Closed? <==> r == Err(OneshotCell.TryRecvError.Closed)
  {
    match r
    case Ok(v) => Stream.PollRecv.Ready(v)
    case Err(e) => if e.Pending? then Stream.PollRecv.Pending else Stream.PollRecv.Closed
  }

  /**
   `Transfer::recv(waker)`, as written. A full cell yields its value and a taken
   cell is closed. On an empty cell: with the sender dead the cell is read once
   more and `Pending` results without registering the waker; with the sender
   alive the waker is registered and the cell read once more. In this sequential
   model the second read always sees the same empty cell.
   */
  function Recv<T>(t: Transfer<T>, waker: WakerId): (r: (Transfer<T>, Stream.PollRecv<T>))
    ensures r.1.Ready? <==> t.value.Full?
    ensures r.1.Ready? ==> r.1.value == t.value.value && r.0.value.Taken?
    ensures r.1.Pending? <==> t.value.Empty?
    ensures r.1.Closed? <==> t.value.Taken?
    ensures !r.1.Ready? ==> r.0.value == t.value
    ensures t.value.Empty? && t.sender.Alive? ==> r.0.notifyRx.slot == Some(waker)
    ensures !(t.value.Empty? && t.sender.Alive?) ==> r.0.notifyRx == t.notifyRx
    ensures r.0.sender == t.sender && r.0.receiver == t.receiver
  {
    var (cell, first) := OneshotCell.TryRecv(t.value);
    match first
    case Ok(v) => (t.(value := cell), Stream.PollRecv.Ready(v))
    case Err(e) =>
      if e.Closed? then
        (t.(value := cell), Stream.PollRecv.Closed)
      else if t.sender.Dead? then
        var (cell', again) := OneshotCell.TryRecv(cell);
        (t.(value := cell'), PollOfCell(again))
      else
        var n := t.notifyRx.Subscribe(waker);
        var (cell', again) := OneshotCell.TryRecv(cell);
        (t.(value := cell', notifyRx := n), PollOfCell(again))
  }

  /**
   The documented meaning of `PollRecv::Pending` is that the receiver has
   registered its waker. The as-written `recv` breaks it: with the sender dead
   and nothing sent, it answers `Pending` and registers nobody, so a task that
   awaits it is never woken.
   */
  lemma RecvPendingWithoutWaker()
    ensures exists t: Transfer<int>, w: WakerId ::
      Recv(t, w).1.Pending? && Recv(t, w).0.notifyRx.slot != Some(w)
  {
    var t: Transfer<int> := Transfer(Dead, Alive, OneshotCell.Empty, Notifier.New());
    assert Recv(t, 1).1.Pending? && Recv(t, 1).0.notifyRx.slot.None?;
  }

  /**
   `recv` with the evident intent for a dead sender: an empty cell that no
   sender can fill any more is closed. Everything else is as written.
   */
  function RecvClosing<T>(t: Transfer<T>, waker: WakerId): (r: (Transfer<T>, Stream.PollRecv<T>))
    ensures r.1.Ready? <==> t.value.Full?
    ensures r.1.Ready? ==> r.1.value == t.value.value && r.0.value.Taken?
    ensures r.1.Pending? <==> t.value.Empty? && t.sender.Alive?
    ensures r.1.Closed? <==> t.value.Taken? || (t.value.Empty? && t.sender.Dead?)
    ensures r.1.Pending? ==> r.0.notifyRx.slot == Some(waker)
    ensures !r.1.Ready? ==> r.0.value == t.value
    ensures !(t.value.Empty? && t.sender.Alive?) ==> r.0.notifyRx == t.notifyRx
    ensures r.0.sender == t.sender && r.0.receiver == t.receiver
  {
    var (t', p) := Recv(t, waker);
    if p.Pending? && t.sender.Dead? then (t', Stream.PollRecv.Closed) else (t', p)
  }

  /** The corrected `recv` differs from the as-written one only on that case. */
  lemma RecvClosingAgreesElsewhere<T>(t: Transfer<T>, w: WakerId)
    ensures RecvClosing(t, w) == Recv(t, w) <==> !(t.value.Empty? && t.sender.Dead?)
  {
  }

  /** `Transfer::sender_disconnect()`: marks the sender dead and nothing else. */
  function SenderDisconnect<T>(t: Transfer<T>): (r: Transfer<T>)
    ensures r.sender.Dead? && r.receiver == t.receiver
    ensures r.value == t.value && r.notifyRx == t.notifyRx
  {
    t.(sender := Dead)
  }

  /** `Transfer::receiver_disconnect()`: marks the receiver dead and nothing else. */
  function ReceiverDisconnect<T>(t: Transfer<T>): (r: Transfer<T>)
    ensures r.receiver.Dead? && r.sender == t.sender
    ensures r.value == t.value && r.notifyRx == t.notifyRx
  {
    t.(receiver := Dead)
  }

  /** A value sent into a fresh transfer is received once; every later `recv` is closed. */
  lemma SendRecvOnce<T>(v: T, w1: WakerId, w2: WakerId, wakes: WakeCounts)
    ensures var (t1, _, sent) := Send(New<T>(), wakes, v);
            var (t2, got) := Recv(t1, w1);
            sent == Ok(()) && got == Stream.PollRecv.Ready(v) && Recv(t2, w2).1 == Stream.PollRecv.Closed
  {
  }

  /** A receiver waiting on an empty transfer is woken exactly once by the send. */
  lemma SendWakesWaitingReceiver<T>(t: Transfer<T>, wakes: WakeCounts, w: WakerId, v: T)
    requires t.sender.Alive? && t.receiver.Alive? && t.value.Empty?
    ensures var (t1, p) := Recv(t, w);
            var (t2, wakes', sent) := Send(t1, wakes, v);
            p.Pending? && sent.Ok? && Count(wakes', w) == Count(wakes, w) + 1
            && Recv(t2, w).1 == Stream.PollRecv.Ready(v)
  {
  }

  // ---------------------------------------------------------------------
  // Sequences of operations

  /** One call on the shared state. */
  datatype Op<T> = SendOp(v: T) | RecvOp(w: WakerId) | SenderDisconnectOp | ReceiverDisconnectOp

  /** What a call returned. */
  datatype Event<T> = Sent(result: Result<(), T>) | Received(poll: Stream.PollRecv<T>) | Disconnected

  function Step<T>(t: Transfer<T>, wakes: WakeCounts, op: Op<T>): (r: (Transfer<T>, WakeCounts, Event<T>)) {
    match op
    case SendOp(v) => var (t', wakes', r) := Send(t, wakes, v); (t', wakes', Sent(r))
    case RecvOp(w) => var (t', p) := Recv(t, w); (t', wakes, Received(p))
    case SenderDisconnectOp => (SenderDisconnect(t), wakes, Disconnected)
    case ReceiverDisconnectOp => (ReceiverDisconnect(t), wakes, Disconnected)
  }

  /** Runs the calls in order; one event per call. */
  function Run<T>(t: Transfer<T>, wakes: WakeCounts, ops: seq<Op<T>>): (r: (Transfer<T>, WakeCounts, seq<Event<T>>))
    ensures |r.2| == |ops|
    decreases |ops|
  {
    if |ops| == 0 then (t, wakes, [])
    else
      var (t1, wakes1, e) := Step(t, wakes, ops[0]);
      var (t2, wakes2, es) := Run(t1, wakes1, ops[1..]);
      (t2, wakes2, [e] + es)
  }

  /** Number of values handed to the receiver. */
  function Delivered<T>(es: seq<Event<T>>): (n: nat) {
    if |es| == 0 then 0
    else (if es[0].Received? && es[0].poll.Ready? then 1 else 0) + Delivered(es[1..])
  }

  /** Number of values the transfer accepted. */
  function Accepted<T>(es: seq<Event<T>>): (n: nat) {
    if |es| == 0 then 0
    else (if es[0].Sent? && es[0].result.Ok? then 1 else 0) + Accepted(es[1..])
  }

  function Held<T>(t: Transfer<T>): (n: nat) {
    if t.value.Full? then 1 else 0
  }

  function Room<T>(t: Transfer<T>): (n: nat) {
    if t.value.Empty? then 1 else 0
  }

  /**
   Values are conserved: each accepted value is either still in the cell or was
   delivered, and at most as many values are accepted as the cell has room for.
   */
  lemma {:induction false} RunConservesValues<T>(t: Transfer<T>, wakes: WakeCounts, ops: seq<Op<T>>)
    ensures var (t', _, es) := Run(t, wakes, ops);
            Accepted(es) + Held(t) == Delivered(es) + Held(t')
            && Accepted(es) <= Room(t)
    decreases |ops|
  {
    if |ops| > 0 {
      var (t1, wakes1, e) := Step(t, wakes, ops[0]);
      RunConservesValues(t1, wakes1, ops[1..]);
      var (t2, wakes2, es) := Run(t1, wakes1, ops[1..]);
      assert ([e] + es)[1..] == es;
    }
  }

  /** Over the whole life of a transfer, at most one value is sent and at most one received. */
  lemma DeliveredAtMostOnce<T>(ops: seq<Op<T>>, wakes: WakeCounts)
    ensures var (_, _, es) := Run(New<T>(), wakes, ops);
            Delivered(es) <= Accepted(es) <= 1
  {
    RunConservesValues(New<T>(), wakes, ops);
  }

  /** No call brings a dead endpoint back to life. */
  lemma {:induction false} RunKeepsDead<T>(t: Transfer<T>, wakes: WakeCounts, ops: seq<Op<T>>)
    ensures t.sender.Dead? ==> Run(t, wakes, ops).0.sender.Dead?
    ensures t.receiver.Dead? ==> Run(t, wakes, ops).0.receiver.Dead?
    decreases |ops|
  {
    if |ops| > 0 {
      var (t1, wakes1, e) := Step(t, wakes, ops[0]);
      RunKeepsDead(t1, wakes1, ops[1..]);
    }
  }

  /**
   Once the receiver is gone every send fails and hands its own value back: the
   `i`-th event answers the `i`-th call.
   */
  lemma {:induction false} DeadReceiverRefusesAll<T>(t: Transfer<T>, wakes: WakeCounts, ops: seq<Op<T>>, i: nat)
    requires t.receiver.Dead?
    requires i < |ops| && ops[i].SendOp?
    ensures Run(t, wakes, ops).2[i] == Sent(Err(ops[i].v))
    decreases |ops|
  {
    var (t1, wakes1, e) := Step(t, wakes, ops[0]);
    if i > 0 {
      DeadReceiverRefusesAll(t1, wakes1, ops[1..], i - 1);
    }
  }
}
