/**
 The nine sequential unit tests of `channels::barrier`, each as a lemma about
 its sequence of calls with the results and wake counts the test asserts, plus
 two further call sequences (`LastPollerIsWoken`, `TryRecvAroundClose`) that are
 not tests of the crate. Counting wakers are ids 1 and 2; receivers polled with
 `noop_context()` use the no-op waker. `poll_send` ignores its context, so the
 `panic_context()` that `wake_receiver` sends with needs no model.
 */
module BarrierTests {
  import opened Wrappers
  import opened Notifier
  import Stream
  import opened Barrier

  /** `send_accepted`: the first send is accepted, the second rejected. */
  lemma SendAccepted()
    ensures var (c1, p1) := PollSend(New());
            var (_, p2) := PollSend(c1);
            p1 == Stream.PollSend.Ready && p2 == Stream.PollSend.Rejected(())
  {
  }

  /** `send_recv`: after a send the receiver is ready, twice. */
  lemma SendRecv()
    ensures var (c1, _) := PollSend(New());
            var (c2, r1) := PollRecv(c1, NoopWaker);
            var (_, r2) := PollRecv(c2, NoopWaker);
            r1 == Stream.PollRecv.Ready(()) && r2 == Stream.PollRecv.Ready(())
  {
  }

  /** `sender_disconnect`: dropping the sender without a send makes the receiver ready. */
  lemma SenderDisconnect()
    ensures PollRecv(DropSender(New()), NoopWaker).1 == Stream.PollRecv.Ready(())
  {
  }

  /** `send_then_disconnect`: a drop after the send keeps the receiver ready. */
  lemma SendThenDisconnect()
    ensures var (c1, p) := PollSend(New());
            var c2 := DropSender(c1);
            var (c3, r1) := PollRecv(c2, NoopWaker);
            var (_, r2) := PollRecv(c3, NoopWaker);
            p == Stream.PollSend.Ready && r1 == Stream.PollRecv.Ready(()) && r2 == Stream.PollRecv.Ready(())
  {
  }

  /** `receiver_disconnect`: with the receiver dropped the send is still accepted. */
  lemma ReceiverDisconnect()
    ensures PollSend(DropReceiver(New())).1 == Stream.PollSend.Ready
  {
  }

  /** `receiver_clone`: a clone made before the send is ready after it, as is the original. */
  lemma ReceiverClone()
    ensures var c1 := CloneReceiver(New());
            var (c2, _) := PollSend(c1);
            var (c3, r1) := PollRecv(c2, NoopWaker);
            var (_, r2) := PollRecv(c3, NoopWaker);
            r1 == Stream.PollRecv.Ready(()) && r2 == Stream.PollRecv.Ready(())
  {
  }

  /** `receiver_send_then_clone`: a clone made after the send is ready too. */
  lemma ReceiverSendThenClone()
    ensures var (c1, _) := PollSend(New());
            var c2 := CloneReceiver(c1);
            var (c3, r1) := PollRecv(c2, NoopWaker);
            var (_, r2) := PollRecv(c3, NoopWaker);
            r1 == Stream.PollRecv.Ready(()) && r2 == Stream.PollRecv.Ready(())
  {
  }

  /**
   `wake_receiver`: a pending poll registers the counting waker without waking
   it; the send wakes it once; the rejected second send wakes nobody.
   */
  lemma WakeReceiver()
    ensures var (c1, r) := PollRecv(New(), 1);
            var (c2, p1) := PollSend(c1);
            var (c3, p2) := PollSend(c2);
            && r == Stream.PollRecv.Pending && Count(c1.wakes, 1) == 0
            && p1 == Stream.PollSend.Ready && Count(c2.wakes, 1) == 1
            && p2 == Stream.PollSend.Rejected(()) && Count(c3.wakes, 1) == 1
  {
  }

  /** `wake_receiver_on_disconnect`: dropping the sender wakes the waiting receiver once. */
  lemma WakeReceiverOnDisconnect()
    ensures var (c1, r) := PollRecv(New(), 1);
            && r == Stream.PollRecv.Pending && Count(c1.wakes, 1) == 0
            && Count(DropSender(c1).wakes, 1) == 1
  {
  }

  /**
   Two receivers polling before the close: only the last registered waker is
   woken (the single-slot limitation), and both see the close on their next poll.
   */
  lemma LastPollerIsWoken()
    ensures var c1 := CloneReceiver(New());
            var (c2, _) := PollRecv(c1, 1);
            var (c3, _) := PollRecv(c2, 2);
            var c4 := DropSender(c3);
            && Count(c4.wakes, 1) == 0 && Count(c4.wakes, 2) == 1
            && PollRecv(c4, 1).1 == Stream.PollRecv.Ready(())
            && PollRecv(c4, 2).1 == Stream.PollRecv.Ready(())
  {
  }

  /** `try_recv` on a barrier: pending before the close (the no-op waker is registered), `Ok` after. */
  lemma TryRecvAroundClose()
    ensures var (c1, t1) := TryRecv(New());
            var (c2, _) := PollSend(c1);
            && t1 == Err(Stream.TryRecvError.Pending) && c1.shared.notifyRx.slot == Some(NoopWaker)
            && TryRecv(c2).1 == Ok(())
  {
  }
}
