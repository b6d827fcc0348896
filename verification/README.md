# postage-rs synchronisation core in Dafny

A Dafny model of the single-event synchronisation primitives of the postage
crate and of the poll-result plumbing around them:

- the **barrier channel** (`src/channels/barrier.rs`): one sender and any number of
  cloned receivers share one record, a flag that goes from `Pending` to `Closed` and
  never back, plus a single-slot notifier. A send, or dropping the sender, closes the
  channel and wakes the registered receiver waker. After that every receiver poll is
  `Ready(())`;
- the **transfer** (`src/sync/transfer.rs`): a one-shot value hand-off. It combines a
  single-value cell, a notifier and one liveness flag (`Alive`/`Dead`) for each end;
- the **polling contract** (`src/stream.rs`): `PollRecv`, `TryRecvError`, the result
  mappings of `Stream::try_recv` and `RecvFuture::poll`, and the `&mut S` / `Pin<P>`
  impls that forward `poll_recv`.

Each method is one indivisible step on an immutable record: a pure function from
the old state to the new state and the result. Wakers are opaque ids (`WakerId`),
and the no-op waker that `try_recv` polls with is id 0. How often each waker has
been woken is kept in a `WakeCounts` map. This map is what the crate's tests observe
with counting wakers. It exists only in the model and is threaded through every
step that can wake someone.

The notifier (`sync::notifier`) and the oneshot cell (`sync::oneshot_cell`) are
not part of this model's source files. They are modelled abstractly from how
`barrier.rs` and `transfer.rs` use them:
- `subscribe` overwrites the single slot;
- `notify` takes the stored waker and wakes it once, and does nothing on an empty slot;
- the cell accepts a value only when empty and otherwise hands it back;
- the cell yields a stored value once, then reports closed.

`PollSend` is imported from the crate root by `barrier.rs`; the file that defines it
is not part of this model. It is declared beside `PollRecv` in the `Stream` module.

Files:
- `wrappers.dfy`: `Option` and `Result`.
- `notifier.dfy`: the notifier.
- `oneshot_cell.dfy`: the oneshot cell.
- `stream.dfy`: the polling contract.
- `transfer.dfy`: the transfer, and runs of call sequences on it.
- `barrier.dfy`: the barrier, its handles, and runs of call sequences on it.
- `barrier_tests.dfy`: the nine sequential unit tests of `barrier.rs`, plus two further call sequences that are not tests of the crate (`LastPollerIsWoken`, `TryRecvAroundClose`).

On the transfer's `recv` when the sender is dead and the cell is empty, the
code answers `Pending` without registering the caller's waker. `PollRecv::Pending`
is documented as "the receiver has registered with the waker context", and
`PollRecv::Closed` as "no messages will ever be delivered" (stream.rs:124-127).
With the sender gone and the cell empty the second holds, so `Closed` is the
evident intent. The model follows the code (`Transfer.Recv`). The corrected
behaviour is `Transfer.RecvClosing`; see Findings. The call-sequence runner of
`transfer.dfy` uses the as-written `Recv`.

## Model

| member | source | states |
|---|---|---|
| `Notifier.LastSubscriberWins` | src/channels/barrier.rs:86-90 | After two subscriptions a notify wakes only the later waker, once; the earlier one is not woken |
| `Notifier.NotifyTwiceWakesOnce` | src/channels/barrier.rs:73-76 | A second notify with no subscription in between wakes nobody and changes nothing |
| `Notifier.Notifier.Subscribe` | src/channels/barrier.rs:88 | After a subscription the slot holds exactly that waker, whatever it held before |
| `Notifier.Notifier.Notify` | src/channels/barrier.rs:75 | Notify empties the slot and wakes exactly the waker it held, once; with an empty slot no count changes |
| `Notifier.Notifier.New` | src/channels/barrier.rs:11 | A new notifier's slot is empty: nobody is registered |
| `OneshotCell.New` | src/sync/transfer.rs:30 | A new cell is `Empty` |
| `OneshotCell.Send` | src/sync/transfer.rs:40 | The cell accepts a value exactly when it is empty and then holds that value; a refused value comes back unchanged and the cell is untouched |
| `OneshotCell.TryRecv` | src/sync/transfer.rs:47-66 | A full cell yields its value and becomes taken; an empty cell is pending; a taken cell is closed; only a successful read changes the cell |
| `OneshotCell.SendThenRecv` | src/sync/transfer.rs:40-48 | A value sent into a fresh cell is read back once; the next read is closed |
| `Stream.TryRecvResult` | src/stream.rs:36-40 | `Ready(v)` maps to `Ok(v)`, `Pending` to `Err(Pending)`, `Closed` to `Err(Rejected)`, each in both directions |
| `Stream.TryRecvResultRoundTrip` | src/stream.rs:36-40 | The `try_recv` mapping is a bijection: the poll result is recovered from the `Result`, and back |
| `Stream.RecvFutureResult` | src/stream.rs:159-163 | `Ready(v)` resolves the future with `Some(v)`, `Closed` resolves it with `None`, `Pending` leaves it pending, each in both directions |
| `Stream.AdaptersAgree` | src/stream.rs:153-164 | The future resolves with `Some(v)` exactly when `try_recv` gives `Ok(v)`, with `None` exactly when it gives `Rejected`, and stays pending exactly when it gives `Pending` |
| `Stream.TryRecv` | src/stream.rs:28-41 | `try_recv` polls once with the no-op waker; the stream's state changes exactly as that poll changes it, and the result is `Ok`/`Pending`/`Rejected` exactly when the poll is ready/pending/closed |
| `Stream.RecvFuturePoll` | src/stream.rs:156-164 | Polling the future polls the borrowed stream once with the future's waker; it is pending exactly when the stream is, and resolves with `None` exactly when the stream is closed |
| `Stream.PollVia` | src/stream.rs:96-118 | Polling through any nesting of `&mut` and `Pin` wrappers gives exactly the inner stream's result and state change |
| `Transfer.New` | src/sync/transfer.rs:26-33 | A new transfer has both ends alive, an empty cell and no registered waker |
| `Transfer.Send` | src/sync/transfer.rs:35-44 | A send succeeds exactly when the receiver is alive and the cell is empty. On success the cell holds the value and the registered waker is woken once. Otherwise the same value comes back, and neither the state nor any wake count changes. The flags never change |
| `Transfer.Recv` | src/sync/transfer.rs:46-68 | As written. `Ready(v)` exactly when the cell held `v`, and the cell becomes taken. `Closed` exactly when it was taken. `Pending` exactly when it is empty. The waker is registered exactly when the cell is empty and the sender is alive. A dead sender's empty cell leaves the notifier untouched |
| `Transfer.PollOfCell` | src/sync/transfer.rs:51-55 | A cell read maps to the poll result case by case: `Ok(v)` to `Ready(v)`, the `Pending` error to `Pending`, the `Closed` error to `Closed`, each in both directions |
| `Transfer.RecvPendingWithoutWaker` | src/sync/transfer.rs:49-55 | There is a state where the as-written `recv` answers `Pending` without the caller's waker being registered |
| `Transfer.RecvClosing` | src/sync/transfer.rs:49-55 | Corrected `recv`: `Pending` exactly when the cell is empty and the sender alive, and then the caller's waker is registered; `Closed` exactly when the cell is taken or is empty with the sender dead. Unless a value is delivered the cell is unchanged, and unless the cell is empty with the sender alive the notifier is unchanged |
| `Transfer.RecvClosingAgreesElsewhere` | src/sync/transfer.rs:46-68 | The corrected `recv` equals the as-written one exactly outside the dead-sender, empty-cell case |
| `Transfer.SenderDisconnect` | src/sync/transfer.rs:70-72 | Marks the sender dead; the receiver flag, the cell and the notifier are unchanged |
| `Transfer.ReceiverDisconnect` | src/sync/transfer.rs:74-76 | Marks the receiver dead; the sender flag, the cell and the notifier are unchanged |
| `Transfer.SendRecvOnce` | src/sync/transfer.rs:40-48 | On a fresh transfer a send is accepted, the next `recv` yields that value, and a later `recv` is closed |
| `Transfer.SendWakesWaitingReceiver` | src/sync/transfer.rs:41-62 | A receiver pending on an empty transfer with both ends alive is woken exactly once by the send, and then receives the value |
| `Transfer.RunConservesValues` | src/sync/transfer.rs:35-68 | Over any sequence of calls, accepted values plus the one held at the start equal delivered values plus the one held at the end, and at most one value is accepted into an empty cell |
| `Transfer.DeliveredAtMostOnce` | src/sync/transfer.rs:26-68 | Over the whole life of a transfer at most one value is accepted and at most one is received |
| `Transfer.RunKeepsDead` | src/sync/transfer.rs:70-76 | No sequence of calls sets a dead flag back to alive |
| `Transfer.DeadReceiverRefusesAll` | src/sync/transfer.rs:36-38 | Once the receiver is dead every later send fails and returns its own value |
| `Barrier.Close` | src/channels/barrier.rs:73-76 | Close leaves the channel closed with an empty slot, and wakes exactly the registered waker once |
| `Barrier.SenderPollSend` | src/channels/barrier.rs:33-45 | A send is `Ready` exactly on an open channel and closes it, waking the registered waker once. It is `Rejected(())` exactly on a closed one, and then nothing changes, wake counts included |
| `Barrier.ReceiverPoll` | src/channels/barrier.rs:82-93 | A poll is `Ready(())` exactly when closed, and the state is unchanged. It is `Pending` exactly when open, and then the caller's waker replaces the slot. It is never `Closed` |
| `Barrier.New` | src/channels/barrier.rs:8-21 | A new channel is open, has no registered waker, one sender and one receiver on the same record, and nobody woken |
| `Barrier.PollSend` | src/channels/barrier.rs:38-44 | Through the sender handle: `Ready` exactly when open; afterwards closed; on a closed channel `Rejected(())` with nothing changed |
| `Barrier.DropSender` | src/channels/barrier.rs:48-52 | Dropping the sender always closes the channel, empties the slot and wakes the registered waker once |
| `Barrier.CloneReceiver` | src/channels/barrier.rs:54-57 | A clone adds a handle on the same record; state, sender and wake counts are unchanged |
| `Barrier.DropReceiver` | src/channels/barrier.rs:151-159 | Dropping a receiver removes one handle and changes neither the shared record nor the sender |
| `Barrier.PollRecv` | src/channels/barrier.rs:86-93 | Through any receiver handle: `Ready(())` exactly when closed, `Pending` exactly when open; handles and wake counts unchanged |
| `Barrier.TryRecv` | src/stream.rs:28-41 | `try_recv` on a barrier receiver is `Ok(())` exactly when closed, and then nothing changes. It is `Err(Pending)` exactly when open, and then the channel stays open with the no-op waker registered. Sender, receiver handles and wake counts never change |
| `Barrier.RecvFutureOnBarrier` | src/stream.rs:153-164 | The receive future on a barrier resolves with `Some(())` exactly when closed and is pending exactly when open |
| `Barrier.NewIsValid` | src/channels/barrier.rs:8-21 | A new channel satisfies the channel invariant `Valid` |
| `Barrier.StepKeepsValid` | src/channels/barrier.rs:38-93 | Every call preserves `Valid`: a dropped sender means closed, closed means no registered waker, open means nobody woken, and at most one waker is ever woken, at most once |
| `Barrier.RunKeepsValid` | src/channels/barrier.rs:38-93 | Every sequence of calls preserves `Valid` |
| `Barrier.ClosedStaysClosed` | src/channels/barrier.rs:86-93 | From a closed channel, after any calls, it is still closed. Every receiver poll is `Ready(())`, for clones made before or after alike. Every `try_recv` is `Ok(())` and every send is `Rejected(())` |
| `Barrier.AtMostOneSend` | src/channels/barrier.rs:38-44 | Over any sequence of calls at most one send is accepted from an open channel and none from a closed one |
| `Barrier.WakesOverLifetime` | src/channels/barrier.rs:73-76 | From `channel()`, after any calls: no waker woken twice, at most one waker woken, nobody woken while open, and a dropped sender means closed |
| `Barrier.CloseWakesWaiter` | src/channels/barrier.rs:186-230 | On a reachable open channel whose slot holds `w`, a send or a sender drop leaves `w` woken exactly once |
| `BarrierTests.SendAccepted` | src/channels/barrier.rs:105-115 | First send `Ready`, second `Rejected(())` |
| `BarrierTests.SendRecv` | src/channels/barrier.rs:117-126 | After a send two polls are both `Ready(())` |
| `BarrierTests.SenderDisconnect` | src/channels/barrier.rs:128-136 | After dropping the unsent sender a poll is `Ready(())` |
| `BarrierTests.SendThenDisconnect` | src/channels/barrier.rs:138-149 | Send, then drop: two polls are both `Ready(())` |
| `BarrierTests.ReceiverDisconnect` | src/channels/barrier.rs:151-159 | With the receiver dropped the send is still `Ready` |
| `BarrierTests.ReceiverClone` | src/channels/barrier.rs:161-171 | A clone made before the send and the original both poll `Ready(())` |
| `BarrierTests.ReceiverSendThenClone` | src/channels/barrier.rs:173-184 | A clone made after the send and the original both poll `Ready(())` |
| `BarrierTests.WakeReceiver` | src/channels/barrier.rs:186-211 | Pending poll: count 0; send: count 1; rejected second send: count still 1 |
| `BarrierTests.WakeReceiverOnDisconnect` | src/channels/barrier.rs:213-230 | Pending poll: count 0; dropping the sender: count 1 |
| `BarrierTests.LastPollerIsWoken` | src/channels/barrier.rs:86-90 | Two receivers pending: the close wakes only the later waker, and both then poll `Ready(())` |
| `BarrierTests.TryRecvAroundClose` | src/stream.rs:28-41 | `try_recv` is `Err(Pending)` before the send, with the no-op waker registered, and `Ok(())` after it |

## Findings

| source | as written | input that shows it | evidently intended | confidence | as-written member | corrected member |
|---|---|---|---|---|---|---|
| src/sync/transfer.rs:49-55 | With the sender dead and the cell empty, `recv` answers `Pending` without registering the caller's waker. This breaks the meaning of `PollRecv::Pending` documented at src/stream.rs:124, so a task awaiting the value is never woken | a transfer with sender `Dead`, receiver `Alive`, an empty cell and an empty slot, polled with waker 1 | answer `Closed`: no value can arrive any more | not executed | `Transfer.RecvPendingWithoutWaker` | `Transfer.RecvClosing` |

## Left out

- Atomic memory orderings and real multi-threaded interleavings: each method is one indivisible step. So the re-reads of the cell in `Transfer::recv` (transfer.rs:51 and 60) always see the cell of the first read, and the subscribe/re-check race they guard against is not modelled. Likewise `Receiver::poll_recv` loads the barrier state (barrier.rs:86) and then subscribes (barrier.rs:88) without loading it again, so a close landing between those two lines would leave a waker registered on a closed channel and its wake lost. The invariant `Valid` ("closed means no registered waker") and the wake-up delivery of `Barrier.WakesOverLifetime` hold because each method is modelled as one indivisible step.
- `Arc` reference counting and the teardown of the shared record. Receivers are counted handles on the one shared record, and a handle has no state of its own.
- `Pin`, `Context` and `Waker` machinery: a context is the id of its waker, and waking a waker only bumps its count.
- `WakeCounts` is an observation added by the model; the source keeps no such counts.
- The `static_assertions` checks of `Send` and `Clone` (barrier.rs:27-28, 59): they are type-system facts with no behaviour.
- The `tokio_tests` and `async_std_tests` (barrier.rs:233-339): they need a runtime, spawning and timeouts.
- `Stream::recv` driven to completion by an executor: only one `RecvFuture::poll` step is modelled. `RecvFuture::new` (stream.rs:144-151) only stores the borrow.
- The stream combinators `once`, `repeat`, `map`, `filter`, `merge`, `chain` and `find` (stream.rs:11-17, 43-89): their modules are not part of this model.
- The internals of `Notifier` and `OneshotCell`: their source is not part of this model, so only the abstract behaviour above is modelled and nothing is claimed about their atomics.
- `Transfer.RecvClosing` corrects only the answer to a poll made after the sender is gone. A receiver that registered while the sender was alive is still not woken when the sender disconnects, because `sender_disconnect` (transfer.rs:70-72) does not notify; no corrected disconnect is modelled.
- The trace runner of `transfer.dfy` uses the as-written `Transfer.Recv`, not the corrected `Transfer.RecvClosing`. Its lemmas are about the calls' results and the cell, and do not depend on the case the two differ in.
