/**
 The single-slot waker registry shared by every primitive (`sync::notifier::Notifier`).
 Its source is not part of this model; it is modelled from how `barrier.rs` and
 `transfer.rs` use it: `subscribe` overwrites the slot, `notify` takes the stored
 waker (if any) and wakes it.

 Wakers are opaque ids. How often each waker has been woken is recorded in a
 `WakeCounts` map, the observation the library's tests make with counting wakers;
 it is threaded through every operation that can wake someone.
 */
module Notifier {
  import opened Wrappers

  /** An opaque waker handle. */
  type WakerId = nat

  /** The waker of `futures_task::noop_waker()`, which `Stream::try_recv` polls with. */
  const NoopWaker: WakerId := 0

  /** How many times each waker has been woken; a missing key means never. */
  type WakeCounts = map<WakerId, nat>

  function Count(wakes: WakeCounts, w: WakerId): (n: nat) {
    if w in wakes then wakes[w] else 0
  }

  /** Wakes `w` once: its count goes up by one and nobody else's changes. */
  function Wake(wakes: WakeCounts, w: WakerId): (r: WakeCounts)
    ensures Count(r, w) == Count(wakes, w) + 1
    ensures forall u: WakerId :: u != w ==> Count(r, u) == Count(wakes, u)
  {
    wakes[w := Count(wakes, w) + 1]
  }

  /** At most one registered waker. */
  datatype Notifier = Notifier(slot: Option<WakerId>) {

    /** `Notifier::new()`: nobody is registered. */
    static function New(): (n: Notifier)
      ensures n.slot.None?
    {
      Notifier(None)
    }

    /** `Notifier::subscribe(waker)`: the last subscriber wins. */
    function Subscribe(w: WakerId): (r: Notifier)
      ensures r.slot == Some(w)
    {
      Notifier(Some(w))
    }

    /**
     `Notifier::notify()`: takes the registered waker and wakes it; with an empty
     slot nothing happens. Afterwards the slot is empty.
     */
    function Notify(wakes: WakeCounts): (r: (Notifier, WakeCounts))
      ensures r.0.slot.None?
      ensures forall u: WakerId :: Count(r.1, u) == Count(wakes, u) + (if slot == Some(u) then 1 else 0)
    {
      match slot
      case None => (this, wakes)
      case Some(w) => (Notifier(None), Wake(wakes, w))
    }
  }

  /**
   Only the most recent subscriber is woken: after `u` then `w` subscribe, a
   notify wakes `w` once and leaves `u` (if a different waker) untouched.
   */
  lemma LastSubscriberWins(n: Notifier, u: WakerId, w: WakerId, wakes: WakeCounts)
    requires u != w
    ensures Count(n.Subscribe(u).Subscribe(w).Notify(wakes).1, w) == Count(wakes, w) + 1
    ensures Count(n.Subscribe(u).Subscribe(w).Notify(wakes).1, u) == Count(wakes, u)
  {
  }

  /** A second notify, with no subscribe in between, wakes nobody. */
  lemma NotifyTwiceWakesOnce(n: Notifier, wakes: WakeCounts)
    ensures var (n1, w1) := n.Notify(wakes);
            n1.Notify(w1) == (n1, w1)
  {
  }
}
