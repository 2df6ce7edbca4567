/** A one-shot delayed work item (`struct delayed_work`) queued on the system
    unbound workqueue: at most one pending deadline, replaced in place when the
    item is re-queued. */
module DelayedWork {

  datatype Timer = Idle | Pending(deadline: int)

  /** What `mod_delayed_work` leaves behind and what it returns. */
  datatype Rearmed = Rearmed(timer: Timer, wasPending: bool)

  /** `mod_delayed_work(wq, dwork, delay)`: queue the work to run `delay` ticks
      from `now`, replacing any pending deadline; the result is `true` exactly
      when the work was already pending (so `false` means it was idle and has
      just been queued). */
  function Rearm(t: Timer, now: int, delay: nat): (r: Rearmed)
    ensures r.timer.Pending? && r.timer.deadline == now + delay
    ensures r.wasPending <==> t.Pending?
  {
    Rearmed(Pending(now + delay), t.Pending?)
  }

  /** The workqueue runs a pending item once its deadline has been reached. */
  predicate Due(t: Timer, now: int) {
    t.Pending? && t.deadline <= now
  }

  /** Rearming twice never leaves two timers: the second call sees the first
      one pending, and only the later deadline survives. */
  lemma RearmReplaces(t: Timer, now1: int, d1: nat, now2: int, d2: nat)
    ensures Rearm(Rearm(t, now1, d1).timer, now2, d2).wasPending
    ensures Rearm(Rearm(t, now1, d1).timer, now2, d2).timer == Rearm(t, now2, d2).timer
  {
  }
}
