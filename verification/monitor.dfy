/** `gpu_boost_thread`: the monitor loop that sleeps on `boost_waitq` until
    the state word differs from the last value it recorded, or until it is
    asked to stop. Scheduling class and blocking are not modelled; each call
    below is one evaluation of the `wait_event` condition after a wakeup. */
module Monitor {

  /** What one evaluation of the wait condition leads to. */
  datatype Wakeup = Observed(word: nat) | Stopped | Sleeps

  /** The wait condition, evaluated left to right: first the current word is
      compared with the recorded one, and the stop request is only consulted
      when the word is unchanged, so a changed word is recorded even if a stop is
      pending, and the thread stops only once it has caught up. */
  function Wake(last: nat, curr: nat, stopRequested: bool): (r: Wakeup)
    ensures r.Observed? <==> curr != last
    ensures r.Observed? ==> r.word == curr
    ensures r.Stopped? <==> curr == last && stopRequested
  {
    if curr != last then Observed(curr)
    else if stopRequested then Stopped
    else Sleeps
  }

  /** `old_state` after a wakeup has been handled. */
  function Recorded(last: nat, w: Wakeup): nat {
    match w
    case Observed(v) => v
    case Stopped => last
    case Sleeps => last
  }

  /** Every wakeup leaves the recorded word equal to the current one, whether
      the thread went on, went back to sleep or stopped. */
  lemma CatchesUp(last: nat, curr: nat, stopRequested: bool)
    ensures Recorded(last, Wake(last, curr, stopRequested)) == curr
  {
  }

  /** A stop request pending together with a change is honoured at the next
      wakeup, after the change has been recorded. */
  lemma StopsAfterLastChange(last: nat, curr: nat)
    ensures Wake(Recorded(last, Wake(last, curr, true)), curr, true) == Stopped
  {
  }
}
