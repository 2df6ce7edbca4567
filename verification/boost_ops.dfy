/** The driver's operations on `boost_drv`, each one atomic step returning the
    new record and whether it called `wake_up(&boost_waitq)`. */
module BoostOps {
  import opened Jiffies
  import opened DelayedWork
  import opened BoostState

  datatype Outcome = Outcome(state: State, woke: bool)

  /** `FB_EVENT_BLANK` and `FB_BLANK_UNBLANK`, with the values `linux/fb.h`
      gives them. */
  const FbEventBlank: nat := 0x09
  const FbBlankUnblank: int := 0

  /** `__gpu_input_boost_kick`: ignored while the screen is off or when the input
      boost is disabled (duration 0); otherwise sets `InputBoost` and restarts
      the input-unboost work for the full duration, waking the monitor only
      when that work was idle. */
  function InputKick(cfg: Config, s: State): (r: Outcome)
    ensures ScreenOff in s.flags || cfg.inputBoostMs == 0 ==> r == Outcome(s, false)
    ensures ScreenOff !in s.flags && cfg.inputBoostMs != 0 ==>
      && r.state.flags == s.flags + {InputBoost}
      && r.state.inputUnboost == Pending(s.now + cfg.msecsToJiffies(cfg.inputBoostMs))
      && r.state.expires == s.expires
      && r.state.maxUnboost == s.maxUnboost
      && r.state.now == s.now
      && (r.woke <==> s.inputUnboost.Idle?)
  {
    if ScreenOff in s.flags then Outcome(s, false)
    else if cfg.inputBoostMs == 0 then Outcome(s, false)
    else
      var rearmed := Rearm(s.inputUnboost, s.now, cfg.msecsToJiffies(cfg.inputBoostMs));
      Outcome(s.(flags := s.flags + {InputBoost}, inputUnboost := rearmed.timer), !rearmed.wasPending)
  }

  /** The outcome of the compare-and-swap on `max_boost_expires`. */
  datatype Extension = Skip | Extend(expires: int)

  /** One linearised pass of the `atomic_long_cmpxchg` loop: a candidate
      deadline is skipped when the current expiry is `time_after` it, and
      otherwise replaces it (also when the two are equal). */
  function ExtendExpiry(curr: int, cand: int): (r: Extension)
    ensures r.Skip? <==> TimeAfter(Wrap(curr), Wrap(cand))
    ensures r.Extend? ==> r.expires == cand
  {
    if TimeAfter(Wrap(curr), Wrap(cand)) then Skip else Extend(cand)
  }

  /** The expiry left by one pass of the loop. */
  function ExpiryAfter(curr: int, cand: int): int {
    match ExtendExpiry(curr, cand)
    case Skip => curr
    case Extend(e) => e
  }

  /** Within half the word's range, one pass of the loop keeps the later of
      the current expiry and the candidate. */
  lemma ExtendKeepsLater(curr: int, cand: int)
    requires -Half < curr - cand < Half
    ensures ExpiryAfter(curr, cand) == if curr > cand then curr else cand
  {
    TimeAfterWindow(curr, cand);
  }

  /** `__gpu_input_boost_kick_max`: ignored while the screen is off; a request
      whose deadline `now + duration` is before the current expiry is dropped
      whole; otherwise the expiry becomes that deadline, `MaxBoost` is set and
      the max-unboost work is restarted to fire at the same deadline, waking the
      monitor only when that work was idle. The expiry never moves backwards. */
  function MaxKick(cfg: Config, s: State, durationMs: U32): (r: Outcome)
    ensures ScreenOff in s.flags ==> r == Outcome(s, false)
    ensures !TimeAfter(Wrap(s.expires), Wrap(r.state.expires))
    ensures TimeAfter(Wrap(s.expires), Wrap(s.now + cfg.msecsToJiffies(durationMs))) ==> r == Outcome(s, false)
    ensures ScreenOff !in s.flags && !TimeAfter(Wrap(s.expires), Wrap(s.now + cfg.msecsToJiffies(durationMs))) ==>
      && r.state.expires == s.now + cfg.msecsToJiffies(durationMs)
      && r.state.flags == s.flags + {MaxBoost}
      && r.state.maxUnboost == Pending(r.state.expires)
      && r.state.inputUnboost == s.inputUnboost
      && r.state.now == s.now
      && (r.woke <==> s.maxUnboost.Idle?)
  {
    if ScreenOff in s.flags then Outcome(s, false)
    else
      var boost := cfg.msecsToJiffies(durationMs);
      match ExtendExpiry(s.expires, s.now + boost)
      case Skip => Outcome(s, false)
      case Extend(e) =>
        TimeAfterIrreflexive(Wrap(e));
        var rearmed := Rearm(s.maxUnboost, s.now, boost);
        Outcome(s.(expires := e, flags := s.flags + {MaxBoost}, maxUnboost := rearmed.timer), !rearmed.wasPending)
  }

  /** `input_unboost_worker`: clears `InputBoost`, the work is no longer
      pending, and the monitor is always woken. Nothing else changes; in
      particular the max-boost expiry is never reset. */
  function InputUnboost(s: State): (r: Outcome)
    ensures r.state.flags == s.flags - {InputBoost}
    ensures r.state.inputUnboost.Idle?
    ensures r.state.maxUnboost == s.maxUnboost && r.state.expires == s.expires && r.state.now == s.now
    ensures r.woke
  {
    Outcome(s.(flags := s.flags - {InputBoost}, inputUnboost := Idle), true)
  }

  /** `max_unboost_worker`: clears `MaxBoost`, the work is no longer pending,
      and the monitor is always woken; the expiry is left as it was. */
  function MaxUnboost(s: State): (r: Outcome)
    ensures r.state.flags == s.flags - {MaxBoost}
    ensures r.state.maxUnboost.Idle?
    ensures r.state.inputUnboost == s.inputUnboost && r.state.expires == s.expires && r.state.now == s.now
    ensures r.woke
  {
    Outcome(s.(flags := s.flags - {MaxBoost}, maxUnboost := Idle), true)
  }

  /** `fb_notifier_cb`: only an `FB_EVENT_BLANK` carrying `FB_BLANK_UNBLANK`
      does anything. It clears `ScreenOff` first and then issues a max kick for
      `wake_boost_duration`, so that kick is never dropped by the screen-off
      guard: afterwards either the expiry is exactly `now + wake duration` with
      `MaxBoost` set and its work pending there, waking the monitor only when
      that work was idle, or an expiry `time_after` that deadline was already
      recorded and the only change is the cleared `ScreenOff`, with no wakeup.
      The input side and the clock are never touched. */
  function FbNotify(cfg: Config, s: State, action: nat, blank: int): (r: Outcome)
    ensures action != FbEventBlank || blank != FbBlankUnblank ==> r == Outcome(s, false)
    ensures action == FbEventBlank && blank == FbBlankUnblank ==>
      && ScreenOff !in r.state.flags
      && r.state.flags - {MaxBoost} == s.flags - {ScreenOff, MaxBoost}
      && r.state.inputUnboost == s.inputUnboost
      && r.state.now == s.now
      && !TimeAfter(Wrap(s.expires), Wrap(r.state.expires))
      && (|| (&& r.state.expires == s.now + cfg.msecsToJiffies(cfg.wakeBoostMs)
              && MaxBoost in r.state.flags
              && r.state.maxUnboost == Pending(r.state.expires)
              && (r.woke <==> s.maxUnboost.Idle?))
          || (&& r == Outcome(s.(flags := s.flags - {ScreenOff}), false)
              && TimeAfter(Wrap(s.expires), Wrap(s.now + cfg.msecsToJiffies(cfg.wakeBoostMs)))))
  {
    if action != FbEventBlank then Outcome(s, false)
    else if blank == FbBlankUnblank then
      MaxKick(cfg, s.(flags := s.flags - {ScreenOff}), cfg.wakeBoostMs)
    else Outcome(s, false)
  }
}
