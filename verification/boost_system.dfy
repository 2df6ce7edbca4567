/** The driver as a transition system: every entry point, every unboost work
    item the workqueue runs and every clock tick is one atomic event on the
    shared record. The lemmas here relate whole runs from the static
    initialiser: the invariant every reachable record keeps, no lost wakeup of
    the monitor thread, and the expiry as the latest requested deadline. */
module BoostSystem {
  import opened Jiffies
  import opened DelayedWork
  import opened BoostState
  import opened BoostOps
  import Monitor

  datatype Event =
    | KickInput                          // an input event, or `gpu_input_boost_kick`
    | KickMax(durationMs: U32)           // `gpu_input_boost_kick_max`
    | InputWorkRuns                      // the workqueue runs `input_unboost`
    | MaxWorkRuns                        // the workqueue runs `max_unboost`
    | FbEvent(action: nat, blank: int)   // the framebuffer notifier chain
    | Tick(ticks: nat)                   // `jiffies` advances

  /** One event. The entry points `gpu_input_boost_kick`,
      `gpu_input_boost_kick_max` and the input-event callback forward to the
      kicks unchanged. The workqueue runs an unboost handler only for work
      that is pending and whose deadline has been reached; otherwise running it
      is nothing. A tick only advances the clock. */
  function Deliver(cfg: Config, s: State, e: Event): (r: Outcome)
    ensures e.KickInput? ==> r == InputKick(cfg, s)
    ensures e.KickMax? ==> r == MaxKick(cfg, s, e.durationMs)
    ensures e.FbEvent? ==> r == FbNotify(cfg, s, e.action, e.blank)
    ensures e.InputWorkRuns? ==> r == if Due(s.inputUnboost, s.now) then InputUnboost(s) else Outcome(s, false)
    ensures e.MaxWorkRuns? ==> r == if Due(s.maxUnboost, s.now) then MaxUnboost(s) else Outcome(s, false)
    ensures e.Tick? ==> r.state == s.(now := s.now + e.ticks) && !r.woke
  {
    match e
    case KickInput => InputKick(cfg, s)
    case KickMax(ms) => MaxKick(cfg, s, ms)
    case InputWorkRuns => if Due(s.inputUnboost, s.now) then InputUnboost(s) else Outcome(s, false)
    case MaxWorkRuns => if Due(s.maxUnboost, s.now) then MaxUnboost(s) else Outcome(s, false)
    case FbEvent(action, blank) => FbNotify(cfg, s, action, blank)
    case Tick(k) => Outcome(s.(now := s.now + k), false)
  }

  function Run(cfg: Config, s: State, es: seq<Event>): State
    decreases |es|
  {
    if es == [] then s else Run(cfg, Deliver(cfg, s, es[0]).state, es[1..])
  }

  /** What every reachable record satisfies: each boost bit is set exactly
      while its unboost work is pending, the max-unboost work is due at the
      recorded expiry, an idle max-unboost work means that expiry has passed,
      and the screen-off bit is never set. */
  predicate Inv(s: State) {
    && (InputBoost in s.flags <==> s.inputUnboost.Pending?)
    && (MaxBoost in s.flags <==> s.maxUnboost.Pending?)
    && (s.maxUnboost.Pending? ==> s.maxUnboost.deadline == s.expires)
    && (s.maxUnboost.Idle? ==> s.expires <= s.now)
    && ScreenOff !in s.flags
  }

  lemma InitInv(boot: nat)
    ensures Inv(Init(boot))
  {
  }

  lemma DeliverInv(cfg: Config, s: State, e: Event)
    requires Inv(s)
    ensures Inv(Deliver(cfg, s, e).state)
  {
  }

  lemma {:induction false} RunInv(cfg: Config, s: State, es: seq<Event>)
    requires Inv(s)
    ensures Inv(Run(cfg, s, es))
    decreases |es|
  {
    if es != [] {
      DeliverInv(cfg, s, es[0]);
      RunInv(cfg, Deliver(cfg, s, es[0]).state, es[1..]);
    }
  }

  /** Nothing the driver does from its initial record ever sets `ScreenOff`,
      so no reachable state suppresses a kick for the screen being off. */
  lemma ScreenOffNeverSet(cfg: Config, boot: nat, es: seq<Event>)
    ensures ScreenOff !in Run(cfg, Init(boot), es).flags
  {
    RunInv(cfg, Init(boot), es);
  }

  /** Wakeups match state changes exactly: from a reachable record, an event
      calls `wake_up` if and only if it changes the state word. A kick that
      finds its work already pending does not wake, but then its bit was
      already set; a kick that wakes found its work idle, so its bit was clear;
      a worker runs only for pending work, so its bit was set. */
  lemma ChangeWakes(cfg: Config, s: State, e: Event)
    requires Inv(s)
    ensures Deliver(cfg, s, e).state.flags != s.flags ==> Deliver(cfg, s, e).woke
    ensures Deliver(cfg, s, e).woke ==> Deliver(cfg, s, e).state.flags != s.flags
  {
    match e
    case KickInput =>
    case KickMax(ms) =>
    case InputWorkRuns =>
    case MaxWorkRuns =>
    case FbEvent(action, blank) =>
      if action == FbEventBlank && blank == FbBlankUnblank {
        assert s.flags - {ScreenOff} == s.flags;
      }
    case Tick(k) =>
  }

  /** The unblank path has no `wake_up` of its own. Were `ScreenOff` ever set,
      an unblank that finds a later max boost recorded would clear the bit,
      changing the state word, with no wakeup; `ChangeWakes` holds only
      because no reachable record has the bit set. */
  lemma UnblankUnderLongerBoostDoesNotWake(cfg: Config, s: State)
    requires ScreenOff in s.flags
    requires TimeAfter(Wrap(s.expires), Wrap(s.now + cfg.msecsToJiffies(cfg.wakeBoostMs)))
    ensures FbNotify(cfg, s, FbEventBlank, FbBlankUnblank).state.flags != s.flags
    ensures !FbNotify(cfg, s, FbEventBlank, FbBlankUnblank).woke
  {
  }

  /** The word the monitor thread holds after the event, having handled the
      wakeup if there was one. */
  function MonitorAfter(last: nat, o: Outcome, stopRequested: bool): nat {
    if o.woke then Monitor.Recorded(last, Monitor.Wake(last, StateWord(o.state.flags), stopRequested))
    else last
  }

  /** A monitor that is up to date before an event is up to date after it:
      no state word is left unobserved. */
  lemma MonitorKeepsUp(cfg: Config, s: State, e: Event, stopRequested: bool)
    requires Inv(s)
    ensures MonitorAfter(StateWord(s.flags), Deliver(cfg, s, e), stopRequested) == StateWord(Deliver(cfg, s, e).state.flags)
  {
    var o := Deliver(cfg, s, e);
    ChangeWakes(cfg, s, e);
    Monitor.CatchesUp(StateWord(s.flags), StateWord(o.state.flags), stopRequested);
    WordInjective(s.flags, o.state.flags);
  }

  /** A max kick from a reachable record is dropped only while a strictly
      longer max boost is really in effect (bit set, work pending at the
      recorded expiry), provided the recorded expiry and the new deadline are
      less than half the word's range apart. */
  lemma DroppedOnlyUnderLongerBoost(cfg: Config, s: State, ms: U32)
    requires Inv(s)
    requires -Half < s.expires - (s.now + cfg.msecsToJiffies(ms)) < Half
    ensures ExtendExpiry(s.expires, s.now + cfg.msecsToJiffies(ms)).Skip? ==>
      && s.expires > s.now + cfg.msecsToJiffies(ms)
      && MaxBoost in s.flags
      && s.maxUnboost == Pending(s.expires)
  {
    TimeAfterWindow(s.expires, s.now + cfg.msecsToJiffies(ms));
  }

  /** The deadline an event asks the expiry arbiter for, if it reaches it. */
  function Requested(cfg: Config, s: State, e: Event): seq<int> {
    match e
    case KickMax(ms) => if ScreenOff in s.flags then [] else [s.now + cfg.msecsToJiffies(ms)]
    case FbEvent(action, blank) =>
      if action == FbEventBlank && blank == FbBlankUnblank then [s.now + cfg.msecsToJiffies(cfg.wakeBoostMs)] else []
    case _ => []
  }

  /** Every deadline requested along a run, in order. */
  function RequestedAll(cfg: Config, s: State, es: seq<Event>): seq<int>
    decreases |es|
  {
    if es == [] then [] else Requested(cfg, s, es[0]) + RequestedAll(cfg, Deliver(cfg, s, es[0]).state, es[1..])
  }

  function Latest(e: int, ds: seq<int>): int
    decreases |ds|
  {
    if ds == [] then e else Latest(if e > ds[0] then e else ds[0], ds[1..])
  }

  predicate InWindow(lo: int, x: int) {
    lo <= x < lo + Half
  }

  /** The expiry left by one event: that of the arbiter when the event requests
      a deadline, and the previous expiry otherwise. */
  lemma DeliverExpiry(cfg: Config, s: State, e: Event)
    ensures |Requested(cfg, s, e)| <= 1
    ensures Requested(cfg, s, e) == [] ==> Deliver(cfg, s, e).state.expires == s.expires
    ensures |Requested(cfg, s, e)| == 1 ==> Deliver(cfg, s, e).state.expires == ExpiryAfter(s.expires, Requested(cfg, s, e)[0])
  {
    match e
    case KickInput =>
    case KickMax(ms) =>
    case InputWorkRuns =>
    case MaxWorkRuns =>
    case FbEvent(action, blank) =>
    case Tick(k) =>
  }

  /** One event moves the expiry to the latest of it and what the event
      requested, inside the window. */
  lemma DeliverLatest(cfg: Config, s: State, e: Event, lo: int)
    requires InWindow(lo, s.expires)
    requires forall i :: 0 <= i < |Requested(cfg, s, e)| ==> InWindow(lo, Requested(cfg, s, e)[i])
    ensures Deliver(cfg, s, e).state.expires == Latest(s.expires, Requested(cfg, s, e))
    ensures InWindow(lo, Deliver(cfg, s, e).state.expires)
  {
    DeliverExpiry(cfg, s, e);
    var here := Requested(cfg, s, e);
    if |here| == 1 {
      assert InWindow(lo, here[0]);
      ExtendKeepsLater(s.expires, here[0]);
      assert Latest(s.expires, here) == Latest(if s.expires > here[0] then s.expires else here[0], []);
    }
  }

  lemma {:induction false} LatestAppend(e: int, xs: seq<int>, ys: seq<int>)
    ensures Latest(e, xs + ys) == Latest(Latest(e, xs), ys)
    decreases |xs|
  {
    if xs != [] {
      assert (xs + ys)[0] == xs[0];
      assert (xs + ys)[1..] == xs[1..] + ys;
      LatestAppend(if e > xs[0] then e else xs[0], xs[1..], ys);
    } else {
      assert xs + ys == ys;
    }
  }

  /** Monotone max-boost deadline over a whole run: as long as the starting
      expiry and every requested deadline lie within half the word's range of
      each other, the expiry at the end is the latest of them. Dropped
      requests, unboosts, input kicks and ticks never lower it. */
  lemma {:induction false} ExpiryIsLatestRequest(cfg: Config, s: State, es: seq<Event>, lo: int)
    requires InWindow(lo, s.expires)
    requires forall i :: 0 <= i < |RequestedAll(cfg, s, es)| ==> InWindow(lo, RequestedAll(cfg, s, es)[i])
    ensures Run(cfg, s, es).expires == Latest(s.expires, RequestedAll(cfg, s, es))
    decreases |es|
  {
    if es != [] {
      var s' := Deliver(cfg, s, es[0]).state;
      var here := Requested(cfg, s, es[0]);
      var rest := RequestedAll(cfg, s', es[1..]);
      var all := RequestedAll(cfg, s, es);
      assert all == here + rest;
      assert Run(cfg, s, es) == Run(cfg, s', es[1..]);
      forall i | 0 <= i < |here|
        ensures InWindow(lo, here[i])
      {
        assert here[i] == all[i];
      }
      forall i | 0 <= i < |rest|
        ensures InWindow(lo, rest[i])
      {
        assert rest[i] == all[|here| + i];
      }
      DeliverLatest(cfg, s, es[0], lo);
      ExpiryIsLatestRequest(cfg, s', es[1..], lo);
      LatestAppend(s.expires, here, rest);
    }
  }

  /** While the screen is off, a stream of kicks leaves the record unchanged. */
  lemma {:induction false} KicksIgnoredWhileScreenOff(cfg: Config, s: State, es: seq<Event>)
    requires ScreenOff in s.flags
    requires forall i :: 0 <= i < |es| ==> es[i].KickInput? || es[i].KickMax?
    ensures Run(cfg, s, es) == s
    decreases |es|
  {
    if es != [] {
      assert Deliver(cfg, s, es[0]) == Outcome(s, false);
      KicksIgnoredWhileScreenOff(cfg, s, es[1..]);
    }
  }

  /** An unboost handler that runs again changes nothing more, and one that
      runs with its bit clear and its work idle leaves the record as it was. */
  lemma UnboostIdempotent(s: State)
    ensures InputUnboost(InputUnboost(s).state).state == InputUnboost(s).state
    ensures MaxUnboost(MaxUnboost(s).state).state == MaxUnboost(s).state
    ensures InputBoost !in s.flags && s.inputUnboost.Idle? ==> InputUnboost(s).state == s
    ensures MaxBoost !in s.flags && s.maxUnboost.Idle? ==> MaxUnboost(s).state == s
  {
  }

  /** A second input kick `k` ticks after the first restarts the one pending
      input-unboost work at the full duration from the second kick, without a
      wakeup; the boost is not extended by the sum of the two. */
  lemma InputKickRestarts(cfg: Config, s: State, k: nat)
    requires ScreenOff !in s.flags && cfg.inputBoostMs != 0
    ensures
      var o := Deliver(cfg, Run(cfg, s, [KickInput, Tick(k)]), KickInput);
      && o.state.inputUnboost == Pending(s.now + k + cfg.msecsToJiffies(cfg.inputBoostMs))
      && !o.woke
      && Level(o.state) >= 1
  {
    var s1 := InputKick(cfg, s).state;
    var s2 := s1.(now := s1.now + k);
    assert Run(cfg, s, [KickInput, Tick(k)]) == s2 by {
      assert Run(cfg, s1, [Tick(k)]) == Run(cfg, s2, []);
    }
  }

  /** The input boost of 100 ms (one tick per ms) set at tick 0 is still in
      effect at every tick before 100: its work is not yet due. */
  lemma InputBoostScenarioHolds(k: nat)
    requires k < 100
    ensures Level(Run(Config(100, 0, ms => ms), Init(0), [KickInput, Tick(k), InputWorkRuns])) == 1
  {
    var cfg := Config(100, 0, ms => ms);
    var s1 := InputKick(cfg, Init(0)).state;
    var s2 := s1.(now := k);
    assert s1.inputUnboost == Pending(100);
    assert Run(cfg, Init(0), [KickInput, Tick(k), InputWorkRuns]) == Run(cfg, s2, [InputWorkRuns]);
  }

  /** ... and at tick 100 the work is due and the level drops to 0. */
  lemma InputBoostScenarioEnds(k: nat)
    requires k >= 100
    ensures Level(Run(Config(100, 0, ms => ms), Init(0), [KickInput, Tick(k), InputWorkRuns])) == 0
  {
    var cfg := Config(100, 0, ms => ms);
    var s1 := InputKick(cfg, Init(0)).state;
    var s2 := s1.(now := k);
    assert s1.inputUnboost == Pending(100);
    assert Run(cfg, Init(0), [KickInput, Tick(k), InputWorkRuns]) == Run(cfg, s2, [InputWorkRuns]);
  }

  /** A max kick of 50 at tick 0 followed by one of 30 at tick 10 leaves the
      expiry at 50: the second deadline, 40, is earlier and is dropped. */
  lemma MaxBoostScenario()
    ensures Run(Config(0, 0, ms => ms), Init(0), [KickMax(50), Tick(10), KickMax(30)]).expires == 50
  {
    var cfg := Config(0, 0, ms => ms);
    var s1 := MaxKick(cfg, Init(0), 50).state;
    assert s1.expires == 50 by {
      assert !TimeAfter(Wrap(0), Wrap(50));
    }
    var s2 := s1.(now := 10);
    assert TimeAfter(Wrap(50), Wrap(40));
    assert Run(cfg, Init(0), [KickMax(50), Tick(10), KickMax(30)]) == Run(cfg, s2, [KickMax(30)]);
  }
}
