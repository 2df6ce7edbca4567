# GPU input boost: a Dafny model of the boost state machine

This project models the boost coordinator of `drivers/gpu/msm/gpu_input_boost.c`.
It has one shared record, `boost_drv`, with these parts:

- a state word with three bits: `SCREEN_OFF`, `INPUT_BOOST` and `MAX_BOOST`;
- the max-boost expiry `max_boost_expires`;
- two delayed works, `input_unboost` and `max_unboost`, that clear their bits when they run.

Input events and `gpu_input_boost_kick` start a short input boost. `gpu_input_boost_kick_max` and a
framebuffer unblank start a max boost, whose expiry only ever moves later. `boost_adjust_notify`
reports the resulting level, with a max boost taking precedence over an input boost. The
`gpu_boostd` thread sleeps until the state word changes.

Each operation is one atomic step on an immutable record
`State(flags, expires, inputUnboost, maxUnboost, now)`. The step returns the new record and a
boolean `woke` that says whether it called `wake_up(&boost_waitq)`.

Modules:

- `Jiffies` (jiffies.dfy): the clock. Instants are unbounded tick counts. The kernel stores only
  their low 64 bits (`Wrap`) and compares them with the wraparound-safe `time_after`, modelled as
  "the signed 64-bit difference is negative". `TimeAfterWindow` proves that, within half the
  word's range, this comparison is the plain order of the instants.
- `DelayedWork` (delayed_work.dfy): a delayed work item, `Idle` or `Pending(deadline)`.
  `mod_delayed_work` becomes `Rearm`.
- `BoostState` (boost_state.dfy): the bits, the record, the module parameters, the static
  initialiser and `boost_adjust_notify` (`Level`).
- `BoostOps` (boost_ops.dfy): the input kick, the compare-and-swap step on the expiry, the max
  kick, the two unboost workers and the framebuffer notifier.
- `Monitor` (monitor.dfy): one evaluation of the wait condition of `gpu_boost_thread`.
- `BoostSystem` (boost_system.dfy): the driver as a transition system over events. It proves the
  reachable-state invariant, that no state change goes without a wakeup, that the expiry is the
  latest requested deadline, and the two timing scenarios.

`msecs_to_jiffies` is an uninterpreted function carried in `Config`. The compare-and-swap retry
loop is one atomic step. The workqueue runs an unboost worker only when that work is pending and
its deadline has passed (`Due`). The worker functions themselves are unconditional, as in the
code. The framebuffer constants `FB_EVENT_BLANK` (0x09) and `FB_BLANK_UNBLANK` (0) take the values
`linux/fb.h` gives them; that header is not part of this model.

The notifier's comment (line 181) speaks of unboosting when the screen turns off, but no code
path sets `SCREEN_OFF`: the notifier only clears the bit on unblank. The model follows the code, and `ScreenOffNeverSet` proves that no
reachable record has the bit set. The screen-off guards are still modelled and proved, for records
where the bit is set. The unblank path has no wakeup of its own, so the no-lost-wakeup property
(`ChangeWakes`) depends on the bit never being set: `UnblankUnderLongerBoostDoesNotWake` shows
the state change that would go unsignalled otherwise.

## Model

| member | source | states |
|---|---|---|
| Jiffies.TimeAfterWindow | drivers/gpu/msm/gpu_input_boost.c:107-109 | Two instants less than half the 64-bit range apart: `time_after` on their stored words holds exactly when the first is later |
| Jiffies.TimeAfterBothWaysAtHalf | drivers/gpu/msm/gpu_input_boost.c:108 | Two words exactly 2^63 apart are each `time_after` the other, so the comparison is not an order at that distance |
| DelayedWork.Rearm | drivers/gpu/msm/gpu_input_boost.c:82-84 | `mod_delayed_work` leaves exactly one pending deadline at `now + delay` and reports whether the work was already pending |
| BoostSystem.InitInv | drivers/gpu/msm/gpu_input_boost.c:42-48 | The static record, with no bit set, expiry 0 and both works idle, satisfies the invariant |
| BoostState.WordRoundTrip | drivers/gpu/msm/gpu_input_boost.c:23-27 | The bits read back from the state word are the flags written into it, so words are equal exactly when the flag sets are |
| BoostState.Level | drivers/gpu/msm/gpu_input_boost.c:54-71 | The level is the strength of the strongest set boost bit: 2 whenever `MAX_BOOST` is set, 1 when only `INPUT_BOOST` is set, 0 when neither is |
| BoostOps.InputKick | drivers/gpu/msm/gpu_input_boost.c:73-85 | No-op without wakeup when the screen is off or the duration is 0. Otherwise sets `INPUT_BOOST`, replaces the input deadline with `now + duration`, changes nothing else, and wakes iff the work was idle |
| BoostOps.ExtendExpiry | drivers/gpu/msm/gpu_input_boost.c:103-111 | The compare-and-swap step skips a candidate exactly when the current expiry is `time_after` it; otherwise, including on equality, the candidate is stored |
| BoostOps.ExtendKeepsLater | drivers/gpu/msm/gpu_input_boost.c:103-111 | Within half the word's range, the compare-and-swap step leaves the later of the current expiry and the candidate |
| BoostOps.MaxKick | drivers/gpu/msm/gpu_input_boost.c:94-117 | No-op when the screen is off or a later expiry is recorded. Otherwise the expiry becomes `now + duration`, `MAX_BOOST` is set, the max deadline equals the new expiry, the input side is untouched, and it wakes iff the work was idle. The expiry is never moved `time_after`-earlier |
| BoostOps.InputUnboost | drivers/gpu/msm/gpu_input_boost.c:126-133 | Clears only `INPUT_BOOST`, leaves its work idle, keeps the expiry and the max work, and always wakes |
| BoostOps.MaxUnboost | drivers/gpu/msm/gpu_input_boost.c:135-142 | Clears only `MAX_BOOST`, leaves its work idle, never resets the expiry, keeps the input work, and always wakes |
| BoostOps.FbNotify | drivers/gpu/msm/gpu_input_boost.c:171-188 | Only `FB_EVENT_BLANK` with `FB_BLANK_UNBLANK` acts. It clears `SCREEN_OFF` and then max-kicks with the wake duration, which the screen-off guard cannot drop. Either the expiry becomes the wake deadline with `MAX_BOOST` set, its work pending there and a wakeup iff that work was idle; or a later expiry is kept, only `SCREEN_OFF` is cleared and there is no wakeup. The input work and clock never change |
| BoostSystem.Deliver | drivers/gpu/msm/gpu_input_boost.c:87-124 | The public kicks and the input callback forward to the kick operations; an unboost worker runs only when its work is due, otherwise nothing happens; a tick only advances the clock |
| Monitor.Wake | drivers/gpu/msm/gpu_input_boost.c:154-166 | The wait condition records a changed word even when a stop is pending; it stops only when the word is unchanged and a stop is requested, and otherwise sleeps |
| Monitor.CatchesUp | drivers/gpu/msm/gpu_input_boost.c:158-165 | After any wakeup the recorded `old_state` equals the current word |
| Monitor.StopsAfterLastChange | drivers/gpu/msm/gpu_input_boost.c:158-163 | With a stop pending, the thread stops at the wakeup after it has recorded the last change |
| BoostSystem.DeliverInv | drivers/gpu/msm/gpu_input_boost.c:73-188 | Every event keeps the invariant: each boost bit is set exactly while its work is pending, the max work is due at the expiry, an idle max work means the expiry has passed, and `SCREEN_OFF` is clear |
| BoostSystem.RunInv | drivers/gpu/msm/gpu_input_boost.c:73-188 | The invariant holds after any sequence of events |
| BoostSystem.ScreenOffNeverSet | drivers/gpu/msm/gpu_input_boost.c:178-185 | No run from the initial record ever sets `SCREEN_OFF` |
| BoostSystem.ChangeWakes | drivers/gpu/msm/gpu_input_boost.c:81-84 | From a reachable record, an event wakes the monitor if and only if it changes the state word |
| BoostSystem.UnblankUnderLongerBoostDoesNotWake | drivers/gpu/msm/gpu_input_boost.c:182-185 | If `SCREEN_OFF` were set, an unblank under a later recorded expiry would change the word without any wakeup |
| BoostSystem.MonitorKeepsUp | drivers/gpu/msm/gpu_input_boost.c:154-166 | A monitor holding the current word before an event holds the new word after it: no state value is left unobserved |
| BoostSystem.DroppedOnlyUnderLongerBoost | drivers/gpu/msm/gpu_input_boost.c:107-109 | From a reachable record, within the window, a max kick is dropped only while a strictly later max boost is in effect with its work pending at the expiry |
| BoostSystem.ExpiryIsLatestRequest | drivers/gpu/msm/gpu_input_boost.c:103-111 | Over any run whose requested deadlines lie within half the word's range, the final expiry is the latest of the initial expiry and every deadline a max kick or unblank requested |
| BoostSystem.KicksIgnoredWhileScreenOff | drivers/gpu/msm/gpu_input_boost.c:73-101 | While `SCREEN_OFF` is set, any stream of input and max kicks leaves the record unchanged |
| BoostSystem.UnboostIdempotent | drivers/gpu/msm/gpu_input_boost.c:126-142 | Running an unboost worker twice equals running it once; running it with its bit clear and work idle changes nothing |
| BoostSystem.InputKickRestarts | drivers/gpu/msm/gpu_input_boost.c:81-84 | A second input kick restarts the single pending work at the full duration from the second kick, without a wakeup |
| BoostSystem.InputBoostScenarioHolds | drivers/gpu/msm/gpu_input_boost.c:73-85 | With a 100-tick input boost kicked at tick 0, the level is 1 at every tick before 100 |
| BoostSystem.InputBoostScenarioEnds | drivers/gpu/msm/gpu_input_boost.c:126-133 | In the same setting, once tick 100 is reached and the worker runs, the level is 0 |
| BoostSystem.MaxBoostScenario | drivers/gpu/msm/gpu_input_boost.c:103-111 | Max kicks of 50 at tick 0 and 30 at tick 10 leave the expiry at 50 |

## Left out

- Input-handler plumbing (`gpu_input_boost_input_event`, `connect`, `disconnect`, the device id table): this is kernel registration and allocation. An input event becomes the `KickInput` event, which is what `gpu_input_boost_input_event` forwards to.
- `gpu_input_boost_init` and its error unwinding: these are foreign registration calls with side effects.
- The thread's `SCHED_FIFO` priority, the blocking in `wait_event` and `kthread_should_stop`: these are scheduler concerns. Only the wait condition is modelled, and the stop request is a parameter.
- Concurrent interleavings: every operation, including the compare-and-swap retry loop, is one atomic step.
- Separate `jiffies` reads: the kernel reads `jiffies` separately for the candidate expiry and for `mod_delayed_work`. In the model both use the same `now`, so the max work's deadline equals the expiry.
- `msecs_to_jiffies`: its internals are not part of this model. It is an uninterpreted function of the configuration.
- The notifier's `NOTIFY_OK` return value: it is constant, so it is not modelled.
- `input_boost_level`: it is declared but never read by the modelled code.
- The `module_param` type `short` for the `unsigned short` durations: runtime writes through sysfs are not modelled. The durations are modelled as `unsigned short` values.
- `drivers/android/simple_lmk.c`: its threads are empty loops and its callback only returns, so it has no behaviour to model.
- The declarations and empty stubs in `include/linux/gpu_input_boost.h` and `drivers/gpu/msm/gpu_input.h`: these are not modelled. The durations are fields of `Config`.
- MaxKick: "the expiry never moves earlier" is stated in the kernel's own `time_after` sense. It holds as integer order only within half the 64-bit range, as `ExtendKeepsLater` and `ExpiryIsLatestRequest` state. This is because `time_after` itself is not an order across a larger distance.
