/** The driver's single shared record `struct boost_drv`: the state bit word,
    the max-boost expiry and the two unboost work items, together with the
    clock they are read against. */
module BoostState {
  import opened DelayedWork

  /** Bit numbers of `boost_drv.state`, in declaration order (0, 1, 2). */
  datatype Bit = ScreenOff | InputBoost | MaxBoost

  /** `input_boost_duration` and `wake_boost_duration` are `unsigned short`. */
  type U16 = x: nat | x < 0x1_0000

  /** `duration_ms` of the max kick is `unsigned int`. */
  type U32 = x: nat | x < 0x1_0000_0000

  /** Module parameters; `msecsToJiffies` stands for the kernel's conversion. */
  datatype Config = Config(inputBoostMs: U16, wakeBoostMs: U16, msecsToJiffies: U32 -> nat)

  /** `flags` are the set bits of `state`, `expires` is `max_boost_expires`,
      `inputUnboost`/`maxUnboost` are the two delayed works, `now` is `jiffies`. */
  datatype State = State(flags: set<Bit>, expires: int, inputUnboost: Timer, maxUnboost: Timer, now: int)

  /** The static initialiser: no bit set, expiry 0, both works idle. */
  function Init(boot: nat): (s: State)
    ensures s.flags == {} && s.inputUnboost.Idle? && s.maxUnboost.Idle?
    ensures s.expires == 0 && s.now == boot
  {
    State({}, 0, Idle, Idle, boot)
  }

  /** The value of bit `b` in the word. */
  function Mask(b: Bit): nat {
    match b
    case ScreenOff => 1
    case InputBoost => 2
    case MaxBoost => 4
  }

  function BitValue(flags: set<Bit>, b: Bit): nat {
    if b in flags then Mask(b) else 0
  }

  /** The `unsigned long` word `boost_drv.state` that holds `flags`. */
  function StateWord(flags: set<Bit>): (w: nat)
    ensures w < 8
  {
    BitValue(flags, ScreenOff) + BitValue(flags, InputBoost) + BitValue(flags, MaxBoost)
  }

  /** The bits set in a word (`test_bit` on each bit number). */
  function Bits(w: nat): (flags: set<Bit>)
    requires w < 8
  {
    (if w % 2 == 1 then {ScreenOff} else {})
    + (if (w / 2) % 2 == 1 then {InputBoost} else {})
    + (if (w / 4) % 2 == 1 then {MaxBoost} else {})
  }

  /** Reading the bits back out of the word gives the flags that went in, so
      two flag sets are equal exactly when their words are (which is what the
      monitor thread compares). */
  lemma WordRoundTrip(flags: set<Bit>)
    ensures Bits(StateWord(flags)) == flags
  {
    forall b: Bit
      ensures b in Bits(StateWord(flags)) <==> b in flags
    {
      match b
      case ScreenOff =>
      case InputBoost =>
      case MaxBoost =>
    }
  }

  lemma WordInjective(f: set<Bit>, g: set<Bit>)
    ensures StateWord(f) == StateWord(g) <==> f == g
  {
    WordRoundTrip(f);
    WordRoundTrip(g);
  }

  /** Relative strength of each bit as a boost request. */
  function Strength(b: Bit): nat {
    match b
    case ScreenOff => 0
    case InputBoost => 1
    case MaxBoost => 2
  }

  /** `boost_adjust_notify`: the boost level the frequency logic should apply.
      It is the strength of the strongest boost bit that is set (0 if none), so
      a max boost wins over an input boost. */
  function Level(s: State): (r: nat)
    ensures forall b :: b in s.flags ==> Strength(b) <= r
    ensures r != 0 ==> exists b :: b in s.flags && Strength(b) == r
    ensures r == 2 <==> MaxBoost in s.flags
    ensures r == 1 <==> InputBoost in s.flags && MaxBoost !in s.flags
    ensures r == 0 <==> InputBoost !in s.flags && MaxBoost !in s.flags
  {
    if MaxBoost in s.flags then 2
    else if InputBoost in s.flags then 1
    else 0
  }
}
