/** The countdown shown in the quiz header: a per-second tick that stops at zero and
    calls `onEnd`, and the `MM:SS` formatter. */
module Timer {
  import opened Common

  /** The displayed seconds and whether the one-second interval is still armed. */
  datatype Clock = Clock(time: int, running: bool)

  /** A freshly mounted timer: `initialTime` when given, 1800 otherwise, and armed. */
  function Mount(initialTime: Option<int>): (c: Clock)
    ensures c.running
    ensures initialTime.Some? ==> c.time == initialTime.value
    ensures initialTime.None? ==> c.time == QuizSeconds
  {
    Clock(initialTime.GetOr(QuizSeconds), true)
  }

  /** The clock after one tick and whether that tick called `onEnd`. */
  datatype Tick = Tick(clock: Clock, fired: bool)

  /** One interval callback: above one second it counts down; at one second or less it
      shows zero, disarms itself and calls `onEnd`. A disarmed timer does not tick. */
  function TickOnce(c: Clock): (r: Tick)
    ensures !c.running ==> r == Tick(c, false)
    ensures c.running && c.time > 1 ==> r == Tick(Clock(c.time - 1, true), false)
    ensures c.running && c.time <= 1 ==> r == Tick(Clock(0, false), true)
  {
    if !c.running then Tick(c, false)
    else if c.time <= 1 then Tick(Clock(0, false), true)
    else Tick(Clock(c.time - 1, true), false)
  }

  /** The clock after `n` ticks and how many times `onEnd` was called. */
  function Run(c: Clock, n: nat): (Clock, nat)
    decreases n
  {
    if n == 0 then (c, 0)
    else
      var t := TickOnce(c);
      var (c', k) := Run(t.clock, n - 1);
      (c', k + if t.fired then 1 else 0)
  }

  /** The number of ticks until `onEnd` fires from `t` seconds: `max(t, 1)`. */
  function TicksToEnd(t: int): (r: nat) {
    if t < 1 then 1 else t
  }

  lemma {:induction false} StoppedStays(c: Clock, n: nat)
    requires !c.running
    ensures Run(c, n) == (c, 0)
  {
    if n > 0 {
      StoppedStays(c, n - 1);
    }
  }

  /** From a freshly armed clock showing `t`, the clock counts down one per tick and
      calls `onEnd` exactly once, on tick `max(t, 1)`, after which it shows zero and
      stays disarmed. Once a tick has happened, or when `t` is not negative, the
      displayed time is never negative. */
  lemma {:induction false} CountdownFiresOnce(t: int, n: nat)
    ensures
      var (c, k) := Run(Clock(t, true), n);
      && (n < TicksToEnd(t) ==> c == Clock(t - n, true) && k == 0)
      && (n >= TicksToEnd(t) ==> c == Clock(0, false) && k == 1)
      && (t >= 0 || n > 0 ==> c.time >= 0)
  {
    if n > 0 {
      if t <= 1 {
        StoppedStays(Clock(0, false), n - 1);
      } else {
        CountdownFiresOnce(t - 1, n - 1);
      }
    }
  }

  /** A new `initialTime` prop resets the displayed time; whether the interval is
      armed does not change. */
  function Retarget(c: Clock, initialTime: int): (r: Clock)
    ensures r.time == initialTime && r.running == c.running
  {
    c.(time := initialTime)
  }

  /** A new `onEnd` callback clears the old interval and arms a new one. */
  function Rearm(c: Clock): (r: Clock)
    ensures r.running && r.time == c.time
  {
    c.(running := true)
  }

  /** A timer that already fired and is re-armed with a new callback fires again on its
      next tick; only the submission latch keeps this from sending twice. */
  lemma RearmedAtZeroFiresAgain(c: Clock)
    requires c.time <= 1
    ensures TickOnce(Rearm(c)).fired
  {
  }

  function DigitChar(d: nat): (c: char)
    requires d < 10
    ensures '0' <= c <= '9'
  {
    ('0' as int + d) as char
  }

  function DigitOf(c: char): (r: nat)
    requires '0' <= c <= '9'
  {
    c as int - '0' as int
  }

  /** `n.toString()`. */
  function Decimal(n: nat): (s: string)
    ensures |s| >= 1
    ensures n < 10 ==> |s| == 1
    ensures 10 <= n < 100 ==> |s| == 2
    ensures n >= 100 ==> |s| >= 3
  {
    if n < 10 then [DigitChar(n)] else Decimal(n / 10) + [DigitChar(n % 10)]
  }

  /** `s.padStart(2, "0")`. */
  function PadStart2(s: string): (r: string)
    ensures |r| == if |s| >= 2 then |s| else 2
  {
    if |s| >= 2 then s else seq(2 - |s|, _ => '0') + s
  }

  /** `formatTime(seconds)`: whole minutes and remaining seconds, each padded to two
      digits. The timer never holds a negative value (see `CountdownFiresOnce`). */
  function FormatTime(seconds: nat): (text: string)
    ensures |text| >= 5 && text[|text| - 3] == ':'
    ensures seconds < 6000 <==> |text| == 5
  {
    PadStart2(Decimal(seconds / 60)) + ":" + PadStart2(Decimal(seconds % 60))
  }

  /** Text of the form `MM:SS`. */
  predicate IsClockText(s: string) {
    |s| == 5 && s[2] == ':' && forall i :: 0 <= i < 5 && i != 2 ==> '0' <= s[i] <= '9'
  }

  /** The seconds an `MM:SS` text denotes. */
  function ReadClock(s: string): (r: nat)
    requires IsClockText(s)
  {
    (DigitOf(s[0]) * 10 + DigitOf(s[1])) * 60 + DigitOf(s[3]) * 10 + DigitOf(s[4])
  }

  /** A number below 100 padded to two digits reads back as that number. */
  lemma TwoDigits(n: nat)
    requires n < 100
    ensures var s := PadStart2(Decimal(n));
      |s| == 2 && '0' <= s[0] <= '9' && '0' <= s[1] <= '9'
      && DigitOf(s[0]) * 10 + DigitOf(s[1]) == n
  {
    if n >= 10 {
      assert Decimal(n) == Decimal(n / 10) + [DigitChar(n % 10)];
    }
  }

  /** Below 100 minutes the display is five characters `MM:SS` that read back as the
      seconds it was made from. */
  lemma FormatTimeRoundTrip(seconds: nat)
    requires seconds < 6000
    ensures IsClockText(FormatTime(seconds))
    ensures ReadClock(FormatTime(seconds)) == seconds
  {
    TwoDigits(seconds / 60);
    TwoDigits(seconds % 60);
  }
}
