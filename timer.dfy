/**
 * The per-question countdown: a one-second tick that reports the decremented value and clamps at
 * zero, the reset when the total changes, and the `m:ss` display with its warning levels.
 */
module Timer {
  import opened Text

  /** The value a tick reports: one less than before, possibly zero or negative. */
  function Reported(remaining: int): int
  {
    remaining - 1
  }

  /** A tick fires `onTimeUp` exactly when the reported value is not positive. */
  predicate Fires(remaining: int)
  {
    Reported(remaining) <= 0
  }

  /** The remaining time after one tick: never negative, and one less unless the timer fires. */
  function NextRemaining(remaining: int): (r: int)
    ensures r >= 0
    ensures Fires(remaining) <==> r == 0
    ensures !Fires(remaining) ==> r == Reported(remaining)
  {
    if Reported(remaining) <= 0 then 0 else Reported(remaining)
  }

  /** The remaining time after `n` ticks from `remaining`. */
  function AfterTicks(remaining: int, n: nat): int
  {
    if n == 0 then remaining else NextRemaining(AfterTicks(remaining, n - 1))
  }

  /** Fewer than `t` ticks from `t` each take off exactly one second. */
  lemma {:induction false} AfterTicksCountsDown(t: int, n: nat)
    requires n < t
    ensures AfterTicks(t, n) == t - n
  {
    if n > 0 {
      AfterTicksCountsDown(t, n - 1);
    }
  }

  /** Starting from `t > 0`, tick number `k` (counting from 1) fires exactly when `k == t`. */
  lemma FirstFireOnTickT(t: int, k: nat)
    requires t > 0 && 1 <= k <= t
    ensures Fires(AfterTicks(t, k - 1)) <==> k == t
  {
    AfterTicksCountsDown(t, k - 1);
  }

  /** Once at zero the countdown stays at zero and fires again on every further tick. */
  lemma {:induction false} StaysAtZero(n: nat)
    ensures AfterTicks(0, n) == 0
    ensures Fires(AfterTicks(0, n))
  {
    if n > 0 {
      StaysAtZero(n - 1);
    }
  }

  /** The countdown component's state: the limit it was given and the seconds left. */
  class Countdown {
    var totalTime: int
    var timeRemaining: int

    /** Mounting starts the countdown at the total. */
    constructor (totalTime: int)
      ensures this.totalTime == totalTime && timeRemaining == totalTime
    {
      this.totalTime := totalTime;
      timeRemaining := totalTime;
    }

    /** Mounting the component again (a new question's timer) starts from the new total. */
    method Mount(totalTime: int)
      modifies this
      ensures this.totalTime == totalTime && timeRemaining == totalTime
    {
      this.totalTime := totalTime;
      timeRemaining := totalTime;
    }

    /** A new `totalTime` prop: the countdown restarts at it when it differs from the previous one. */
    method SetTotalTime(t: int)
      modifies this
      ensures totalTime == t
      ensures t != old(totalTime) ==> timeRemaining == t
      ensures t == old(totalTime) ==> timeRemaining == old(timeRemaining)
    {
      if t != totalTime {
        totalTime := t;
        timeRemaining := t;
      }
    }

    /**
     * One interval tick: `reported` goes to `onTimeUpdate`, `timeUp` tells whether `onTimeUp`
     * was called, and the remaining time moves on by one step.
     */
    method Tick() returns (reported: int, timeUp: bool)
      modifies this
      ensures reported == old(timeRemaining) - 1
      ensures timeUp <==> reported <= 0
      ensures timeRemaining == NextRemaining(old(timeRemaining))
      ensures totalTime == old(totalTime)
    {
      var newTime := timeRemaining - 1;
      reported := newTime;
      if newTime <= 0 {
        timeUp := true;
        timeRemaining := 0;
      } else {
        timeUp := false;
        timeRemaining := newTime;
      }
    }
  }

  // ---------------------------------------------------------------------------------------------
  // Display

  /** `Math.floor(t / 60)`. */
  function Minutes(t: int): (m: int)
    ensures m * 60 <= t < m * 60 + 60
  {
    t / 60
  }

  /** `t % 60` with JavaScript's remainder, which takes the sign of `t`. */
  function Seconds(t: int): (s: int)
    ensures -60 < s < 60
    ensures t >= 0 ==> 0 <= s && Minutes(t) * 60 + s == t
    ensures t < 0 ==> s <= 0 && (t - s) % 60 == 0
  {
    if t >= 0 then t % 60 else -((-t) % 60)
  }

  /** `s.padStart(2, '0')`. */
  function PadTwo(s: string): (r: string)
    ensures |s| >= 2 ==> r == s
    ensures |s| < 2 ==> |r| == 2 && r[2 - |s|..] == s && forall i :: 0 <= i < 2 - |s| ==> r[i] == '0'
  {
    if |s| == 0 then "00" else if |s| == 1 then "0" + s else s
  }

  /** The `m:ss` text shown by the timer. */
  function Clock(t: int): string
  {
    IntToString(Minutes(t)) + ":" + PadTwo(IntToString(Seconds(t)))
  }

  lemma ParseNatLeadingZero(s: string)
    requires |s| == 1 && IsDigit(s[0])
    ensures ParseNat("0" + s) == ParseNat(s)
  {
    var z := "0" + s;
    assert z[..1] == "0";
    assert s[..0] == [];
  }

  /**
   * For a time that is not negative the display is the minutes, a colon and exactly two second
   * digits, and reading them back gives the time.
   */
  lemma ClockReadsBack(t: int)
    requires t >= 0
    ensures Clock(t) == NatToString(t / 60) + ":" + PadTwo(NatToString(t % 60))
    ensures |PadTwo(NatToString(t % 60))| == 2
    ensures ParseNat(NatToString(t / 60)) * 60 + ParseNat(PadTwo(NatToString(t % 60))) == t
  {
    var sec := NatToString(t % 60);
    ParseNatToString(t / 60);
    ParseNatToString(t % 60);
    if |sec| == 1 {
      ParseNatLeadingZero(sec);
    } else {
      ShortRendering(t % 60);
    }
  }

  /** A number below 100 renders in at most two digits. */
  lemma ShortRendering(n: nat)
    requires n < 100
    ensures |NatToString(n)| <= 2
  {
    if n >= 10 {
      assert NatToString(n / 10) == [DigitChar(n / 10)];
    }
  }

  /** `percentage <= 25` with `percentage = timeRemaining / totalTime * 100`. */
  function IsLowTime(t: int, total: int): (b: bool)
    requires total > 0
    ensures b <==> 4 * t <= total
  {
    (t as real / total as real) * 100.0 <= 25.0
  }

  /** `percentage <= 10`. */
  function IsCritical(t: int, total: int): (b: bool)
    requires total > 0
    ensures b <==> 10 * t <= total
  {
    (t as real / total as real) * 100.0 <= 10.0
  }

  /** A critical timer is always also low on time. */
  lemma CriticalIsLow(t: int, total: int)
    requires total > 0 && IsCritical(t, total)
    ensures IsLowTime(t, total)
  {
  }
}
