/** The per-question countdown (`src/components/QuestionTimer.tsx`). The
    interval callback is the `Tick` method: while running with time left it
    takes one second off. The effect that calls `onTimeUp` is reported by
    `Tick`'s result, and a new duration restarts the countdown. */
module QuestionTimer {
  import opened Js
  import opened Text

  /** The colour of the progress bar. */
  datatype Band = Primary | Amber | Red

  /** More than 60% of the duration left is primary, more than 30% amber,
      otherwise red. */
  function BandOf(timeLeft: int, duration: int): (b: Band)
    ensures b == Primary <==> 5 * timeLeft > 3 * duration
    ensures b == Amber <==> 5 * timeLeft <= 3 * duration && 10 * timeLeft > 3 * duration
    ensures b == Red <==> 5 * timeLeft <= 3 * duration && 10 * timeLeft <= 3 * duration
  {
    if 5 * timeLeft > 3 * duration then Primary
    else if 10 * timeLeft > 3 * duration then Amber
    else Red
  }

  /** As time runs out the colour only moves from primary to amber to red. */
  lemma BandMonotone(t: int, t': int, duration: int)
    requires t' <= t
    ensures BandOf(t', duration) == Primary ==> BandOf(t, duration) == Primary
    ensures BandOf(t, duration) == Red ==> BandOf(t', duration) == Red
  {
  }

  /** The remaining time as shown: `${Math.floor(t / 60)}:${pad2(t % 60)}`. */
  function Display(t: int): string {
    IntToString(FloorDiv(t, 60)) + ":" + PadStart2(IntToString(Rem(t, 60)))
  }

  /** The urgent style applies in the last ten seconds. */
  predicate Urgent(t: int) {
    t <= 10
  }

  /** For a non-negative time the display is the minutes, a colon and
      exactly two digits of seconds; the two read back as the minutes and
      the seconds, which make up `t`. */
  lemma DisplayReadsBack(t: int)
    requires t >= 0
    ensures var m := FloorDiv(t, 60); var s := Rem(t, 60);
      var text := Display(t);
      && m * 60 + s == t && 0 <= s < 60
      && text == NatToString(m) + ":" + PadStart2(NatToString(s))
      && |text| == |NatToString(m)| + 3
      && ParseInt(text) == Int(m)
      && ParseInt(text[|NatToString(m)| + 1..]) == Int(s)
  {
    var m := FloorDiv(t, 60);
    var s := Rem(t, 60);
    assert m * 60 + s == t && 0 <= s < 60 && m >= 0;
    MinutesColonSeconds(m, s);
  }

  /** `<m>:<ss>` is the minutes, a colon and two digits of seconds, and both
      parts read back. */
  lemma MinutesColonSeconds(m: nat, s: nat)
    requires s < 60
    ensures var text := NatToString(m) + ":" + PadStart2(NatToString(s));
      && |text| == |NatToString(m)| + 3
      && ParseInt(text) == Int(m)
      && ParseInt(text[|NatToString(m)| + 1..]) == Int(s)
  {
    var mm := NatToString(m);
    var ss := PadStart2(NatToString(s));
    PaddedTwoDigits(s);
    RegroupDisplay(mm, ss);
    ParseNatToString(m, ":" + ss);
    ParsePadded(s, "");
  }

  lemma RegroupDisplay(mm: string, ss: string)
    ensures mm + ":" + ss == mm + (":" + ss)
    ensures (mm + ":" + ss)[|mm| + 1..] == ss + ""
  {
  }

  class Timer {
    var duration: int
    var timeLeft: int
    var isRunning: bool

    /** The time left never exceeds the duration, and is negative only when
        the duration itself is, in which case it never moves. */
    predicate Valid()
      reads this
    {
      timeLeft <= duration && (timeLeft < 0 ==> timeLeft == duration)
    }

    /** The countdown starts at the duration, running. */
    constructor(duration: int)
      ensures Valid()
      ensures this.duration == duration && timeLeft == duration && isRunning
    {
      this.duration := duration;
      timeLeft := duration;
      isRunning := true;
    }

    /** One second of the interval. There is an interval only while running
        with time left; then the time goes down by exactly one, and when it
        reaches zero the effect calls `onTimeUp` (`timeUp`). */
    method Tick() returns (timeUp: bool)
      requires Valid()
      modifies this`timeLeft
      ensures Valid()
      ensures old(isRunning && timeLeft > 0) ==> timeLeft == old(timeLeft) - 1
      ensures !old(isRunning && timeLeft > 0) ==> timeLeft == old(timeLeft)
      ensures timeUp <==> old(isRunning && timeLeft > 0) && timeLeft == 0
      ensures old(timeLeft) >= 0 ==> timeLeft >= 0
    {
      timeUp := false;
      if isRunning && timeLeft > 0 {
        timeLeft := timeLeft - 1;
        timeUp := timeLeft == 0;
      }
    }

    /** A new duration restarts the countdown from it, running. */
    method SetDuration(d: int)
      modifies this
      ensures Valid()
      ensures duration == d && timeLeft == d && isRunning
    {
      duration := d;
      timeLeft := d;
      isRunning := true;
    }
  }
}
