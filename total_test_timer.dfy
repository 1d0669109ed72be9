/** The whole-test clock (`src/components/test/TotalTestTimer.tsx`). Each
    second the interval reads the clock (a parameter here), sets the elapsed
    whole seconds since the start and reports them; once the test is
    complete there are no more updates. `formatTime` renders the elapsed
    seconds as MM:SS, or HH:MM:SS from the first hour on. */
module TotalTestTimer {
  import opened Js
  import opened Text

  /** `n.toString().padStart(2, '0')` */
  function Pad2(n: int): string {
    PadStart2(IntToString(n))
  }

  /** The hours, minutes and seconds `formatTime` computes. */
  function Hours(s: int): int { FloorDiv(s, 3600) }
  function MinutesPart(s: int): int { FloorDiv(Rem(s, 3600), 60) }
  function SecondsPart(s: int): int { Rem(s, 60) }

  /** `formatTime` */
  function FormatTime(s: int): string {
    var h := Hours(s);
    var m := MinutesPart(s);
    var sec := SecondsPart(s);
    if h > 0 then Pad2(h) + ":" + Pad2(m) + ":" + Pad2(sec) else Pad2(m) + ":" + Pad2(sec)
  }

  /** For a non-negative count the three parts are a true decomposition:
      minutes and seconds below 60, adding back up to `s`. */
  lemma Decomposition(s: int)
    requires s >= 0
    ensures 0 <= MinutesPart(s) < 60 && 0 <= SecondsPart(s) < 60 && Hours(s) >= 0
    ensures 3600 * Hours(s) + 60 * MinutesPart(s) + SecondsPart(s) == s
  {
    var h := s / 3600;
    var r := s % 3600;
    assert s == 3600 * h + r;
    assert r == 60 * (r / 60) + r % 60;
    assert s % 60 == r % 60 by {
      assert s == 60 * (60 * h + r / 60) + r % 60;
    }
  }

  /** A number below 100 renders as two digits, which read back as it
      whatever non-digit text follows. */
  lemma Pad2Facts(n: int, rest: string)
    requires 0 <= n < 100
    requires rest == [] || !IsDigit(rest[0])
    ensures |Pad2(n)| == 2
    ensures ParseInt(Pad2(n) + rest) == Int(n)
  {
    PaddedTwoDigits(n);
    ParsePadded(n, rest);
  }

  /** The MM:SS text of minutes and seconds below 60. */
  lemma MinutesSecondsText(m: int, sec: int)
    requires 0 <= m < 60 && 0 <= sec < 60
    ensures var text := Pad2(m) + ":" + Pad2(sec);
      |text| == 5 && ParseInt(text) == Int(m) && ParseInt(text[3..]) == Int(sec)
  {
    Pad2Facts(m, ":" + Pad2(sec));
    Pad2Facts(sec, "");
    RegroupMinutesSeconds(Pad2(m), Pad2(sec));
  }

  /** Regrouping the two fields of MM:SS, and where the seconds start when
      the minutes are two characters long. */
  lemma RegroupMinutesSeconds(mm: string, ss: string)
    requires |mm| == 2
    ensures mm + ":" + ss == mm + (":" + ss)
    ensures |mm + ":" + ss| == 3 + |ss|
    ensures (mm + ":" + ss)[3..] == ss + ""
  {
  }

  /** Regrouping the three fields of HH:MM:SS, and where the minutes and
      the seconds start when both are two characters long. */
  lemma RegroupFields(hh: string, mm: string, ss: string)
    requires |mm| == 2 && |ss| == 2
    ensures hh + ":" + mm + ":" + ss == hh + (":" + mm + ":" + ss)
    ensures |hh + ":" + mm + ":" + ss| == |hh| + 6
    ensures (hh + ":" + mm + ":" + ss)[|hh| + 1..] == mm + (":" + ss)
    ensures (hh + ":" + mm + ":" + ss)[|hh| + 4..] == ss + ""
  {
  }

  /** The HH:MM:SS text of a number of hours: the hours lead it, and the
      minutes and the seconds read back from their own offsets. */
  lemma HoursText(h: int, m: int, sec: int)
    requires 0 <= h && 0 <= m < 60 && 0 <= sec < 60
    ensures var text := Pad2(h) + ":" + Pad2(m) + ":" + Pad2(sec);
      |text| >= 8 && ParseInt(text) == Int(h)
    ensures var text := Pad2(h) + ":" + Pad2(m) + ":" + Pad2(sec);
      |text| == |Pad2(h)| + 6 &&
      ParseInt(text[|Pad2(h)| + 1..]) == Int(m) && ParseInt(text[|Pad2(h)| + 4..]) == Int(sec)
  {
    Pad2Facts(m, ":" + Pad2(sec));
    Pad2Facts(sec, "");
    RegroupFields(Pad2(h), Pad2(m), Pad2(sec));
    var tail := ":" + Pad2(m) + ":" + Pad2(sec);
    assert tail[0] == ':';
    ParsePadded(h, tail);
  }

  /** The output has hours exactly from 3600 seconds on: for a non-negative
      count it is five characters (MM:SS) below an hour and at least eight
      (HH:MM:SS) from then on, and each field reads back as its part at its
      own offset. */
  lemma FormatTimeShape(s: int)
    requires s >= 0
    ensures s < 3600 ==> |FormatTime(s)| == 5
    ensures s >= 3600 ==> |FormatTime(s)| >= 8
    ensures var text := FormatTime(s);
      s < 3600 ==>
        ParseInt(text) == Int(MinutesPart(s)) && ParseInt(text[3..]) == Int(SecondsPart(s))
    ensures s >= 3600 ==> ParseInt(FormatTime(s)) == Int(Hours(s))
    ensures var text := FormatTime(s); var at := |Pad2(Hours(s))|;
      s >= 3600 ==>
        |text| == at + 6 &&
        ParseInt(text[at + 1..]) == Int(MinutesPart(s)) && ParseInt(text[at + 4..]) == Int(SecondsPart(s))
  {
    Decomposition(s);
    if s < 3600 {
      assert Hours(s) == 0;
      MinutesSecondsText(MinutesPart(s), SecondsPart(s));
    } else {
      FormatTimeHours(s);
    }
  }

  /** From an hour on, the output is the HH:MM:SS text of the three parts. */
  lemma FormatTimeHours(s: int)
    requires s >= 3600
    ensures var text := FormatTime(s); var at := |Pad2(Hours(s))|;
      |text| >= 8 && ParseInt(text) == Int(Hours(s)) &&
      |text| == at + 6 &&
      ParseInt(text[at + 1..]) == Int(MinutesPart(s)) && ParseInt(text[at + 4..]) == Int(SecondsPart(s))
  {
    Decomposition(s);
    var h, m, sec := Hours(s), MinutesPart(s), SecondsPart(s);
    assert h > 0;
    assert FormatTime(s) == Pad2(h) + ":" + Pad2(m) + ":" + Pad2(sec);
    HoursText(h, m, sec);
  }

  class Clock {
    const startTime: int
    var isTestComplete: bool
    var elapsedTime: int
    /** The last value handed to `onTimeUpdate`, if any. */
    var reported: Option<int>

    constructor(startTime: int, isTestComplete: bool)
      ensures this.startTime == startTime && this.isTestComplete == isTestComplete
      ensures elapsedTime == 0 && reported == None
    {
      this.startTime := startTime;
      this.isTestComplete := isTestComplete;
      elapsedTime := 0;
      reported := None;
    }

    /** The shown text. */
    function Shown(): string
      reads this
    {
      FormatTime(elapsedTime)
    }

    /** One second of the interval at clock reading `now` (milliseconds).
        The elapsed time is recomputed from the start, not accumulated, and
        the value reported is the one shown. */
    method Tick(now: int)
      modifies this`elapsedTime, this`reported
      ensures old(isTestComplete) ==> elapsedTime == old(elapsedTime) && reported == old(reported)
      ensures !old(isTestComplete) ==>
        && elapsedTime * 1000 <= now - startTime < elapsedTime * 1000 + 1000
        && reported == Some(elapsedTime)
        && Shown() == FormatTime(reported.value)
    {
      if isTestComplete {
        return;
      }
      var timeElapsed := FloorDiv(now - startTime, 1000);
      elapsedTime := timeElapsed;
      reported := Some(timeElapsed);
    }
  }
}
