/** Helpers of the lightbox UI: lazy field resolution and duration formatting. */
module LightboxUtils {
  import opened Media
  import Strings
  import Seqs

  /** What awaiting `resolveScalarOrFunction(value)` gives, and how many times it ran the callback. */
  datatype Resolution<T> = Resolution(outcome: Settled<T>, callbackRuns: nat)

  /** `resolveScalarOrFunction`: a literal as it is, a callback called once and awaited. */
  function ResolveScalarOrFunction<T>(value: Lazy<T>): (r: Resolution<T>)
    ensures value.Literal? ==> r == Resolution(Fulfilled(value.value), 0)
    ensures value.Deferred? ==> r.callbackRuns == 1 && r.outcome == value.callback()
  {
    match value
    case Literal(v) => Resolution(Fulfilled(v), 0)
    case Deferred(callback) => Resolution(callback(), 1)
  }

  /** `x.padStart(2, '0')` */
  function Pad2(s: string): string
  {
    Strings.PadStart(s, 2, '0')
  }

  /**
   * `formatDuration(value)` for a whole number of seconds: total minutes and
   * seconds, each padded to two digits, with the hour count put in front
   * (without a separator) when it is not zero.
   */
  function FormatDuration(value: nat): (r: string)
    ensures |r| >= 5 && r[|r| - 3] == ':'
  {
    var hours := value / 3600;
    var minutes := value / 60;
    SecondsRemainder(value, minutes);
    var seconds := value - minutes * 60;
    var result := Pad2(Strings.Decimal(minutes)) + ":" + Pad2(Strings.Decimal(seconds));
    ColonBeforeSeconds(minutes, seconds);
    if hours != 0 then
      Strings.Decimal(hours) + result
    else
      result
  }

  /** Minutes and seconds below a minute, padded and joined: the colon is third from the end. */
  lemma ColonBeforeSeconds(minutes: nat, seconds: nat)
    requires seconds < 60
    ensures var t := Pad2(Strings.Decimal(minutes)) + ":" + Pad2(Strings.Decimal(seconds));
      |t| >= 5 && t[|t| - 3] == ':'
  {
    Pad2Short(seconds);
    ColonThirdFromEnd(Pad2(Strings.Decimal(minutes)), Pad2(Strings.Decimal(seconds)));
  }

  lemma Pad2Short(n: nat)
    requires n < 100
    ensures |Pad2(Strings.Decimal(n))| == 2
  {
    DecimalShort(n);
  }

  lemma ColonThirdFromEnd(mm: string, ss: string)
    requires |mm| >= 2 && |ss| == 2
    ensures var t := mm + ":" + ss;
      |t| >= 5 && t[|t| - 3] == ':'
  {
    var t := mm + ":" + ss;
    assert t[|mm|] == ':';
  }

  /** A padded decimal spelling keeps its value and has at least two digits. */
  lemma Pad2Value(n: nat)
    ensures Strings.AllDigits(Pad2(Strings.Decimal(n)))
    ensures |Pad2(Strings.Decimal(n))| >= 2
    ensures Strings.DigitsValue(Pad2(Strings.Decimal(n))) == n
    ensures n < 100 ==> |Pad2(Strings.Decimal(n))| == 2
  {
    var d := Strings.Decimal(n);
    Strings.DecimalValue(n);
    if |d| < 2 {
      assert Pad2(d) == seq(2 - |d|, _ => '0') + d;
      Strings.LeadingZerosValue(2 - |d|, d);
    }
    if n < 100 {
      DecimalShort(n);
    }
  }

  /** From ten on, padding adds nothing, so the spelling starts with a non-zero digit. */
  lemma Pad2NoLeadingZero(n: nat)
    requires n >= 10
    ensures Pad2(Strings.Decimal(n))[0] != '0'
  {
    var d := Strings.Decimal(n);
    assert |d| >= 2;
    assert Pad2(d) == d;
  }

  lemma DecimalShort(n: nat)
    requires n < 100
    ensures |Strings.Decimal(n)| <= 2
  {
    if n >= 10 {
      assert Strings.Decimal(n) == Strings.Decimal(n / 10) + [Strings.DigitChar(n % 10)];
    }
  }

  /** The hour prefix `FormatDuration` puts in front: nothing below an hour. */
  function HourPrefix(value: nat): string
  {
    if value / 3600 != 0 then Strings.Decimal(value / 3600) else ""
  }

  lemma FormatDurationUnfold(value: nat)
    ensures FormatDuration(value) == HourPrefix(value) + (Pad2(Strings.Decimal(value / 60)) + ":" + Pad2(Strings.Decimal(value % 60)))
  {
    var minutes := value / 60;
    SecondsRemainder(value, minutes);
  }

  lemma SecondsRemainder(value: nat, minutes: nat)
    requires minutes == value / 60
    ensures value - minutes * 60 == value % 60
  {
  }

  /**
   * The fields of `FormatDuration(value)`: the hour prefix, at least two digits
   * worth the TOTAL number of minutes (no leading zero past nine minutes), a colon,
   * and exactly two digits worth the seconds below a minute.
   */
  lemma FormatDurationFields(value: nat) returns (mm: string, ss: string)
    ensures FormatDuration(value) == HourPrefix(value) + mm + ":" + ss
    ensures |mm| >= 2 && Strings.AllDigits(mm) && Strings.DigitsValue(mm) == value / 60
    ensures value / 60 >= 10 ==> mm[0] != '0'
    ensures value / 60 < 10 ==> |mm| == 2
    ensures |ss| == 2 && Strings.AllDigits(ss) && Strings.DigitsValue(ss) == value % 60
  {
    mm := Pad2(Strings.Decimal(value / 60));
    ss := Pad2(Strings.Decimal(value % 60));
    FormatDurationJoin(value);
    PaddedFields(value / 60, value % 60);
  }

  lemma FormatDurationJoin(value: nat)
    ensures FormatDuration(value) == HourPrefix(value) + Pad2(Strings.Decimal(value / 60)) + ":" + Pad2(Strings.Decimal(value % 60))
  {
    var mm := Pad2(Strings.Decimal(value / 60));
    var ss := Pad2(Strings.Decimal(value % 60));
    FormatDurationUnfold(value);
    JoinFields(HourPrefix(value), mm, ss);
  }

  lemma JoinFields(prefix: string, mm: string, ss: string)
    ensures prefix + (mm + ":" + ss) == prefix + mm + ":" + ss
  {
  }

  /** Padded minutes and seconds fields: digits worth their numbers, the seconds exactly two of them. */
  lemma PaddedFields(minutes: nat, seconds: nat)
    requires seconds < 60
    ensures |Pad2(Strings.Decimal(minutes))| >= 2 && Strings.AllDigits(Pad2(Strings.Decimal(minutes)))
    ensures minutes >= 10 ==> Pad2(Strings.Decimal(minutes))[0] != '0'
    ensures minutes < 10 ==> |Pad2(Strings.Decimal(minutes))| == 2
    ensures Strings.DigitsValue(Pad2(Strings.Decimal(minutes))) == minutes
    ensures |Pad2(Strings.Decimal(seconds))| == 2 && Strings.AllDigits(Pad2(Strings.Decimal(seconds)))
    ensures Strings.DigitsValue(Pad2(Strings.Decimal(seconds))) == seconds
  {
    Pad2Value(minutes);
    Pad2Value(seconds);
    if minutes >= 10 {
      Pad2NoLeadingZero(minutes);
    }
  }

  /** The output holds exactly one colon. */
  lemma FormatDurationOneColon(value: nat)
    ensures Seqs.Count(FormatDuration(value), (c: char) => c == ':') == 1
  {
    var isColon := (c: char) => c == ':';
    var h := HourPrefix(value);
    var minutes, seconds := FormatDurationFields(value);
    NoColonInDigits(h);
    NoColonInDigits(minutes);
    NoColonInDigits(seconds);
    Seqs.CountAppend(h + minutes + ":", seconds, isColon);
    Seqs.CountAppend(h + minutes, ":", isColon);
    Seqs.CountAppend(h, minutes, isColon);
  }

  lemma {:induction false} NoColonInDigits(s: string)
    requires Strings.AllDigits(s)
    ensures Seqs.Count(s, (c: char) => c == ':') == 0
  {
    if s != [] {
      NoColonInDigits(s[1..]);
    }
  }

  /** Past an hour the minutes are not reduced and the hour is glued on: 3725 seconds read "162:05". */
  lemma FormatDurationOfOneHourTwoMinutes()
    ensures FormatDuration(3725) == "162:05"
  {
    FormatDurationUnfold(3725);
    assert HourPrefix(3725) == Strings.Decimal(1);
    DigitsOf3725();
  }

  lemma DigitsOf3725()
    ensures Strings.Decimal(1) + (Pad2(Strings.Decimal(62)) + ":" + Pad2(Strings.Decimal(5))) == "162:05"
  {
    assert Strings.Decimal(62) == "62";
    assert Strings.Decimal(5) == "5";
    assert Strings.Decimal(1) == "1";
    assert Pad2("62") == "62";
    assert Pad2("5") == "05";
  }

  /**
   * The hours:minutes:seconds rendering the function evidently aims at: minutes
   * below an hour, a colon after the hour count.
   */
  function FormatClock(value: nat): string
  {
    var hours := value / 3600;
    var minutes := value / 60 % 60;
    var seconds := value % 60;
    var result := Pad2(Strings.Decimal(minutes)) + ":" + Pad2(Strings.Decimal(seconds));
    if hours != 0 then Strings.Decimal(hours) + ":" + result else result
  }

  lemma FormatClockUnfold(value: nat)
    ensures var tail := Pad2(Strings.Decimal(value / 60 % 60)) + ":" + Pad2(Strings.Decimal(value % 60));
            FormatClock(value) == if value / 3600 != 0 then Strings.Decimal(value / 3600) + ":" + tail else tail
  {
  }

  /**
   * The fields of `FormatClock(value)` read back to `value`: the hour count and
   * a colon when there is an hour, then two digits of minutes below 60, a colon,
   * and two digits of seconds.
   */
  lemma FormatClockFields(value: nat) returns (mm: string, ss: string)
    ensures FormatClock(value) == (if value < 3600 then "" else Strings.Decimal(value / 3600) + ":") + mm + ":" + ss
    ensures |mm| == 2 && Strings.AllDigits(mm) && Strings.DigitsValue(mm) < 60
    ensures |ss| == 2 && Strings.AllDigits(ss) && Strings.DigitsValue(ss) < 60
    ensures (value / 3600) * 3600 + Strings.DigitsValue(mm) * 60 + Strings.DigitsValue(ss) == value
  {
    FormatClockUnfold(value);
    mm := Pad2(Strings.Decimal(value / 60 % 60));
    ss := Pad2(Strings.Decimal(value % 60));
    Pad2Value(value / 60 % 60);
    Pad2Value(value % 60);
    ClockArithmetic(value);
  }

  /** Hours, minutes below an hour and seconds below a minute add back up to the value. */
  lemma ClockArithmetic(value: nat)
    ensures (value / 3600) * 3600 + (value / 60 % 60) * 60 + value % 60 == value
  {
    var m := value / 60;
    assert value == m * 60 + value % 60;
    assert m == (m / 60) * 60 + m % 60;
    assert m / 60 == value / 3600;
  }

  /** The same input, 3725 seconds, reads "1:02:05" under the intended rendering. */
  lemma FormatClockOfOneHourTwoMinutes()
    ensures FormatClock(3725) == "1:02:05"
  {
    FormatClockUnfold(3725);
    assert 3725 / 3600 == 1 && 3725 / 60 % 60 == 2 && 3725 % 60 == 5;
    ClockDigitsOf3725();
  }

  lemma ClockDigitsOf3725()
    ensures Strings.Decimal(1) + ":" + (Pad2(Strings.Decimal(2)) + ":" + Pad2(Strings.Decimal(5))) == "1:02:05"
  {
    assert Strings.Decimal(2) == "2";
    assert Strings.Decimal(5) == "5";
    assert Strings.Decimal(1) == "1";
    assert Pad2("2") == "02";
    assert Pad2("5") == "05";
  }
}
