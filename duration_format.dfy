/**
 * `DateTimeUtils.formatTime`: a signed millisecond count shown as "HH:MM:SS".
 * The partner of the formatter is `ParseClock`, which reads such a string
 * back; the round trip recovers the whole seconds of the input.
 */
module DurationFormat {
  import opened Wrappers
  import opened KotlinArith

  predicate IsDigit(c: char) {
    '0' <= c <= '9'
  }

  predicate AllDigits(s: string) {
    forall i :: 0 <= i < |s| ==> IsDigit(s[i])
  }

  function DigitChar(d: nat): (c: char)
    requires d < 10
    ensures IsDigit(c)
  {
    ('0' as int + d) as char
  }

  function DigitValue(c: char): (d: nat)
    requires IsDigit(c)
    ensures d < 10
  {
    c as int - '0' as int
  }

  /** `n` in decimal, without leading zeros ("%d"). */
  function Decimal(n: nat): (s: string)
    ensures AllDigits(s)
    ensures |s| >= 1
    ensures |s| == 1 <==> n < 10
    ensures n >= 100 ==> |s| >= 3
    ensures s[0] == '0' <==> n == 0
  {
    if n < 10 then [DigitChar(n)] else Decimal(n / 10) + [DigitChar(n % 10)]
  }

  /** The value of a string of decimal digits, read most significant digit first. */
  function ValueOf(s: string): nat
    requires AllDigits(s)
  {
    if s == [] then 0 else ValueOf(s[..|s| - 1]) * 10 + DigitValue(s[|s| - 1])
  }

  lemma {:induction false} DecimalRoundTrip(n: nat)
    ensures ValueOf(Decimal(n)) == n
  {
    if n >= 10 {
      DecimalRoundTrip(n / 10);
      var s := Decimal(n);
      assert s[..|s| - 1] == Decimal(n / 10);
    }
  }

  /** `n` zero-padded to at least two digits ("%02d"); wider values are not cut. */
  function Pad2(n: nat): (s: string)
    ensures AllDigits(s)
    ensures ValueOf(s) == n
    ensures |s| >= 2
    ensures |s| == 2 <==> n < 100
    ensures s[0] == '0' <==> n < 10
  {
    DecimalRoundTrip(n);
    if n < 10 then
      var s := "0" + Decimal(n);
      assert s[..1] == "0";
      s
    else
      Decimal(n)
  }

  /** The whole seconds shown for `ms`: the magnitude of `ms / 1000` truncated toward zero. */
  function TotalSeconds(ms: int): (r: nat)
    ensures r * 1000 <= Abs(ms) < r * 1000 + 1000
  {
    Abs(TruncDiv(ms, 1000))
  }

  /** `formatTime`: hours, minutes and seconds of `TotalSeconds(ms)`, with "-" in front when `ms < 0`. */
  function FormatTime(ms: int): (r: string)
    ensures |r| > 0 && (r[0] == '-' <==> ms < 0)
  {
    var totalSeconds := TotalSeconds(ms);
    var hours := totalSeconds / 3600;
    var minutes := (totalSeconds % 3600) / 60;
    var seconds := totalSeconds % 60;
    var formattedTime := Pad2(hours) + ":" + Pad2(minutes) + ":" + Pad2(seconds);
    assert IsDigit(formattedTime[0]);
    if ms < 0 then "-" + formattedTime else formattedTime
  }

  /** A clock reading as shown by `FormatTime`: a sign and three fields. */
  datatype Clock = Clock(negative: bool, hours: nat, minutes: nat, seconds: nat)

  /** The signed number of seconds a clock reading stands for. */
  function ClockSeconds(c: Clock): int
  {
    var magnitude := c.hours * 3600 + c.minutes * 60 + c.seconds;
    if c.negative then -magnitude else magnitude
  }

  /**
   * Reads "[-]H..H:MM:SS" back: an optional "-", at least one hour digit and
   * exactly two digits for minutes and for seconds.
   */
  function ParseClock(r: string): (c: Option<Clock>)
    ensures c.Some? ==> (c.value.negative <==> |r| > 0 && r[0] == '-')
  {
    if |r| > 0 && r[0] == '-' then ParseFields(true, r[1..]) else ParseFields(false, r)
  }

  /** The unsigned part of `ParseClock`. */
  function ParseFields(negative: bool, body: string): (c: Option<Clock>)
    ensures c.Some? ==> c.value.negative == negative
  {
    var n := |body|;
    if n < 7 || body[n - 6] != ':' || body[n - 3] != ':' then None
    else
      var hh, mm, ss := body[..n - 6], body[n - 5..n - 3], body[n - 2..];
      if AllDigits(hh) && AllDigits(mm) && AllDigits(ss)
      then Some(Clock(negative, ValueOf(hh), ValueOf(mm), ValueOf(ss)))
      else None
  }

  lemma SplitSeconds(t: nat)
    ensures (t / 3600) * 3600 + ((t % 3600) / 60) * 60 + t % 60 == t
    ensures (t % 3600) / 60 < 60
  {
    var r := t % 3600;
    assert t == (t / 3600) * 3600 + r;
    assert r == (r / 60) * 60 + r % 60;
    assert r % 60 == t % 60 by {
      assert t == ((t / 3600) * 60 + r / 60) * 60 + r % 60;
    }
  }

  /** The pieces a clock string is assembled from. */
  function Assemble(negative: bool, hh: string, mm: string, ss: string): string
  {
    (if negative then "-" else "") + hh + ":" + mm + ":" + ss
  }

  lemma ParseFieldsOf(negative: bool, body: string, hh: string, mm: string, ss: string)
    requires AllDigits(hh) && AllDigits(mm) && AllDigits(ss)
    requires |body| >= 7 && body[|body| - 6] == ':' && body[|body| - 3] == ':'
    requires body[..|body| - 6] == hh && body[|body| - 5..|body| - 3] == mm && body[|body| - 2..] == ss
    ensures ParseFields(negative, body) == Some(Clock(negative, ValueOf(hh), ValueOf(mm), ValueOf(ss)))
  {
  }

  lemma ParseFieldsJoined(negative: bool, hh: string, mm: string, ss: string)
    requires AllDigits(hh) && AllDigits(mm) && AllDigits(ss)
    requires |hh| >= 1 && |mm| == 2 && |ss| == 2
    ensures ParseFields(negative, hh + ":" + mm + ":" + ss) == Some(Clock(negative, ValueOf(hh), ValueOf(mm), ValueOf(ss)))
  {
    var body := hh + ":" + mm + ":" + ss;
    var n := |body|;
    assert body[n - 6] == ':' && body[n - 3] == ':';
    assert body[..n - 6] == hh;
    assert body[n - 5..n - 3] == mm;
    assert body[n - 2..] == ss;
    ParseFieldsOf(negative, body, hh, mm, ss);
  }

  lemma ParseClockSign(r: string, negative: bool, body: string)
    requires negative ==> |r| > 0 && r[0] == '-' && r[1..] == body
    requires !negative ==> r == body && (|r| > 0 ==> r[0] != '-')
    ensures ParseClock(r) == ParseFields(negative, body)
  {
  }

  /** `ParseClock` inverts `Assemble` on well-formed pieces. */
  lemma ParseAssembled(negative: bool, hh: string, mm: string, ss: string)
    requires AllDigits(hh) && AllDigits(mm) && AllDigits(ss)
    requires |hh| >= 1 && |mm| == 2 && |ss| == 2
    ensures ParseClock(Assemble(negative, hh, mm, ss)) == Some(Clock(negative, ValueOf(hh), ValueOf(mm), ValueOf(ss)))
  {
    var body := hh + ":" + mm + ":" + ss;
    var r := Assemble(negative, hh, mm, ss);
    AssembledSign(negative, hh, mm, ss);
    ParseClockSign(r, negative, body);
    ParseFieldsJoined(negative, hh, mm, ss);
  }

  lemma AssembledSign(negative: bool, hh: string, mm: string, ss: string)
    requires AllDigits(hh) && |hh| >= 1
    ensures var r, body := Assemble(negative, hh, mm, ss), hh + ":" + mm + ":" + ss;
      && (negative ==> |r| > 0 && r[0] == '-' && r[1..] == body)
      && (!negative ==> r == body && (|r| > 0 ==> r[0] != '-'))
  {
    var body := hh + ":" + mm + ":" + ss;
    var r := Assemble(negative, hh, mm, ss);
    assert IsDigit(hh[0]) && body[0] == hh[0];
    if negative {
      assert r == "-" + body;
      assert r[1..] == body;
    } else {
      assert r == body;
    }
  }

  /**
   * Round trip: the string `FormatTime` produces parses back into canonical
   * fields (minutes and seconds below 60) whose value is `TotalSeconds(ms)`,
   * negative exactly when `ms` is.
   */
  lemma FormatTimeParses(ms: int)
    ensures ParseClock(FormatTime(ms)).Some?
    ensures var c := ParseClock(FormatTime(ms)).value;
      && c.negative == (ms < 0)
      && c.minutes < 60 && c.seconds < 60
      && c.hours * 3600 + c.minutes * 60 + c.seconds == TotalSeconds(ms)
  {
    var t := TotalSeconds(ms);
    var h, m, sec := t / 3600, (t % 3600) / 60, t % 60;
    FormatTimeAssembled(ms);
    ParseAssembled(ms < 0, Pad2(h), Pad2(m), Pad2(sec));
    SplitSeconds(t);
  }

  /**
   * A step of `FormatTimeParses`: `FormatTime` unfolded into the assembly of
   * its sign and its three padded fields, kept apart to keep that proof small.
   */
  lemma FormatTimeAssembled(ms: int)
    ensures var t := TotalSeconds(ms);
      FormatTime(ms) == Assemble(ms < 0, Pad2(t / 3600), Pad2((t % 3600) / 60), Pad2(t % 60))
  {
  }

  /** The round trip recovers `ms / 1000` truncated toward zero, sign included. */
  lemma FormatTimeRecoversSeconds(ms: int)
    ensures ParseClock(FormatTime(ms)).Some?
    ensures ClockSeconds(ParseClock(FormatTime(ms)).value) == TruncDiv(ms, 1000)
  {
    FormatTimeParses(ms);
  }

  /** A leading "-" is the only difference between a negative input and its magnitude. */
  lemma FormatTimeNegated(x: int)
    requires x > 0
    ensures FormatTime(-x) == "-" + FormatTime(x)
  {
    assert TotalSeconds(-x) == TotalSeconds(x);
  }

  /** Sub-second remainders are dropped; the sign of the input is still shown. */
  lemma FormatTimeSubSecond(ms: int)
    requires -1000 < ms < 1000
    ensures FormatTime(ms) == if ms < 0 then "-00:00:00" else "00:00:00"
  {
    assert TotalSeconds(ms) == 0;
    assert Pad2(0) == "00";
  }

  /**
   * Width: eight characters plus the sign while the hours fit in two digits;
   * from 100 hours on, the hours field is the plain decimal of the hours,
   * neither cut nor padded.
   */
  lemma FormatTimeWidth(ms: int)
    ensures var sign := if ms < 0 then 1 else 0;
      && (TotalSeconds(ms) < 360000 ==> |FormatTime(ms)| == sign + 8)
      && (TotalSeconds(ms) >= 360000 ==> |FormatTime(ms)| == sign + 6 + |Decimal(TotalSeconds(ms) / 3600)|)
      && (TotalSeconds(ms) >= 360000 ==> |FormatTime(ms)| >= sign + 9)
  {
    var t := TotalSeconds(ms);
    SplitSeconds(t);
    assert |Pad2((t % 3600) / 60)| == 2 && |Pad2(t % 60)| == 2;
    assert t < 360000 <==> t / 3600 < 100;
  }
}
