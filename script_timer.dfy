/** The Pomodoro timer of static/js/script.js: the globals `timerSeconds`,
    `isPaused` and `timerInterval`, the functions that start, pause and
    reset it, the callback the interval runs every second, and the `MM:SS`
    display.

    The page is not modelled: the value of the minutes input is passed to
    each operation that reads it, the interval's callback is the method
    `Tick`, and the text shown in `#timer` is the field `display`. */
module ScriptTimer {
  import opened Wrappers
  import opened Strings
  import Json

  // ----- JavaScript parseInt -----

  /** The value of a string of hex digits (either case). */
  function HexDigitsValue(s: string): nat
    requires forall i :: 0 <= i < |s| ==> Json.IsHexDigit(s[i])
  {
    if |s| == 0 then 0 else HexDigitsValue(s[..|s| - 1]) * 16 + Json.HexValue(s[|s| - 1])
  }

  /** The `0x` or `0X` that makes `parseInt` read base 16. */
  predicate HexPrefix(u: string) {
    |u| >= 2 && u[0] == '0' && (u[1] == 'x' || u[1] == 'X')
  }

  /** The unsigned part of `parseInt`: a `0x`/`0X` prefix selects base 16,
      and the longest run of digits that follows is read; no digit at all
      is NaN. A number is read exactly when the text begins with a digit,
      and, after a hex prefix, with a hex digit after it. */
  function ParseUnsigned(u: string): (r: Option<nat>)
    ensures r.Some? <==> |u| > 0 && IsDigit(u[0]) && (HexPrefix(u) ==> |u| > 2 && Json.IsHexDigit(u[2]))
  {
    if HexPrefix(u) then
      var n := Leading(u[2..], Json.IsHexDigit);
      if n == 0 then None else Some(HexDigitsValue(u[2..][..n]))
    else
      var n := Leading(u, IsDigit);
      if n == 0 then None else Some(DigitsValue(u[..n]))
  }

  /** `parseInt(s)` without a radix, with NaN as None: leading white space
      is skipped and one sign is allowed before the unsigned part. */
  function ParseIntJs(s: string): (r: Option<int>) {
    ParseSigned(s[Leading(s, IsJsSpace)..])
  }

  /** The part of `parseInt` after the white space: an optional sign and
      the unsigned part. */
  function ParseSigned(t: string): (r: Option<int>) {
    if |t| > 0 && (t[0] == '-' || t[0] == '+') then
      match ParseUnsigned(t[1..])
      case None => None
      case Some(m) =>
        var v: int := if t[0] == '-' then 0 - m else m;
        Some(v)
    else
      match ParseUnsigned(t)
      case None => None
      case Some(m) => Some(m)
  }

  /** A text without a digit is NaN. */
  lemma NoDigitIsNaN(s: string)
    requires forall i :: 0 <= i < |s| ==> !IsDigit(s[i])
    ensures ParseIntJs(s) == None
  {
    var a := Leading(s, IsJsSpace);
    var t := s[a..];
    if |t| > 0 {
      assert t[0] == s[a];
      if |t| > 1 {
        assert t[1] == s[a + 1];
      }
    }
  }

  /** Leading white space is skipped. */
  lemma {:induction false} ParseIntSkipsSpace(c: char, s: string)
    requires IsJsSpace(c)
    ensures ParseIntJs([c] + s) == ParseIntJs(s)
  {
    var x := [c] + s;
    assert x[1..] == s;
    assert Leading(x, IsJsSpace) == 1 + Leading(s, IsJsSpace);
    assert x[Leading(x, IsJsSpace)..] == s[Leading(s, IsJsSpace)..];
  }

  /** A minus sign negates the number that follows. */
  lemma ParseIntNegative(n: nat)
    ensures ParseIntJs("-" + Decimal(n)) == Some(-(n as int))
  {
    var x := "-" + Decimal(n);
    assert Leading(x, IsJsSpace) == 0;
    assert x[0..] == x;
    assert x[1..] == Decimal(n);
    UnsignedDecimal(n);
  }

  lemma UnsignedDecimal(n: nat)
    ensures ParseUnsigned(Decimal(n)) == Some(n)
  {
    var s := Decimal(n);
    if |s| >= 2 {
      assert s[1] != 'x' && s[1] != 'X' by {
        assert IsDigit(s[1]);
      }
    }
    LeadingAll(s);
    assert s[..|s|] == s;
    DecimalRoundTrip(n);
  }

  /** The decimal digits of a non-negative number read back as it. */
  lemma ParseIntDecimal(n: nat)
    ensures ParseIntJs(Decimal(n)) == Some(n)
  {
    var s := Decimal(n);
    assert Leading(s, IsJsSpace) == 0 by {
      assert IsDigit(s[0]);
    }
    assert s[0..] == s;
    UnsignedDecimal(n);
  }

  /** `parseInt` reads the decimal digits at the front and stops at the
      first character that is not a digit, so `"25 minutes"` and `"1.5"`
      give 25 and 1. After a lone `0`, an `x` would start a hex number
      instead. */
  lemma ParseIntPrefix(n: nat, rest: string)
    requires rest == "" || (!IsDigit(rest[0]) && (n != 0 || (rest[0] != 'x' && rest[0] != 'X')))
    ensures ParseIntJs(Decimal(n) + rest) == Some(n)
  {
    var d := Decimal(n);
    var s := d + rest;
    assert s[0] == d[0];
    assert Leading(s, IsJsSpace) == 0 by {
      assert IsDigit(s[0]);
    }
    assert s[0..] == s;
    assert !HexPrefix(s) by {
      if |d| >= 2 {
        assert s[1] == d[1] && IsDigit(d[1]);
      } else if |s| >= 2 && s[0] == '0' {
        assert d == [DigitChar(n)] && n == 0;
        assert s[1] == rest[0];
      }
    }
    LeadingUpTo(d, rest, IsDigit);
    assert s[..|d|] == d;
    DecimalRoundTrip(n);
  }

  /** After `0x` or `0X`, `parseInt` reads the hex digits that follow and
      stops at the first character that is not one, so `"0x1Fz"` gives 31. */
  lemma ParseIntHex(s: string, h: string, rest: string)
    requires HexPrefix(s) && s[2..] == h + rest
    requires |h| > 0 && forall i :: 0 <= i < |h| ==> Json.IsHexDigit(h[i])
    requires rest == "" || !Json.IsHexDigit(rest[0])
    ensures ParseIntJs(s) == Some(HexDigitsValue(h))
  {
    ParseIntDigitStart(s);
    UnsignedHex(s, h, rest);
  }

  /** A text that begins with a digit is read by the unsigned part alone. */
  lemma ParseIntDigitStart(s: string)
    requires |s| > 0 && IsDigit(s[0])
    ensures ParseIntJs(s) == ParseUnsigned(s)
  {
    assert Leading(s, IsJsSpace) == 0;
    assert s[0..] == s;
  }

  lemma UnsignedHex(u: string, h: string, rest: string)
    requires HexPrefix(u) && u[2..] == h + rest
    requires |h| > 0 && forall i :: 0 <= i < |h| ==> Json.IsHexDigit(h[i])
    requires rest == "" || !Json.IsHexDigit(rest[0])
    ensures ParseUnsigned(u) == Some(HexDigitsValue(h))
  {
    LeadingUpTo(h, rest, Json.IsHexDigit);
    assert (h + rest)[..|h|] == h;
  }

  lemma {:induction false} LeadingAll(s: string)
    requires AllDigits(s)
    ensures Leading(s, IsDigit) == |s|
  {
    if |s| > 0 {
      LeadingAll(s[1..]);
    }
  }

  /** `parseInt(input) || 25`: NaN and 0 give the default of 25 minutes. */
  function ResolveMinutes(input: string): (r: int)
    ensures r != 0
    ensures ParseIntJs(input).None? ==> r == 25
    ensures ParseIntJs(input).Some? ==> r == if ParseIntJs(input).value == 0 then 25 else ParseIntJs(input).value
  {
    match ParseIntJs(input)
    case None => 25
    case Some(m) => if m == 0 then 25 else m
  }

  // ----- the MM:SS display -----

  /** `String(n)` for an integer. */
  function JsString(n: int): string {
    if n < 0 then "-" + Decimal(-n) else Decimal(n)
  }

  /** JavaScript's `a % 60`: the remainder takes the sign of the dividend. */
  function JsRem60(a: int): (r: int)
    ensures a >= 0 ==> r == a % 60
    ensures -60 < r < 60 && (a - r) % 60 == 0
    ensures a < 0 ==> r <= 0
  {
    if a >= 0 || a % 60 == 0 then a % 60 else a % 60 - 60
  }

  /** `s.padStart(2, '0')`. */
  function Pad2(s: string): (r: string)
    ensures |r| == if |s| < 2 then 2 else |s|
    ensures r[|r| - |s|..] == s
    ensures forall i :: 0 <= i < |r| - |s| ==> r[i] == '0'
  {
    if |s| == 0 then "00" else if |s| == 1 then "0" + s else s
  }

  /** `updateTimerDisplay`'s text for `t` seconds: `Math.floor(t / 60)` and
      `t % 60`, each padded to two characters, around a colon. */
  function FormatTimer(t: int): string {
    Pad2(JsString(t / 60)) + ":" + Pad2(JsString(JsRem60(t)))
  }

  /** For a non-negative time the display is digits, a colon and two
      digits: at least two for the minutes (`t div 60`) and exactly two for
      the seconds (`t mod 60`). */
  lemma FormatTimerShape(t: int)
    requires t >= 0
    ensures var d := FormatTimer(t);
            var mm := Pad2(Decimal(t / 60));
            var ss := Pad2(Decimal(t % 60));
            d == mm + ":" + ss && |mm| >= 2 && |ss| == 2 && AllDigits(mm) && AllDigits(ss)
            && DigitsValue(mm) == t / 60 && DigitsValue(ss) == t % 60
  {
    PadValue(t / 60);
    PadValue(t % 60);
  }

  /** Padding the digits of `n` with zeros keeps their value; under 100 the
      padded text is two characters. */
  lemma PadValue(n: nat)
    ensures var p := Pad2(Decimal(n));
            AllDigits(p) && DigitsValue(p) == n && (n < 100 ==> |p| == 2) && |p| >= 2
  {
    var s := Decimal(n);
    var p := Pad2(s);
    var z := p[..|p| - |s|];
    assert p == z + s;
    LeadingZeros(z, s);
    DecimalRoundTrip(n);
    if n < 100 {
      if n >= 10 {
        assert n / 10 < 10;
        assert |Decimal(n / 10)| == 1;
      }
    }
  }

  /** Reads a display back: the value of the digits before the colon times
      sixty plus the value of the digits after it; None for anything that
      is not that shape. */
  function ParseTimer(d: string): Option<int> {
    var parts := Split(d, ':');
    if |parts| == 2 && AllDigits(parts[0]) && AllDigits(parts[1]) && |parts[1]| == 2 then
      Some(DigitsValue(parts[0]) * 60 + DigitsValue(parts[1]))
    else None
  }

  /** Reading the display back gives the time it shows. */
  lemma ParseFormatTimer(t: int)
    requires t >= 0
    ensures ParseTimer(FormatTimer(t)) == Some(t)
  {
    var q, r := t / 60, t % 60;
    var mm := Pad2(Decimal(q));
    var ss := Pad2(Decimal(r));
    FormatTimerShape(t);
    assert q * 60 + r == t;
    ParseTimerAt(FormatTimer(t), mm, ss, t);
  }

  lemma ParseTimerAt(d: string, mm: string, ss: string, t: int)
    requires d == mm + ":" + ss && AllDigits(mm) && AllDigits(ss) && |ss| == 2
    requires DigitsValue(mm) * 60 + DigitsValue(ss) == t
    ensures ParseTimer(d) == Some(t)
  {
    ParseTimerOf(mm, ss);
  }

  /** A display of digits, a colon and two digits reads back as minutes
      and seconds. */
  lemma ParseTimerOf(mm: string, ss: string)
    requires AllDigits(mm) && AllDigits(ss) && |ss| == 2
    ensures ParseTimer(mm + ":" + ss) == Some(DigitsValue(mm) * 60 + DigitsValue(ss))
  {
    var parts := [mm, ss];
    var d := mm + [':'] + ss;
    DigitsNoColon(mm);
    DigitsNoColon(ss);
    assert Join(parts, [':']) == d by {
      assert parts[1..] == [ss];
    }
    SplitJoin(parts, ':');
    assert Split(d, ':') == parts;
    assert d == mm + ":" + ss;
  }

  lemma DigitsNoColon(s: string)
    requires AllDigits(s)
    ensures ':' !in s
  {
  }

  // ----- the timer -----

  /** `timerInterval`: null, an interval that is running, or the id of one
      that the callback cleared when the time ran out (it is not reset to
      null then, so later code still finds it truthy). */
  datatype Interval = NoInterval | Running | Cleared

  class PomodoroTimer {
    var seconds: int
    var paused: bool
    var interval: Interval
    /** The text of the `#timer` element. */
    var display: string
    /** The durations, in minutes, passed to `saveSession` by `timerComplete`. */
    var completed: seq<int>

    /** The page's initial state. */
    constructor (initialDisplay: string)
      ensures seconds == 0 && !paused && interval == NoInterval
      ensures display == initialDisplay && completed == []
    {
      seconds := 0;
      paused := false;
      interval := NoInterval;
      display := initialDisplay;
      completed := [];
    }

    /** `startTimer`: loads the minutes unless resuming from a pause, and
      replaces any interval by a running one. */
    method Start(input: string)
      modifies this
      ensures seconds == if old(paused) then old(seconds) else ResolveMinutes(input) * 60
      ensures !paused && interval == Running
      ensures display == old(display) && completed == old(completed)
    {
      var minutes := ResolveMinutes(input);
      if !paused {
        seconds := minutes * 60;
      }
      paused := false;
      interval := Running;
    }

    /** `pauseTimer`: keeps the remaining time and stops the interval. */
    method Pause()
      modifies this
      ensures paused && interval == NoInterval
      ensures seconds == old(seconds) && display == old(display) && completed == old(completed)
    {
      paused := true;
      interval := NoInterval;
    }

    /** `resetTimer`: stops the interval, clears the pause and shows the
      full time again. */
    method Reset(input: string)
      modifies this
      ensures !paused && interval == NoInterval
      ensures seconds == ResolveMinutes(input) * 60 && display == FormatTimer(seconds)
      ensures completed == old(completed)
    {
      var minutes := ResolveMinutes(input);
      var total := minutes * 60;
      var text := FormatTimer(total);
      paused := false;
      interval := NoInterval;
      seconds := total;
      display := text;
    }

    /** The interval's callback: one second off while time remains;
      otherwise the interval is cleared and the session completes, saving
      the minutes the input holds then. */
    method Tick(input: string)
      requires interval == Running
      modifies this
      ensures old(seconds) > 0 ==>
                seconds == old(seconds) - 1 && display == FormatTimer(seconds)
                && interval == Running && completed == old(completed)
      ensures old(seconds) <= 0 ==>
                seconds == old(seconds) && display == old(display)
                && interval == Cleared && completed == old(completed) + [ResolveMinutes(input)]
      ensures old(seconds) >= 0 ==> seconds >= 0
      ensures paused == old(paused)
    {
      if seconds > 0 {
        seconds := seconds - 1;
        display := FormatTimer(seconds);
      } else {
        interval := Cleared;
        completed := completed + [ResolveMinutes(input)];
      }
    }
  }
}
