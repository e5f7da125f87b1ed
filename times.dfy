/**
 * Times of day as the application stores them: the time picker writes
 * `str(time)` ("HH:MM:SS"), and the aggregation reads them back with
 * `datetime.strptime(text, "%H:%M:%S")`. A parsed time is its number of
 * seconds since midnight; the difference of two parsed times is what
 * `(end - start).total_seconds()` gives, both being on the same default date.
 */
module Times {
  import opened Options
  import opened Text

  const SecondsPerDay: nat := 86400

  /** One `%H`, `%M` or `%S` field: one or two ASCII digits, at most `max`. */
  function Field(s: string, max: nat): (r: Option<nat>)
    ensures r.Some? ==> r.value <= max
  {
    if 1 <= |s| <= 2 && AllDigits(s) && DigitsValue(s) <= max then Some(DigitsValue(s)) else None
  }

  /**
   * `strptime(s, "%H:%M:%S")` as seconds since midnight, `None` where it raises
   * `ValueError`. Hours run to 23, minutes to 59; the format's pattern admits
   * seconds 60 and 61 but building the `datetime` then fails, so 59 is the last.
   */
  function ParseTime(s: string): (r: Option<nat>)
    ensures r.Some? ==> r.value < SecondsPerDay
  {
    var parts := Split(s, ':');
    if |parts| == 3 && Field(parts[0], 23).Some? && Field(parts[1], 59).Some? && Field(parts[2], 59).Some? then
      Some(Field(parts[0], 23).value * 3600 + Field(parts[1], 59).value * 60 + Field(parts[2], 59).value)
    else
      None
  }

  /** `str(t)` of a `datetime.time` with no microseconds: "HH:MM:SS". */
  function FormatTime(t: nat): (s: string)
    requires t < SecondsPerDay
    ensures |s| == 8
  {
    Pad2(t / 3600) + ":" + Pad2(t / 60 % 60) + ":" + Pad2(t % 60)
  }

  /** What the time picker writes, the aggregation reads back unchanged. */
  lemma {:induction false} ParseFormatTime(t: nat)
    requires t < SecondsPerDay
    ensures ParseTime(FormatTime(t)) == Some(t)
  {
    var h, m, sec := Pad2(t / 3600), Pad2(t / 60 % 60), Pad2(t % 60);
    SplitClock(h, m, sec);
    ClockDigits(t);
    FieldPad2(t / 3600, 23);
    FieldPad2(t / 60 % 60, 59);
    FieldPad2(t % 60, 59);
  }

  /** A two-digit field within its bound reads back as its number. */
  lemma {:induction false} FieldPad2(n: nat, max: nat)
    requires n <= max < 100
    ensures Field(Pad2(n), max) == Some(n)
  {
  }

  /** Three digit fields joined by ':' split back into those three fields. */
  lemma {:induction false} SplitClock(h: string, m: string, sec: string)
    requires AllDigits(h) && AllDigits(m) && AllDigits(sec)
    ensures Split(h + ":" + m + ":" + sec, ':') == [h, m, sec]
  {
    assert forall k :: 0 <= k < |h| ==> h[k] != ':';
    assert forall k :: 0 <= k < |m| ==> m[k] != ':';
    assert forall k :: 0 <= k < |sec| ==> sec[k] != ':';
    SplitAtSeparator(h, ':', m + ":" + sec);
    SplitAtSeparator(m, ':', sec);
    SplitNoSeparator(sec, ':');
    assert h + ":" + m + ":" + sec == h + [':'] + (m + [':'] + sec);
  }

  /** Hours, minutes and seconds of a time of day put back together give that time. */
  lemma {:induction false} ClockDigits(t: nat)
    requires t < SecondsPerDay
    ensures t / 3600 <= 23
    ensures (t / 3600) * 3600 + (t / 60 % 60) * 60 + t % 60 == t
  {
    var q := t / 60;
    assert t == q * 60 + t % 60;
    assert q == (q / 60) * 60 + q % 60;
    assert q / 60 == t / 3600;
  }

  /** A text with no ':' is never a time (the placeholders "开始时间" and "结束时间" among them). */
  lemma {:induction false} NoColonNoTime(s: string)
    requires forall k :: 0 <= k < |s| ==> s[k] != ':'
    ensures ParseTime(s) == None
  {
    SplitNoSeparator(s, ':');
  }
}
