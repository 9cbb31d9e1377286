/** `parse_time`: a GTFS `departure_time` ("H:MM:SS", hours allowed past 24
    for trips that run after midnight) read into a time of day. */
module GtfsTime {
  import opened Wrappers
  import opened Text

  datatype Time = Time(hour: int, minute: int, second: int)

  /** Seconds since midnight: the order `datetime.time` values compare in. */
  function Seconds(t: Time): int {
    t.hour * 3600 + t.minute * 60 + t.second
  }

  predicate IsDigit(c: char) { '0' <= c <= '9' }

  predicate AllDigits(s: string) {
    forall i :: 0 <= i < |s| ==> IsDigit(s[i])
  }

  function DigitsValue(s: string): nat
    requires AllDigits(s)
  {
    if s == [] then 0 else DigitsValue(s[..|s| - 1]) * 10 + (s[|s| - 1] as int - '0' as int)
  }

  /** What Python's `int()` accepts once surrounding whitespace is stripped:
      an optional sign followed by decimal digits. */
  predicate IsIntLiteral(t: string) {
    (|t| > 0 && AllDigits(t)) || (|t| > 1 && (t[0] == '+' || t[0] == '-') && AllDigits(t[1..]))
  }

  /** Python's `int(s)` on a string; None where it raises ValueError. */
  function ParseInt(s: string): Option<int>
  {
    var t := Trim(s);
    if !IsIntLiteral(t) then None
    else if AllDigits(t) then Some(DigitsValue(t))
    else
      var magnitude: int := DigitsValue(t[1..]);
      if t[0] == '-' then Some(-magnitude) else Some(magnitude)
  }

  /** `parse_time`: split on ':' into exactly three integers, take 24 off an
      hour of 24 or more once, then keep the value only if `strptime` with
      "%H:%M:%S" accepts the zero-padded fields (hour 0-23, minute and
      second 0-59). Every failure is None, as the bare `except` makes it. */
  function ParseTime(t: string): (r: Option<Time>)
    ensures r.Some? ==> 0 <= r.value.hour < 24 && 0 <= r.value.minute < 60 && 0 <= r.value.second < 60
    ensures r.Some? ==> Count(t, ':') == 2
  {
    var fields := Split(t, ':');
    if |fields| != 3 then None
    else
      var h, m, s := ParseInt(fields[0]), ParseInt(fields[1]), ParseInt(fields[2]);
      if h.Some? && m.Some? && s.Some? then OfFields(h.value, m.value, s.value) else None
  }

  /** `int()` raises on a field holding a character that is neither a
      digit, a sign nor whitespace. */
  lemma ParseIntRejects(s: string, i: int)
    requires 0 <= i < |s|
    requires !IsDigit(s[i]) && s[i] != '+' && s[i] != '-' && !IsSpace(s[i])
    ensures ParseInt(s) == None
  {
    TrimKeeps(s, i);
    var t := Trim(s);
    var j :| 0 <= j < |t| && t[j] == s[i];
    if j > 0 {
      assert t[1..][j - 1] == t[j];
    }
  }

  /** A field that `int()` rejects makes the whole time None. */
  lemma ParseTimeRejectsNonInteger(t: string)
    requires |Split(t, ':')| == 3
    requires ParseInt(Split(t, ':')[0]).None? || ParseInt(Split(t, ':')[1]).None? || ParseInt(Split(t, ':')[2]).None?
    ensures ParseTime(t) == None
  {
  }

  /** The three integers once unpacked: 24 taken off a late hour, then the
      ranges `strptime` accepts. */
  function OfFields(h: int, m: int, s: int): (r: Option<Time>)
    ensures r.Some? ==> 0 <= r.value.hour < 24 && 0 <= r.value.minute < 60 && 0 <= r.value.second < 60
  {
    var hour := if h >= 24 then h - 24 else h;
    if 0 <= hour < 24 && 0 <= m < 60 && 0 <= s < 60 then Some(Time(hour, m, s)) else None
  }

  function Digit(d: nat): char
    requires d < 10
  {
    ('0' as int + d) as char
  }

  /** Two-digit zero-padded decimal, as `f"{n:02}"` writes it. */
  function Pad2(n: nat): string
    requires n < 100
  {
    [Digit(n / 10), Digit(n % 10)]
  }

  lemma ParseIntPad2(n: nat)
    requires n < 100
    ensures ParseInt(Pad2(n)) == Some(n)
  {
    var p := Pad2(n);
    assert AllSpace([]);
    TrimPadded([], p, []);
    assert [] + p + [] == p;
    assert AllDigits(p);
    assert p[..1] == [Digit(n / 10)];
    assert DigitsValue(p[..1]) == n / 10 by {
      assert p[..1][..0] == [];
    }
  }

  lemma SplitTime(a: string, b: string, c: string)
    requires ':' !in a && ':' !in b && ':' !in c
    ensures Split(a + ":" + b + ":" + c, ':') == [a, b, c]
  {
    assert a + ":" + b + ":" + c == a + [':'] + (b + [':'] + c);
    SplitConcat(a, b + [':'] + c, ':');
    SplitConcat(b, c, ':');
    SplitNoSep(c, ':');
  }

  /** `ParseTime` once the three fields are known. */
  lemma ParseTimeOfFields(t: string, a: string, b: string, c: string, h: int, m: int, s: int)
    requires Split(t, ':') == [a, b, c]
    requires ParseInt(a) == Some(h) && ParseInt(b) == Some(m) && ParseInt(c) == Some(s)
    ensures ParseTime(t) == OfFields(h, m, s)
  {
  }

  /** A well-formed GTFS time with an hour below 48 parses, with 24 taken off
      the hour at most once. */
  lemma ParseTimeWellFormed(h: nat, m: nat, s: nat)
    requires h < 48 && m < 60 && s < 60
    ensures ParseTime(Pad2(h) + ":" + Pad2(m) + ":" + Pad2(s)) == Some(Time(if h >= 24 then h - 24 else h, m, s))
  {
    SplitTime(Pad2(h), Pad2(m), Pad2(s));
    ParseIntPad2(h);
    ParseIntPad2(m);
    ParseIntPad2(s);
    ParseTimeOfFields(Pad2(h) + ":" + Pad2(m) + ":" + Pad2(s), Pad2(h), Pad2(m), Pad2(s), h, m, s);
  }

  /** An hour of 48 or more is still 24 or more after the single reduction,
      so the time is rejected ("48:00:00" gives None). */
  lemma ParseTimeRejectsLateHour(h: nat, m: nat, s: nat)
    requires 48 <= h < 100 && m < 60 && s < 60
    ensures ParseTime(Pad2(h) + ":" + Pad2(m) + ":" + Pad2(s)) == None
  {
    var t := Pad2(h) + ":" + Pad2(m) + ":" + Pad2(s);
    assert OfFields(h, m, s) == None;
    SplitTime(Pad2(h), Pad2(m), Pad2(s));
    ParseIntPad2(h);
    ParseIntPad2(m);
    ParseIntPad2(s);
    ParseTimeOfFields(t, Pad2(h), Pad2(m), Pad2(s), h, m, s);
  }

  /** Minutes or seconds of 60 or more are rejected. */
  lemma ParseTimeRejectsOutOfRange(h: nat, m: nat, s: nat)
    requires h < 48 && m < 100 && s < 100 && (m >= 60 || s >= 60)
    ensures ParseTime(Pad2(h) + ":" + Pad2(m) + ":" + Pad2(s)) == None
  {
    assert OfFields(h, m, s) == None;
    SplitTime(Pad2(h), Pad2(m), Pad2(s));
    ParseIntPad2(h);
    ParseIntPad2(m);
    ParseIntPad2(s);
    ParseTimeOfFields(Pad2(h) + ":" + Pad2(m) + ":" + Pad2(s), Pad2(h), Pad2(m), Pad2(s), h, m, s);
  }

  /** Two fields, as in "7:30", are rejected. */
  lemma ParseTimeRejectsTwoFields(a: string, b: string)
    requires ':' !in a && ':' !in b
    ensures ParseTime(a + ":" + b) == None
  {
    assert a + ":" + b == a + [':'] + b;
    SplitConcat(a, b, ':');
    SplitNoSep(b, ':');
  }
}
