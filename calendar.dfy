/**
 * Dates and date-times as Python's `datetime` module represents them, with the
 * fixed layouts the aggregator reads and writes:
 *   `%d/%m/%Y`, `%Y-%m-%d`, `%Y-%m-%dT%H:%M:%S.%fZ`, and the ISO 8601 form of
 *   `datetime.isoformat` / `datetime.fromisoformat` (restricted grammar, see README).
 */
module Calendar {
  import opened Wrappers
  import opened Text

  datatype Date = Date(year: int, month: int, day: int)

  /** A `datetime`; `offset` is the UTC offset in minutes, None for a naive value. */
  datatype DateTime = DateTime(date: Date, hour: int, minute: int, second: int,
                               micro: int, offset: Option<int>)

  /**
   * A Python value held in a date field: `None`, an `int`, a `str`, a `date`
   * or a `datetime` (which Python also counts as a `date`).
   */
  datatype Value = VNone | VInt(i: int) | VStr(s: string) | VDate(d: Date) | VDateTime(dt: DateTime)

  predicate IsLeapYear(y: int) {
    y % 4 == 0 && (y % 100 != 0 || y % 400 == 0)
  }

  function DaysInMonth(y: int, m: int): (n: int)
    requires 1 <= m <= 12
    ensures 28 <= n <= 31
  {
    if m == 2 then (if IsLeapYear(y) then 29 else 28)
    else if m == 4 || m == 6 || m == 9 || m == 11 then 30
    else 31
  }

  /** The range `datetime.date` accepts. */
  predicate ValidDate(d: Date) {
    1 <= d.year <= 9999 && 1 <= d.month <= 12 && 1 <= d.day <= DaysInMonth(d.year, d.month)
  }

  predicate ValidOffset(o: Option<int>) {
    o.Some? ==> -1440 < o.value < 1440
  }

  predicate ValidDateTime(dt: DateTime) {
    ValidDate(dt.date) && 0 <= dt.hour < 24 && 0 <= dt.minute < 60 && 0 <= dt.second < 60
    && 0 <= dt.micro < 1000000 && ValidOffset(dt.offset)
  }

  /** `datetime(d.year, d.month, d.day)`: naive, at midnight. */
  function Midnight(d: Date): (dt: DateTime)
    ensures dt.date == d && dt.offset.None?
    ensures ValidDate(d) ==> ValidDateTime(dt)
  {
    DateTime(d, 0, 0, 0, 0, None)
  }

  /* ---------- %d/%m/%Y ---------- */

  /** `date.strftime("%d/%m/%Y")`. */
  function FormatDmy(d: Date): (s: string)
    requires ValidDate(d)
    ensures |s| == 10 && s[2] == '/' && s[5] == '/'
  {
    Pad(d.day, 2) + "/" + Pad(d.month, 2) + "/" + Pad(d.year, 4)
  }

  /** Three parsed fields assembled into a date, if it exists in the calendar. */
  function MakeDate(y: Option<nat>, m: Option<nat>, d: Option<nat>): (r: Option<Date>)
    ensures r.Some? ==> ValidDate(r.value)
  {
    if y.Some? && m.Some? && d.Some? && ValidDate(Date(y.value, m.value, d.value))
    then Some(Date(y.value, m.value, d.value)) else None
  }

  /** `datetime.strptime(s, "%d/%m/%Y")`, two-digit day and month, four-digit year. */
  function ParseDmy(s: string): (r: Option<Date>)
    ensures r.Some? ==> ValidDate(r.value)
  {
    if |s| == 10 && s[2] == '/' && s[5] == '/'
    then MakeDate(ParseNat(s[6..10]), ParseNat(s[3..5]), ParseNat(s[0..2]))
    else None
  }

  lemma ParseFormatDmy(d: Date)
    requires ValidDate(d)
    ensures ParseDmy(FormatDmy(d)) == Some(d)
  {
    var s := FormatDmy(d);
    assert s[0..2] == Pad(d.day, 2);
    assert s[3..5] == Pad(d.month, 2);
    assert s[6..10] == Pad(d.year, 4);
    ParsePad(d.day, 2);
    ParsePad(d.month, 2);
    ParsePad(d.year, 4);
  }

  /* ---------- %Y-%m-%d ---------- */

  /** `date.isoformat()`, equivalently `date.strftime("%Y-%m-%d")`. */
  function FormatYmd(d: Date): (s: string)
    requires ValidDate(d)
    ensures |s| == 10 && s[4] == '-' && s[7] == '-'
  {
    Pad(d.year, 4) + "-" + Pad(d.month, 2) + "-" + Pad(d.day, 2)
  }

  /** `datetime.strptime(s, "%Y-%m-%d").date()`, fixed widths. */
  function ParseYmd(s: string): (r: Option<Date>)
    ensures r.Some? ==> ValidDate(r.value)
  {
    if |s| == 10 && s[4] == '-' && s[7] == '-'
    then MakeDate(ParseNat(s[0..4]), ParseNat(s[5..7]), ParseNat(s[8..10]))
    else None
  }

  lemma ParseFormatYmd(d: Date)
    requires ValidDate(d)
    ensures ParseYmd(FormatYmd(d)) == Some(d)
  {
    var s := FormatYmd(d);
    assert s[0..4] == Pad(d.year, 4);
    assert s[5..7] == Pad(d.month, 2);
    assert s[8..10] == Pad(d.day, 2);
    ParsePad(d.day, 2);
    ParsePad(d.month, 2);
    ParsePad(d.year, 4);
  }

  /** A date rendered as `dd/mm/yyyy` never reads as `yyyy-mm-dd`. */
  lemma DmyIsNotYmd(d: Date)
    requires ValidDate(d)
    ensures ParseYmd(FormatDmy(d)).None?
  {
    var s := FormatDmy(d);
    assert s[4] == Pad(d.month, 2)[1];
  }

  /* ---------- time of day ---------- */

  /** `HH:MM:SS`. */
  function FormatClock(h: nat, m: nat, s: nat): (r: string)
    ensures |r| == 8 && r[2] == ':' && r[5] == ':'
  {
    Pad(h, 2) + ":" + Pad(m, 2) + ":" + Pad(s, 2)
  }

  /** The three fields of an `HH:MM:SS` string, when it has that shape. */
  function ParseClock(s: string): (r: Option<(nat, nat, nat)>)
    ensures r.Some? ==> r.value.0 < 24 && r.value.1 < 60 && r.value.2 < 60
  {
    if |s| == 8 && s[2] == ':' && s[5] == ':' then
      var h, m, sec := ParseNat(s[0..2]), ParseNat(s[3..5]), ParseNat(s[6..8]);
      if h.Some? && m.Some? && sec.Some? && h.value < 24 && m.value < 60 && sec.value < 60
      then Some((h.value, m.value, sec.value)) else None
    else None
  }

  lemma ParseFormatClock(h: nat, m: nat, s: nat)
    requires h < 24 && m < 60 && s < 60
    ensures ParseClock(FormatClock(h, m, s)) == Some((h, m, s))
  {
    var r := FormatClock(h, m, s);
    assert r[0..2] == Pad(h, 2);
    assert r[3..5] == Pad(m, 2);
    assert r[6..8] == Pad(s, 2);
    ParsePad(h, 2);
    ParsePad(m, 2);
    ParsePad(s, 2);
  }

  /* ---------- %Y-%m-%dT%H:%M:%S.%fZ ---------- */

  /** `dt.strftime("%Y-%m-%dT%H:%M:%S.%fZ")` for a naive date-time (`%f` is six digits). */
  function FormatStamp(dt: DateTime): (s: string)
    requires ValidDateTime(dt)
  {
    FormatYmd(dt.date) + "T" + FormatClock(dt.hour, dt.minute, dt.second)
    + "." + Pad(dt.micro, 6) + "Z"
  }

  /**
   * `datetime.strptime(s, "%Y-%m-%dT%H:%M:%S.%fZ")`: the result is naive (the
   * literal `Z` is matched, not interpreted); `%f` takes one to six digits,
   * right-padded with zeros to microseconds.
   */
  function ParseStamp(s: string): (r: Option<DateTime>)
    ensures r.Some? ==> ValidDateTime(r.value) && r.value.offset.None?
  {
    if 22 <= |s| <= 27 && s[10] == 'T' && s[19] == '.' && s[|s| - 1] == 'Z' then
      var d, clock, frac := ParseYmd(s[0..10]), ParseClock(s[11..19]), ParseNat(s[20..|s| - 1]);
      if d.Some? && clock.Some? && frac.Some? then
        Some(DateTime(d.value, clock.value.0, clock.value.1, clock.value.2,
                      ScaleFraction(frac.value, |s| - 21), None))
      else None
    else None
  }

  /** `10^a * 10^b == 10^(a + b)`. */
  lemma {:induction false} Pow10Add(a: nat, b: nat)
    ensures Pow10(a) * Pow10(b) == Pow10(a + b)
  {
    if a > 0 {
      Pow10Add(a - 1, b);
    }
  }

  /** The microseconds of an `n`-digit fraction: the digits right-padded with zeros to six. */
  function ScaleFraction(frac: nat, n: nat): (micro: nat)
    requires 1 <= n <= 6 && frac < Pow10(n)
    ensures micro < 1000000
  {
    Pow10Add(n, 6 - n);
    assert Pow10(6) == 1000000;
    assert frac * Pow10(6 - n) < Pow10(n) * Pow10(6 - n);
    frac * Pow10(6 - n)
  }

  lemma ParseFormatStamp(dt: DateTime)
    requires ValidDateTime(dt) && dt.offset.None?
    ensures ParseStamp(FormatStamp(dt)) == Some(dt)
  {
    var s := FormatStamp(dt);
    assert |s| == 27;
    assert s[0..10] == FormatYmd(dt.date);
    assert s[11..19] == FormatClock(dt.hour, dt.minute, dt.second);
    assert s[20..26] == Pad(dt.micro, 6);
    ParseFormatYmd(dt.date);
    ParseFormatClock(dt.hour, dt.minute, dt.second);
    ParsePad(dt.micro, 6);
  }

  /* ---------- ISO 8601 (isoformat / fromisoformat) ---------- */

  /** `+HH:MM` / `-HH:MM` for an offset in minutes; empty for a naive value. */
  function FormatOffset(o: Option<int>): (s: string)
    requires ValidOffset(o)
    ensures o.None? ==> s == []
    ensures o.Some? ==> |s| == 6 && (s[0] == '+' || s[0] == '-') && s[3] == ':'
  {
    match o
    case None => []
    case Some(m) =>
      var a: nat := if m < 0 then -m else m;
      (if m < 0 then "-" else "+") + Pad(a / 60, 2) + ":" + Pad(a % 60, 2)
  }

  /** The offset text at the end of an ISO string: empty, or `±HH:MM`. */
  function ParseOffset(s: string): (r: Option<Option<int>>)
    ensures r.Some? ==> ValidOffset(r.value)
  {
    if s == [] then Some(None)
    else if |s| == 6 && (s[0] == '+' || s[0] == '-') && s[3] == ':' then
      var h, m := ParseNat(s[1..3]), ParseNat(s[4..6]);
      if h.Some? && m.Some? && h.value < 24 && m.value < 60 then
        var total := h.value * 60 + m.value;
        Some(Some(if s[0] == '-' then -total else total))
      else None
    else None
  }

  lemma ParseFormatOffset(o: Option<int>)
    requires ValidOffset(o)
    ensures ParseOffset(FormatOffset(o)) == Some(o)
  {
    if o.Some? {
      var m := o.value;
      var a: nat := if m < 0 then -m else m;
      var s := FormatOffset(o);
      assert s[1..3] == Pad(a / 60, 2);
      assert s[4..6] == Pad(a % 60, 2);
      ParsePad(a / 60, 2);
      ParsePad(a % 60, 2);
    }
  }

  /**
   * The fraction of a second after `HH:MM:SS`: absent, or `.` and three or
   * six digits. Returns the microseconds and the rest of the string.
   */
  function ParseFraction(s: string): (r: Option<(nat, string)>)
    ensures r.Some? ==> r.value.0 < 1000000
  {
    if |s| >= 7 && s[0] == '.' && AllDigits(s[1..7]) then
      var v := ParseNat(s[1..7]);
      assert Pow10(3) == 1000 && Pow10(6) == 1000 * Pow10(3);
      Some((v.value, s[7..]))
    else if |s| >= 4 && s[0] == '.' && AllDigits(s[1..4]) then
      var v := ParseNat(s[1..4]);
      assert Pow10(3) == 1000;
      Some((v.value * 1000, s[4..]))
    else if |s| > 0 && s[0] == '.' then None
    else Some((0, s))
  }

  /**
   * `datetime.isoformat()`: `YYYY-MM-DDTHH:MM:SS`, then `.ffffff` when the
   * microseconds are not zero, then the UTC offset of an aware value.
   */
  function FormatIso(dt: DateTime): (s: string)
    requires ValidDateTime(dt)
  {
    FormatYmd(dt.date) + "T" + FormatClock(dt.hour, dt.minute, dt.second)
    + (if dt.micro != 0 then "." + Pad(dt.micro, 6) else "")
    + FormatOffset(dt.offset)
  }

  /**
   * `datetime.fromisoformat(s)` over the grammar
   *   YYYY-MM-DD | YYYY-MM-DD 'T' HH:MM:SS [ '.' fff | '.' ffffff ] [ ('+'|'-') HH:MM ]
   */
  function ParseIso(s: string): (r: Option<DateTime>)
    ensures r.Some? ==> ValidDateTime(r.value)
  {
    if |s| < 10 then None
    else
      var d := ParseYmd(s[..10]);
      if d.None? then None
      else if |s| == 10 then Some(Midnight(d.value))
      else if |s| < 19 || s[10] != 'T' then None
      else
        var clock := ParseClock(s[11..19]);
        var frac := ParseFraction(s[19..]);
        if clock.None? || frac.None? then None
        else
          var off := ParseOffset(frac.value.1);
          if off.None? then None
          else Some(DateTime(d.value, clock.value.0, clock.value.1, clock.value.2,
                             frac.value.0, off.value))
  }

  lemma ParseFormatIso(dt: DateTime)
    requires ValidDateTime(dt)
    ensures ParseIso(FormatIso(dt)) == Some(dt)
  {
    var s := FormatIso(dt);
    IsoPieces(dt);
    ParseFormatYmd(dt.date);
    assert ParseYmd(s[..10]) == Some(dt.date);
    ParseFormatClock(dt.hour, dt.minute, dt.second);
    assert ParseClock(s[11..19]) == Some((dt.hour, dt.minute, dt.second));
    ParseFormatTail(dt.micro, dt.offset);
    assert ParseFraction(s[19..]) == Some((dt.micro, FormatOffset(dt.offset)));
    ParseFormatOffset(dt.offset);
  }

  /** Where the date, the clock and the rest sit in `isoformat` text. */
  lemma IsoPieces(dt: DateTime)
    requires ValidDateTime(dt)
    ensures var s := FormatIso(dt);
      |s| >= 19 && s[..10] == FormatYmd(dt.date) && s[10] == 'T'
      && s[11..19] == FormatClock(dt.hour, dt.minute, dt.second)
      && s[19..] == (if dt.micro != 0 then "." + Pad(dt.micro, 6) else "") + FormatOffset(dt.offset)
  {
    var s := FormatIso(dt);
    var tail := (if dt.micro != 0 then "." + Pad(dt.micro, 6) else "") + FormatOffset(dt.offset);
    var p := FormatYmd(dt.date) + "T" + FormatClock(dt.hour, dt.minute, dt.second);
    assert s == p + tail;
    assert p[..10] == FormatYmd(dt.date);
    assert p[11..19] == FormatClock(dt.hour, dt.minute, dt.second);
  }

  /** The text after the seconds reads back as the microseconds and the offset text. */
  lemma ParseFormatTail(micro: nat, o: Option<int>)
    requires micro < 1000000 && ValidOffset(o)
    ensures ParseFraction((if micro != 0 then "." + Pad(micro, 6) else "") + FormatOffset(o))
            == Some((micro, FormatOffset(o)))
  {
    var tail := (if micro != 0 then "." + Pad(micro, 6) else "") + FormatOffset(o);
    if micro != 0 {
      assert tail[1..7] == Pad(micro, 6);
      assert tail[7..] == FormatOffset(o);
      assert Pow10(6) == 1000000;
      ParsePad(micro, 6);
    } else {
      assert tail == FormatOffset(o);
    }
  }

  /** A date rendered as `dd/mm/yyyy` is not ISO text. */
  lemma DmyIsNotIso(d: Date)
    requires ValidDate(d)
    ensures ParseIso(FormatDmy(d)).None?
  {
    var s := FormatDmy(d);
    assert s[..10] == s;
    DmyIsNotYmd(d);
  }

  /** `isoformat` text contains no `Z`, so `replace('Z', '+00:00')` leaves it alone. */
  lemma IsoHasNoZ(dt: DateTime)
    requires ValidDateTime(dt)
    ensures forall i :: 0 <= i < |FormatIso(dt)| ==> FormatIso(dt)[i] != 'Z'
  {
    var a := FormatYmd(dt.date);
    var b := FormatClock(dt.hour, dt.minute, dt.second);
    var c := if dt.micro != 0 then "." + Pad(dt.micro, 6) else "";
    var o := FormatOffset(dt.offset);
    assert forall i :: 0 <= i < |a| ==> a[i] != 'Z' by {
      assert a == Pad(dt.date.year, 4) + "-" + Pad(dt.date.month, 2) + "-" + Pad(dt.date.day, 2);
    }
    assert forall i :: 0 <= i < |b| ==> b[i] != 'Z';
    assert forall i :: 0 <= i < |c| ==> c[i] != 'Z';
    assert forall i :: 0 <= i < |o| ==> o[i] != 'Z';
    NoZConcat(a, "T");
    NoZConcat(a + "T", b);
    NoZConcat(a + "T" + b, c);
    NoZConcat(a + "T" + b + c, o);
  }

  lemma NoZConcat(x: string, y: string)
    requires forall i :: 0 <= i < |x| ==> x[i] != 'Z'
    requires forall i :: 0 <= i < |y| ==> y[i] != 'Z'
    ensures forall i :: 0 <= i < |x + y| ==> (x + y)[i] != 'Z'
  {
  }

  /** `dd/mm/yyyy` text contains no `Z`. */
  lemma DmyHasNoZ(d: Date)
    requires ValidDate(d)
    ensures forall i :: 0 <= i < |FormatDmy(d)| ==> FormatDmy(d)[i] != 'Z'
  {
    var a, b, c := Pad(d.day, 2), Pad(d.month, 2), Pad(d.year, 4);
    NoZConcat(a, "/");
    NoZConcat(a + "/", b);
    NoZConcat(a + "/" + b, "/");
    NoZConcat(a + "/" + b + "/", c);
  }
}
