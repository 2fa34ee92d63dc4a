/**
 * The shape of a line written by the two Go loggers through Go's standard `log` package with
 * its default flags: "YYYY/MM/DD HH:MM:SS " followed by the logger's indent, a symbol and the
 * message. This is the format that the log parser of internal/api_helpers.go reads back.
 */
module LogLine {
  import opened Wrappers
  import opened Strings

  datatype DateTime = DateTime(year: int, month: int, day: int, hour: int, minute: int, second: int)

  predicate IsLeapYear(y: int) {
    y % 4 == 0 && (y % 100 != 0 || y % 400 == 0)
  }

  /** Days in a month of the proleptic Gregorian calendar, as Go's time package counts them. */
  function DaysIn(month: int, year: int): (r: int)
    requires 1 <= month <= 12
    ensures 28 <= r <= 31
  {
    if month == 2 then (if IsLeapYear(year) then 29 else 28)
    else if month == 4 || month == 6 || month == 9 || month == 11 then 30
    else 31
  }

  /** The ranges the layout's elements check as they are read: the day is only two digits so far. */
  predicate InLayoutRange(t: DateTime) {
    && 0 <= t.year <= 9999 && 1 <= t.month <= 12 && 0 <= t.day < 100
    && 0 <= t.hour < 24 && 0 <= t.minute < 60 && 0 <= t.second < 60
  }

  /** The values the layout "2006/01/02 15:04:05" can read: a four-digit year and in-range fields. */
  predicate ValidDateTime(t: DateTime) {
    && 0 <= t.year <= 9999 && 1 <= t.month <= 12 && 1 <= t.day <= DaysIn(t.month, t.year)
    && 0 <= t.hour < 24 && 0 <= t.minute < 60 && 0 <= t.second < 60
  }

  predicate IsDigit(c: char) {
    '0' <= c <= '9'
  }

  function DigitValue(c: char): (r: int)
    requires IsDigit(c)
    ensures 0 <= r <= 9
  {
    c as int - '0' as int
  }

  function DigitChar(d: int): (c: char)
    requires 0 <= d <= 9
    ensures IsDigit(c) && DigitValue(c) == d
  {
    ('0' as int + d) as char
  }

  /** The two-digit field `n`, zero-padded. */
  function Pad2(n: int): (s: string)
    requires 0 <= n < 100
    ensures |s| == 2 && IsDigit(s[0]) && IsDigit(s[1])
  {
    [DigitChar(n / 10), DigitChar(n % 10)]
  }

  /** The four-digit field `n`, zero-padded. */
  function Pad4(n: int): (s: string)
    requires 0 <= n < 10000
    ensures |s| == 4 && forall i :: 0 <= i < 4 ==> IsDigit(s[i])
  {
    [DigitChar(n / 1000), DigitChar(n / 100 % 10), DigitChar(n / 10 % 10), DigitChar(n % 10)]
  }

  /** The text of a stamp: `spaces` spaces between the date and the clock, the hour in `hourWidth` digits. */
  function StampText(t: DateTime, spaces: nat, hourWidth: nat): string
    requires ValidDateTime(t) && (hourWidth == 2 || (hourWidth == 1 && t.hour < 10))
  {
    Pad4(t.year) + ("/" + (Pad2(t.month) + ("/" + (Pad2(t.day) + (Strings.Repeat(" ", spaces) +
    ((if hourWidth == 1 then [DigitChar(t.hour)] else Pad2(t.hour)) + (":" + (Pad2(t.minute) + (":" + Pad2(t.second))))))))))
  }

  /** Writes a date and time the way the `log` package stamps each line: zero-padded, one space. */
  function FormatTimestamp(t: DateTime): (s: string)
    requires ValidDateTime(t)
    ensures |s| == 19
    ensures s == Pad4(t.year) + "/" + Pad2(t.month) + "/" + Pad2(t.day) + " " +
      Pad2(t.hour) + ":" + Pad2(t.minute) + ":" + Pad2(t.second)
    ensures Bytes(s) == Stamp(t, 1, 2, [])
  {
    TextBytes(t, 1, 2);
    StampText(t, 1, 2)
  }

  /** The other stamp of a 19-byte value that Go's parser reads: two spaces and a one-digit hour. */
  function ShortHourStamp(t: DateTime): (s: string)
    requires ValidDateTime(t) && t.hour < 10
    ensures |s| == 19
    ensures s == Pad4(t.year) + "/" + Pad2(t.month) + "/" + Pad2(t.day) + "  " +
      [DigitChar(t.hour)] + ":" + Pad2(t.minute) + ":" + Pad2(t.second)
    ensures Bytes(s) == Stamp(t, 2, 1, [])
  {
    TextBytes(t, 2, 1);
    StampText(t, 2, 1)
  }

  // ---------------------------------------------------------------- reading a stamp back

  /**
   * `time.Parse("2006/01/02 15:04:05", value)` reads bytes: the layout elements in turn, each
   * consuming a prefix of the value, then checks that nothing is left and the day fits the month.
   */

  const Slash: Byte := 0x2F
  const Colon: Byte := 0x3A
  const Space: Byte := 0x20

  predicate IsDigitByte(b: Byte) {
    0x30 <= b <= 0x39
  }

  function DigitOf(b: Byte): (r: int)
    requires IsDigitByte(b)
    ensures 0 <= r <= 9
  {
    b as int - 0x30
  }

  /** The byte of the decimal digit `d`. */
  function Digit(d: int): (b: Byte)
    requires 0 <= d <= 9
    ensures IsDigitByte(b) && DigitOf(b) == d
  {
    (0x30 + d) as Byte
  }

  function Digits2(n: int): seq<Byte>
    requires 0 <= n < 100
  {
    [Digit(n / 10), Digit(n % 10)]
  }

  function Digits4(n: int): seq<Byte>
    requires 0 <= n < 10000
  {
    [Digit(n / 1000), Digit(n / 100 % 10), Digit(n / 10 % 10), Digit(n % 10)]
  }

  /** `n` written in one digit or in two. */
  function NumBytes(n: int, width: nat): seq<Byte>
    requires (width == 1 && 0 <= n < 10) || (width == 2 && 0 <= n < 100)
  {
    if width == 1 then [Digit(n)] else Digits2(n)
  }

  function Spaces(k: nat): (r: seq<Byte>)
    ensures |r| == k && forall i :: 0 <= i < k ==> r[i] == Space
  {
    if k == 0 then [] else [Space] + Spaces(k - 1)
  }

  /** A number read from the value, and what is left of the value after it. */
  datatype Read = Read(n: int, rest: seq<Byte>)

  /** `getnum`: one or two leading digits; a zero-padded element (`fixed`) demands two. */
  function GetNum(v: seq<Byte>, fixed: bool): (r: Option<Read>)
    ensures r.Some? ==> var w := |v| - |r.value.rest|;
      && (w == 2 || (w == 1 && !fixed))
      && 0 <= r.value.n < (if w == 1 then 10 else 100)
      && v == NumBytes(r.value.n, w) + r.value.rest
  {
    if |v| == 0 || !IsDigitByte(v[0]) then None
    else if |v| == 1 || !IsDigitByte(v[1]) then
      if fixed then None else Some(Read(DigitOf(v[0]), v[1..]))
    else
      var n := 10 * DigitOf(v[0]) + DigitOf(v[1]);
      assert v == Digits2(n) + v[2..];
      Some(Read(n, v[2..]))
  }

  /** The layout's "2006": four bytes, the first a digit, all of which `atoi` must read. */
  function LongYear(v: seq<Byte>): (r: Option<Read>)
    ensures r.Some? ==> 0 <= r.value.n < 10000 && v == Digits4(r.value.n) + r.value.rest
  {
    if |v| < 4 || !IsDigitByte(v[0]) then None
    else if !(IsDigitByte(v[1]) && IsDigitByte(v[2]) && IsDigitByte(v[3])) then None
    else
      var a, b, c, d := DigitOf(v[0]), DigitOf(v[1]), DigitOf(v[2]), DigitOf(v[3]);
      var n := 1000 * a + 100 * b + 10 * c + d;
      assert n % 10 == d && n / 10 == 100 * a + 10 * b + c;
      assert n / 100 == 10 * a + b && n / 1000 == a;
      assert n / 10 % 10 == c && n / 100 % 10 == b;
      assert v == Digits4(n) + v[4..];
      Some(Read(n, v[4..]))
  }

  /** `skip` for a layout byte other than a space: the value must start with that byte. */
  function SkipByte(v: seq<Byte>, b: Byte): (r: Option<seq<Byte>>)
    ensures r.Some? ==> v == [b] + r.value
  {
    if |v| == 0 || v[0] != b then None else Some(v[1..])
  }

  /** `cutspace`: the value without its leading spaces. */
  function CutSpace(v: seq<Byte>): (r: seq<Byte>)
    ensures |r| <= |v| && v == Spaces(|v| - |r|) + r
    ensures r == [] || r[0] != Space
  {
    if |v| > 0 && v[0] == Space then
      var r := CutSpace(v[1..]);
      assert v == [Space] + v[1..];
      r
    else v
  }

  /**
   * `skip` for the layout's space: a value that starts with another byte fails; otherwise
   * every leading space of the value goes, however many there are.
   */
  function SkipSpace(v: seq<Byte>): (r: Option<seq<Byte>>)
    ensures r.Some? ==> |r.value| <= |v| && v == Spaces(|v| - |r.value|) + r.value
    ensures r.Some? ==> r.value == [] || r.value[0] != Space
    ensures r.Some? && v != [] ==> |r.value| < |v|
  {
    if |v| > 0 && v[0] != Space then None else Some(CutSpace(v))
  }

  /** Three numbers read from the value, and what is left of it. */
  datatype Read3 = Read3(a: int, b: int, c: int, rest: seq<Byte>)

  /** The date elements: the year, "/", the zero-padded month (1 to 12), "/", the zero-padded day. */
  function DateFields(v: seq<Byte>): (r: Option<Read3>)
    ensures r.Some? ==> var d := r.value;
      && 0 <= d.a < 10000 && 1 <= d.b <= 12 && 0 <= d.c < 100
      && v == Digits4(d.a) + ([Slash] + (Digits2(d.b) + ([Slash] + (Digits2(d.c) + d.rest))))
  {
    var year :- LongYear(v);
    var v1 :- SkipByte(year.rest, Slash);
    var month :- GetNum(v1, true);
    if !(1 <= month.n <= 12) then None else
    var v2 :- SkipByte(month.rest, Slash);
    var day :- GetNum(v2, true);
    Some(Read3(year.n, month.n, day.n, day.rest))
  }

  /**
   * The clock elements: the hour in one or two digits (below 24), ":", the zero-padded minute
   * (below 60), ":", the zero-padded second (below 60).
   */
  function ClockFields(v: seq<Byte>): (r: Option<Read3>)
    ensures r.Some? ==> var c := r.value; var w := |v| - |c.rest| - 6;
      && 0 <= c.a < 24 && 0 <= c.b < 60 && 0 <= c.c < 60 && (w == 2 || (w == 1 && c.a < 10))
      && v == NumBytes(c.a, w) + ([Colon] + (Digits2(c.b) + ([Colon] + (Digits2(c.c) + c.rest))))
  {
    var hour :- GetNum(v, false);
    if !(hour.n < 24) then None else
    var v1 :- SkipByte(hour.rest, Colon);
    var minute :- GetNum(v1, true);
    if !(minute.n < 60) then None else
    var v2 :- SkipByte(minute.rest, Colon);
    var second :- GetNum(v2, true);
    if !(second.n < 60) then None else
    Some(Read3(hour.n, minute.n, second.n, second.rest))
  }

  /** The layout's elements in turn: the date, the space, the clock. The day is checked later. */
  function Fields(v: seq<Byte>): (r: Option<(DateTime, seq<Byte>)>)
    ensures r.Some? ==> InLayoutRange(r.value.0)
  {
    var date :- DateFields(v);
    var v1 :- SkipSpace(date.rest);
    var clock :- ClockFields(v1);
    Some((DateTime(date.a, date.b, date.c, clock.a, clock.b, clock.c), clock.rest))
  }

  /**
   * `time.Parse("2006/01/02 15:04:05", s)` on the 19 bytes the log parser hands it: the fields,
   * then nothing left over ("extra text") and a day that exists in that month. Go would read a
   * fraction of a second after the seconds, but only with two bytes left there, and the fields
   * take at least 18 of the 19.
   */
  function ParseTimestamp(v: seq<Byte>): (r: Option<DateTime>)
    requires |v| == 19
    ensures r.Some? ==> ValidDateTime(r.value)
  {
    var fields :- Fields(v);
    var t := fields.0;
    if fields.1 != [] then None
    else if !(1 <= t.day <= DaysIn(t.month, t.year)) then None
    else Some(t)
  }

  /** The bytes of a stamp, element by element, followed by `rest`. */
  function Stamp(t: DateTime, spaces: nat, hourWidth: nat, rest: seq<Byte>): seq<Byte>
    requires InLayoutRange(t) && (hourWidth == 2 || (hourWidth == 1 && t.hour < 10))
  {
    Digits4(t.year) + ([Slash] + (Digits2(t.month) + ([Slash] + (Digits2(t.day) + (Spaces(spaces) +
    (NumBytes(t.hour, hourWidth) + ([Colon] + (Digits2(t.minute) + ([Colon] + (Digits2(t.second) + rest))))))))))
  }

  lemma LongYearOf(n: int, rest: seq<Byte>)
    requires 0 <= n < 10000
    ensures LongYear(Digits4(n) + rest) == Some(Read(n, rest))
  {
    var v := Digits4(n) + rest;
    assert v[..4] == Digits4(n) && v[4..] == rest;
    Digits4Sum(n);
  }

  /** A number below 10000 is the sum of its four decimal digits, each times its place. */
  lemma Digits4Sum(n: int)
    requires 0 <= n < 10000
    ensures 1000 * (n / 1000) + 100 * (n / 100 % 10) + 10 * (n / 10 % 10) + n % 10 == n
  {
    assert n / 10 == 10 * (n / 100) + n / 10 % 10;
    assert n / 100 == 10 * (n / 1000) + n / 100 % 10;
  }

  lemma GetNumOf(n: int, width: nat, rest: seq<Byte>, fixed: bool)
    requires (width == 1 && 0 <= n < 10 && !fixed) || (width == 2 && 0 <= n < 100)
    requires width == 1 ==> rest == [] || !IsDigitByte(rest[0])
    ensures GetNum(NumBytes(n, width) + rest, fixed) == Some(Read(n, rest))
  {
    var v := NumBytes(n, width) + rest;
    assert v[width..] == rest;
  }

  lemma {:induction false} CutSpaces(k: nat, rest: seq<Byte>)
    requires rest == [] || rest[0] != Space
    ensures CutSpace(Spaces(k) + rest) == rest
    decreases k
  {
    if k == 0 {
      assert Spaces(k) + rest == rest;
    } else {
      assert (Spaces(k) + rest)[1..] == Spaces(k - 1) + rest;
      CutSpaces(k - 1, rest);
    }
  }

  lemma DateFieldsOf(year: int, month: int, day: int, rest: seq<Byte>)
    requires 0 <= year < 10000 && 1 <= month <= 12 && 0 <= day < 100
    ensures DateFields(Digits4(year) + ([Slash] + (Digits2(month) + ([Slash] + (Digits2(day) + rest)))))
      == Some(Read3(year, month, day, rest))
  {
    var s0 := [Slash] + (Digits2(day) + rest);
    var r0 := [Slash] + (Digits2(month) + s0);
    LongYearOf(year, r0);
    GetNumOf(month, 2, s0, true);
    GetNumOf(day, 2, rest, true);
  }

  lemma ClockFieldsOf(hour: int, hourWidth: nat, minute: int, second: int, rest: seq<Byte>)
    requires 0 <= hour < 24 && 0 <= minute < 60 && 0 <= second < 60
    requires hourWidth == 2 || (hourWidth == 1 && hour < 10)
    ensures ClockFields(NumBytes(hour, hourWidth) + ([Colon] + (Digits2(minute) + ([Colon] + (Digits2(second) + rest)))))
      == Some(Read3(hour, minute, second, rest))
  {
    var s6 := [Colon] + (Digits2(second) + rest);
    var s4 := [Colon] + (Digits2(minute) + s6);
    GetNumOf(hour, hourWidth, s4, false);
    GetNumOf(minute, 2, s6, true);
    GetNumOf(second, 2, rest, true);
  }

  /** The parser reads back every stamp with at least one space, whatever follows it. */
  lemma FieldsOfStamp(t: DateTime, spaces: nat, hourWidth: nat, rest: seq<Byte>)
    requires InLayoutRange(t) && (hourWidth == 2 || (hourWidth == 1 && t.hour < 10)) && spaces >= 1
    ensures Fields(Stamp(t, spaces, hourWidth, rest)) == Some((t, rest))
  {
    var clock := NumBytes(t.hour, hourWidth) + ([Colon] + (Digits2(t.minute) + ([Colon] + (Digits2(t.second) + rest))));
    var afterDate := Spaces(spaces) + clock;
    DateFieldsOf(t.year, t.month, t.day, afterDate);
    assert SkipSpace(afterDate) == Some(clock) by {
      assert clock[0] != Space;
      CutSpaces(spaces, clock);
    }
    ClockFieldsOf(t.hour, hourWidth, t.minute, t.second, rest);
  }

  /**
   * Whatever the parser reads is a stamp: its fields, at least one space, and the hour in
   * one or two digits, followed by the rest of the value.
   */
  lemma FieldsShape(v: seq<Byte>) returns (spaces: nat, hourWidth: nat)
    requires Fields(v).Some?
    ensures var (t, rest) := Fields(v).value;
      && InLayoutRange(t) && spaces >= 1 && (hourWidth == 2 || (hourWidth == 1 && t.hour < 10))
      && v == Stamp(t, spaces, hourWidth, rest)
  {
    var date := DateFields(v).value;
    var v1 := SkipSpace(date.rest).value;
    var clock := ClockFields(v1).value;
    spaces := |date.rest| - |v1|;
    hourWidth := |v1| - |clock.rest| - 6;
    assert date.rest == Spaces(spaces) + v1;
    assert v1 != [];
  }

  lemma BytesDigit(d: int)
    requires 0 <= d <= 9
    ensures Bytes([DigitChar(d)]) == [Digit(d)]
  {
    assert [DigitChar(d)][1..] == [];
  }

  lemma BytesPad2(n: int)
    requires 0 <= n < 100
    ensures Bytes(Pad2(n)) == Digits2(n)
  {
    assert Pad2(n) == [DigitChar(n / 10)] + [DigitChar(n % 10)];
    BytesAppend([DigitChar(n / 10)], [DigitChar(n % 10)]);
    BytesDigit(n / 10);
    BytesDigit(n % 10);
  }

  lemma BytesPad4(n: int)
    requires 0 <= n < 10000
    ensures Bytes(Pad4(n)) == Digits4(n)
  {
    var a, b := [DigitChar(n / 1000), DigitChar(n / 100 % 10)], [DigitChar(n / 10 % 10), DigitChar(n % 10)];
    assert Pad4(n) == a + b;
    BytesAppend(a, b);
    BytesAppend([DigitChar(n / 1000)], [DigitChar(n / 100 % 10)]);
    assert a == [DigitChar(n / 1000)] + [DigitChar(n / 100 % 10)];
    BytesAppend([DigitChar(n / 10 % 10)], [DigitChar(n % 10)]);
    assert b == [DigitChar(n / 10 % 10)] + [DigitChar(n % 10)];
    BytesDigit(n / 1000);
    BytesDigit(n / 100 % 10);
    BytesDigit(n / 10 % 10);
    BytesDigit(n % 10);
  }

  lemma {:induction false} BytesSpaces(k: nat)
    ensures Bytes(Strings.Repeat(" ", k)) == Spaces(k)
  {
    if k > 0 {
      BytesAppend(" ", Strings.Repeat(" ", k - 1));
      BytesSpaces(k - 1);
    }
  }

  /** The clock's text, then `rest`, as bytes. */
  lemma ClockBytes(t: DateTime, hourWidth: nat, rest: string)
    requires ValidDateTime(t) && (hourWidth == 2 || (hourWidth == 1 && t.hour < 10))
    ensures var hour := if hourWidth == 1 then [DigitChar(t.hour)] else Pad2(t.hour);
      Bytes(hour + (":" + (Pad2(t.minute) + (":" + (Pad2(t.second) + rest)))))
      == NumBytes(t.hour, hourWidth) + ([Colon] + (Digits2(t.minute) + ([Colon] + (Digits2(t.second) + Bytes(rest)))))
  {
    var hour := if hourWidth == 1 then [DigitChar(t.hour)] else Pad2(t.hour);
    var second := Pad2(t.second) + rest;
    var c2 := ":" + second;
    var minute := Pad2(t.minute) + c2;
    var c1 := ":" + minute;
    BytesPad2(t.second);
    BytesAppend(Pad2(t.second), rest);
    BytesAppend(":", second);
    BytesPad2(t.minute);
    BytesAppend(Pad2(t.minute), c2);
    BytesAppend(":", minute);
    if hourWidth == 1 {
      BytesDigit(t.hour);
    } else {
      BytesPad2(t.hour);
    }
    BytesAppend(hour, c1);
  }

  /** The date's text, then `rest`, as bytes. */
  lemma DateBytes(t: DateTime, rest: string)
    requires ValidDateTime(t)
    ensures Bytes(Pad4(t.year) + ("/" + (Pad2(t.month) + ("/" + (Pad2(t.day) + rest)))))
      == Digits4(t.year) + ([Slash] + (Digits2(t.month) + ([Slash] + (Digits2(t.day) + Bytes(rest)))))
  {
    var day := Pad2(t.day) + rest;
    var s2 := "/" + day;
    var month := Pad2(t.month) + s2;
    var s1 := "/" + month;
    BytesPad2(t.day);
    BytesAppend(Pad2(t.day), rest);
    BytesAppend("/", day);
    BytesPad2(t.month);
    BytesAppend(Pad2(t.month), s2);
    BytesAppend("/", month);
    BytesPad4(t.year);
    BytesAppend(Pad4(t.year), s1);
  }

  /** The text of a stamp is ASCII, one byte per character, so its bytes are the stamp's bytes. */
  lemma TextBytes(t: DateTime, spaces: nat, hourWidth: nat)
    requires ValidDateTime(t) && (hourWidth == 2 || (hourWidth == 1 && t.hour < 10))
    ensures Bytes(StampText(t, spaces, hourWidth)) == Stamp(t, spaces, hourWidth, [])
  {
    var hour := if hourWidth == 1 then [DigitChar(t.hour)] else Pad2(t.hour);
    var clock := hour + (":" + (Pad2(t.minute) + (":" + (Pad2(t.second) + []))));
    assert Pad2(t.second) + [] == Pad2(t.second);
    ClockBytes(t, hourWidth, []);
    BytesSpaces(spaces);
    BytesAppend(Strings.Repeat(" ", spaces), clock);
    DateBytes(t, Strings.Repeat(" ", spaces) + clock);
  }

  lemma StampLength(t: DateTime, spaces: nat, hourWidth: nat, rest: seq<Byte>)
    requires InLayoutRange(t) && (hourWidth == 2 || (hourWidth == 1 && t.hour < 10))
    ensures |Stamp(t, spaces, hourWidth, rest)| == 16 + spaces + hourWidth + |rest|
  {
  }

  /** Every valid date and time is read back from the stamp the `log` package writes. */
  lemma FormatThenParse(t: DateTime)
    requires ValidDateTime(t)
    ensures ParseTimestamp(Bytes(FormatTimestamp(t))) == Some(t)
  {
    FieldsOfStamp(t, 1, 2, []);
  }

  /** Go also reads "2024/01/02  5:04:05": the layout's space takes a run of spaces, and "15" one digit. */
  lemma ShortHourThenParse(t: DateTime)
    requires ValidDateTime(t) && t.hour < 10
    ensures ParseTimestamp(Bytes(ShortHourStamp(t))) == Some(t)
  {
    FieldsOfStamp(t, 2, 1, []);
  }

  /**
   * Those are the only two: a 19-byte value that parses is the canonical stamp of what it
   * parses to, or, for an hour below 10, the stamp with two spaces and a one-digit hour.
   */
  lemma ParseThenFormat(v: seq<Byte>)
    requires |v| == 19 && ParseTimestamp(v).Some?
    ensures var t := ParseTimestamp(v).value;
      || v == Bytes(FormatTimestamp(t))
      || (t.hour < 10 && v == Bytes(ShortHourStamp(t)))
  {
    var t := ParseTimestamp(v).value;
    var spaces, hourWidth := FieldsShape(v);
    assert Fields(v) == Some((t, []));
    assert v == Stamp(t, spaces, hourWidth, []);
    StampLength(t, spaces, hourWidth, []);
    assert (spaces == 1 && hourWidth == 2) || (spaces == 2 && hourWidth == 1);
    if hourWidth == 2 {
      assert v == Bytes(FormatTimestamp(t));
    } else {
      assert v == Bytes(ShortHourStamp(t));
    }
  }

  predicate Ascii(v: seq<Byte>) {
    forall i :: 0 <= i < |v| ==> v[i] < 0x80
  }

  lemma AsciiAppend(a: seq<Byte>, b: seq<Byte>)
    requires Ascii(a) && Ascii(b)
    ensures Ascii(a + b)
  {
  }

  lemma StampAscii(t: DateTime, spaces: nat, hourWidth: nat, rest: seq<Byte>)
    requires InLayoutRange(t) && (hourWidth == 2 || (hourWidth == 1 && t.hour < 10)) && Ascii(rest)
    ensures Ascii(Stamp(t, spaces, hourWidth, rest))
  {
    var second := Digits2(t.second) + rest;
    AsciiAppend(Digits2(t.second), rest);
    var minute := Digits2(t.minute) + ([Colon] + second);
    AsciiAppend([Colon], second);
    AsciiAppend(Digits2(t.minute), [Colon] + second);
    var clock := NumBytes(t.hour, hourWidth) + ([Colon] + minute);
    AsciiAppend([Colon], minute);
    AsciiAppend(NumBytes(t.hour, hourWidth), [Colon] + minute);
    var day := Digits2(t.day) + (Spaces(spaces) + clock);
    AsciiAppend(Spaces(spaces), clock);
    AsciiAppend(Digits2(t.day), Spaces(spaces) + clock);
    var month := Digits2(t.month) + ([Slash] + day);
    AsciiAppend([Slash], day);
    AsciiAppend(Digits2(t.month), [Slash] + day);
    AsciiAppend([Slash], month);
    AsciiAppend(Digits4(t.year), [Slash] + month);
  }

  /** What the parser accepts is ASCII: digits, '/', ':' and spaces. */
  lemma ParsedAscii(v: seq<Byte>)
    requires |v| == 19 && ParseTimestamp(v).Some?
    ensures Ascii(v)
  {
    var spaces, hourWidth := FieldsShape(v);
    StampAscii(Fields(v).value.0, spaces, hourWidth, []);
  }

  // ---------------------------------------------------------------- logger output

  const Bar: char := '\U{2502}'          // │
  const Corner: char := '\U{2514}'       // └
  const Top: char := '\U{250C}'          // ┌
  const Dash: char := '\U{2500}'         // ─

  /** The indent for a nesting depth: "│  " once per level. */
  function Indent(depth: nat): (s: string)
    ensures |s| == 3 * depth
    ensures forall i :: 0 <= i < |s| ==> s[i] == Bar || s[i] == ' '
    ensures depth > 0 ==> s[0] == Bar && s[1] == ' '
  {
    if depth == 0 then [] else [Bar, ' ', ' '] + Indent(depth - 1)
  }

  /** The indent is "│  " repeated once per level, as `strings.Repeat` builds it. */
  lemma {:induction false} IndentIsRepeat(depth: nat)
    ensures Indent(depth) == Strings.Repeat([Bar, ' ', ' '], depth)
  {
    if depth > 0 {
      IndentIsRepeat(depth - 1);
    }
  }

  /** The depth `getIndent` leaves behind: a negative depth is reset to 0. */
  function Clamp(depth: int): nat {
    if depth < 0 then 0 else depth
  }

  /** The depth after `Enter`: the line goes out at the clamped depth, which then grows by one. */
  function DepthAfterEnter(depth: int): (r: nat)
    ensures r >= 1
  {
    Clamp(depth) + 1
  }

  /** The depth after `Exit`: one less when positive, then clamped by the line it writes. */
  function DepthAfterExit(depth: int): (r: nat)
    ensures r == if depth > 0 then depth - 1 else 0
  {
    Clamp(if depth > 0 then depth - 1 else depth)
  }

  /** `Exit` undoes `Enter`, from any depth the logger can be in. */
  lemma ExitUndoesEnter(depth: int)
    ensures DepthAfterExit(DepthAfterEnter(depth)) == Clamp(depth)
    ensures depth >= 0 ==> DepthAfterExit(DepthAfterEnter(depth)) == depth
  {
  }

  /** A run of calls to `Enter` (true) and `Exit` (false). */
  function DepthAfter(depth: int, calls: seq<bool>): (r: nat)
    decreases |calls|
  {
    if calls == [] then Clamp(depth)
    else DepthAfter(if calls[0] then DepthAfterEnter(depth) else DepthAfterExit(depth), calls[1..])
  }

  /** The nesting of a run of calls: opens minus closes, where a close at the top is lost. */
  predicate Balanced(calls: seq<bool>, open: nat)
    decreases |calls|
  {
    if calls == [] then open == 0
    else if calls[0] then Balanced(calls[1..], open + 1)
    else open > 0 && Balanced(calls[1..], open - 1)
  }

  /** A balanced run of `Enter`/`Exit` calls brings the depth back to where it started. */
  lemma {:induction false} BalancedRestoresDepth(depth: nat, calls: seq<bool>, open: nat)
    requires Balanced(calls, open)
    ensures DepthAfter(depth + open, calls) == depth
    decreases |calls|
  {
    if calls != [] {
      if calls[0] {
        BalancedRestoresDepth(depth, calls[1..], open + 1);
      } else {
        BalancedRestoresDepth(depth, calls[1..], open - 1);
      }
    }
  }

  const BeginPrefix: string := [Top, Dash]
  const EndPrefix: string := [Corner, Dash]

  /** The level symbols the loggers print; each is one code point. */
  const InfoSymbol: char := '\U{2139}'        // ℹ
  const SuccessSymbol: char := '\U{2713}'     // ✓
  const FailureSymbol: char := '\U{2717}'     // ✗
  const DebugSymbol: char := '\U{1F50D}'      // 🔍
  const NoticeSymbol: char := '\U{1F4DD}'     // 📝
  const WarnSymbol: char := '\U{26A0}'        // ⚠
  const ErrorSymbol: char := '\U{274C}'       // ❌
  const CriticalSymbol: char := '\U{1F525}'   // 🔥
  const AlertSymbol: char := '\U{1F6A8}'      // 🚨
  const EmergencySymbol: char := '\U{1F480}'  // 💀

  /** The line `log.Printf("%s%s %s", indent, prefix, message)` writes at time `stamp`. */
  function Line(stamp: DateTime, depth: nat, prefix: string, message: string): (s: string)
    requires ValidDateTime(stamp)
    ensures |s| >= 20 && s[..19] == FormatTimestamp(stamp) && s[19] == ' '
    ensures s[20..] == Indent(depth) + prefix + " " + message
  {
    var r := FormatTimestamp(stamp) + " " + Indent(depth) + prefix + " " + message;
    assert r[..19] == FormatTimestamp(stamp);
    assert r[20..] == Indent(depth) + prefix + " " + message;
    r
  }
}
