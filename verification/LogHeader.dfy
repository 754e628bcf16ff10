/** The log header: fixed-width decimals assembled backwards in a 20-byte array, and the
    date-time prefix built from them. */
module LogHeader {

  // ---- Decimal strings ----

  /** byte('0' + n): the low eight bits. */
  function DigitByte(n: int): (c: char)
    ensures 0 <= n <= 9 ==> '0' <= c <= '9' && DigitValue(c) == n
  {
    ((48 + n) % 256) as char
  }

  function DigitValue(c: char): int {
    c as int - 48
  }

  function Max(a: int, b: int): int {
    if a < b then b else a
  }

  /** Go's division by ten, which truncates toward zero. */
  function Tenth(i: int): (q: int)
    ensures -9 <= i - q * 10 <= 9
    ensures i >= 0 ==> 0 <= q == i / 10 && i - q * 10 == i % 10
    ensures i < 0 ==> i <= q <= 0
  {
    if i >= 0 then i / 10 else -(-i / 10)
  }

  /** What itoa prints: the decimal form of i, zero-padded to `wid`. */
  function Digits(i: int, wid: int): string
    decreases Max(i, 0), Max(wid, 0)
  {
    if i < 10 && wid <= 1 then [DigitByte(i)]
    else Digits(Tenth(i), wid - 1) + [DigitByte(i - Tenth(i) * 10)]
  }

  function Numeral(s: string): int {
    if s == "" then 0 else Numeral(s[..|s| - 1]) * 10 + DigitValue(s[|s| - 1])
  }

  function DigitCount(i: int): nat
    decreases Max(i, 0)
  {
    if i < 10 then 1 else 1 + DigitCount(i / 10)
  }

  lemma NumeralAppend(s: string, c: char)
    ensures Numeral(s + [c]) == Numeral(s) * 10 + DigitValue(c)
  {
  }

  /** Reading the digits back gives the number. */
  lemma {:induction false} DigitsRoundTrip(i: nat, wid: int)
    ensures Numeral(Digits(i, wid)) == i
    decreases i, Max(wid, 0)
  {
    hide DigitByte, DigitValue, Tenth;
    if i < 10 && wid <= 1 {
      NumeralAppend("", DigitByte(i));
      assert Digits(i, wid) == "" + [DigitByte(i)];
    } else {
      DigitsRoundTrip(i / 10, wid - 1);
      NumeralAppend(Digits(i / 10, wid - 1), DigitByte(i % 10));
    }
  }

  /** The width is the padding or the number's own length, whichever is more. */
  lemma {:induction false} DigitsLength(i: int, wid: int)
    ensures |Digits(i, wid)| == Max(Max(wid, 1), DigitCount(i))
    decreases Max(i, 0), Max(wid, 0)
  {
    if !(i < 10 && wid <= 1) {
      DigitsLength(Tenth(i), wid - 1);
    }
  }

  predicate IsDecimal(s: string) {
    forall k | 0 <= k < |s| :: '0' <= s[k] <= '9'
  }

  lemma {:induction false} DigitsAreDecimal(i: nat, wid: int)
    ensures IsDecimal(Digits(i, wid))
    decreases i, Max(wid, 0)
  {
    if !(i < 10 && wid <= 1) {
      DigitsAreDecimal(i / 10, wid - 1);
    }
  }

  lemma {:induction false} DecimalIsNotNegative(s: string)
    requires IsDecimal(s)
    ensures Numeral(s) >= 0
  {
    if s != "" {
      DecimalIsNotNegative(s[..|s| - 1]);
    }
  }

  /** For every int and width, itoa prints decimal digits with the value of the number exactly when
      the number is not negative. */
  lemma PrintsTheNumberIff(i: int, wid: int)
    ensures IsDecimal(Digits(i, wid)) && Numeral(Digits(i, wid)) == i <==> i >= 0
  {
    if i >= 0 {
      DigitsRoundTrip(i, wid);
      DigitsAreDecimal(i, wid);
    } else if IsDecimal(Digits(i, wid)) {
      DecimalIsNotNegative(Digits(i, wid));
    }
  }

  function Pow10(n: nat): nat {
    if n == 0 then 1 else 10 * Pow10(n - 1)
  }

  lemma {:induction false} DigitCountBound(i: int, n: nat)
    requires n >= 1 && i < Pow10(n)
    ensures DigitCount(i) <= n
    decreases Max(i, 0)
  {
    if i >= 10 {
      DigitCountBound(i / 10, n - 1);
    }
  }

  /** The array holds the end of the result from after `bp` on; the rest are the digits of i. */
  ghost predicate Written(b: seq<char>, bp: int, i: int, wid: int, all: string) {
    0 <= bp < |b| && |Digits(i, wid)| <= bp + 1 && all == Digits(i, wid) + b[bp + 1..]
  }

  lemma NothingWritten(b: seq<char>, i: int, wid: int)
    requires |b| == 20 && i < Pow10(20) && wid <= 20
    ensures Written(b, 19, i, wid, Digits(i, wid))
  {
    DigitCountBound(i, 20);
    DigitsLength(i, wid);
  }

  /** One turn of the loop of itoa peels the last digit. */
  lemma WriteDigit(b: seq<char>, bp: int, i: int, wid: int, all: string)
    requires Written(b, bp, i, wid, all) && (i >= 10 || wid > 1)
    ensures Written(b[bp := DigitByte(i - Tenth(i) * 10)], bp - 1, Tenth(i), wid - 1, all)
    ensures bp > 0 && |Digits(Tenth(i), wid - 1)| < |Digits(i, wid)|
  {
  }

  lemma WriteLast(b: seq<char>, bp: int, i: int, wid: int, all: string)
    requires Written(b, bp, i, wid, all) && i < 10 && wid <= 1
    ensures b[bp := DigitByte(i)][bp..] == all
  {
  }

  /** itoa, inside its 20-byte array for every i below 10^20, which every Go int is, and width up
      to 20. */
  method Itoa(buf: string, i: int, wid: int) returns (out: string)
    requires i < Pow10(20) && wid <= 20
    ensures out == buf + Digits(i, wid)
  {
    hide *;
    var b := new char[20];
    var bp := b.Length - 1;
    var i, wid := i, wid;
    ghost var all := Digits(i, wid);
    NothingWritten(b[..], i, wid);
    while i >= 10 || wid > 1
      invariant 0 <= bp < 20 && Written(b[..], bp, i, wid, all)
      decreases |Digits(i, wid)|
    {
      ghost var before := b[..];
      WriteDigit(before, bp, i, wid, all);
      wid := wid - 1;
      var q := Tenth(i);
      b[bp] := DigitByte(i - q * 10);
      assert b[..] == before[bp := DigitByte(i - q * 10)];
      bp := bp - 1;
      i := q;
    }
    ghost var before := b[..];
    WriteLast(before, bp, i, wid, all);
    b[bp] := DigitByte(i);
    assert b[..] == before[bp := DigitByte(i)];
    assert b[bp..] == b[..][bp..];
    out := buf + b[bp..];
  }

  // ---- The header ----

  datatype Time = Time(year: int, month: int, day: int, hour: int, minute: int, second: int, nanosecond: int)

  /** Ldate, Ltime, Lmicroseconds, LUTC, Llongfile, Lshortfile. */
  datatype Flags = Flags(date: bool, time: bool, micros: bool, utc: bool, long: bool, short: bool)

  function DateText(t: Time): string
    requires InRange(t)
  {
    Digits(t.year, 4) + "/" + Digits(t.month, 2) + "/" + Digits(t.day, 2) + " "
  }

  function MicrosText(t: Time): string
    requires InRange(t)
  {
    "." + Digits(t.nanosecond / 1000, 6)
  }

  function ClockText(flags: Flags, t: Time): string
    requires InRange(t)
  {
    Digits(t.hour, 2) + ":" + Digits(t.minute, 2) + ":" + Digits(t.second, 2)
    + (if flags.micros then MicrosText(t) else "") + " "
  }

  function Header(flags: Flags, t: Time): string
    requires InRange(t)
  {
    (if flags.date then DateText(t) else "")
    + (if flags.time || flags.micros then ClockText(flags, t) else "")
  }

  predicate InRange(t: Time) {
    && 0 <= t.year <= 9999 && 1 <= t.month <= 12 && 1 <= t.day <= 31
    && 0 <= t.hour <= 23 && 0 <= t.minute <= 59 && 0 <= t.second <= 59
    && 0 <= t.nanosecond < 1_000_000_000
  }

  /** The part of a file name after the last slash at or before `i`, where a slash that starts the
      name does not count. */
  function NameAfter(file: string, i: nat): string
    requires i < |file| || i == 0
  {
    if i == 0 then file else if file[i] == '/' then file[i + 1..] else NameAfter(file, i - 1)
  }

  function ShortName(file: string): string {
    NameAfter(file, if file == "" then 0 else |file| - 1)
  }

  lemma {:induction false} NameAfterLastSlash(file: string, i: nat)
    requires i < |file| || i == 0
    requires forall k | i < k < |file| :: file[k] != '/'
    ensures forall k | 0 < k < |file| && file[k] == '/' && (forall j | k < j < |file| :: file[j] != '/') ::
              NameAfter(file, i) == file[k + 1..]
    ensures (forall k | 0 < k < |file| :: file[k] != '/') ==> NameAfter(file, i) == file
    decreases i
  {
    if i > 0 && file[i] != '/' {
      NameAfterLastSlash(file, i - 1);
    }
  }

  /** The short name is what follows the last slash, and the whole name when there is none but
      perhaps the first character. */
  lemma ShortNameIsLastElement(file: string)
    ensures forall k | 0 < k < |file| && file[k] == '/' && (forall j | k < j < |file| :: file[j] != '/') ::
              ShortName(file) == file[k + 1..]
    ensures (forall k | 0 < k < |file| :: file[k] != '/') ==> ShortName(file) == file
  {
    NameAfterLastSlash(file, if file == "" then 0 else |file| - 1);
  }

  function FileText(flags: Flags, file: string, line: int): string {
    if flags.short || flags.long
    then (if flags.short then ShortName(file) else file) + ":" + Digits(line, -1) + ": "
    else ""
  }

  method Shorten(file: string) returns (short: string)
    ensures short == ShortName(file)
  {
    short := file;
    var i := |file| - 1;
    while i > 0
      invariant i > 0 ==> i < |file| && NameAfter(file, i) == ShortName(file)
      invariant i <= 0 ==> short == ShortName(file)
      invariant short == file || i <= 0
      decreases i
    {
      if file[i] == '/' {
        return file[i + 1..];
      }
      i := i - 1;
    }
  }

  /** formatHeader; `local` and `utc` are the same moment in two zones. */
  method FormatHeader(buf: string, flags: Flags, local: Time, utc: Time, file: string, line: int)
    returns (out: string)
    requires InRange(local) && InRange(utc) && line < Pow10(20)
    ensures out == buf + Header(flags, if flags.utc then utc else local) + FileText(flags, file, line)
  {
    hide Digits, Pow10, Header, FileText;
    out := buf;
    if flags.date || flags.time || flags.micros {
      out := FormatTime(out, flags, if flags.utc then utc else local);
    } else {
      NoTime(flags, if flags.utc then utc else local);
    }
    if flags.short || flags.long {
      out := FormatFile(out, flags, file, line);
    } else {
      NoFile(flags, file, line);
    }
  }

  lemma NoTime(flags: Flags, t: Time)
    requires InRange(t) && !flags.date && !flags.time && !flags.micros
    ensures Header(flags, t) == ""
  {
  }

  lemma NoFile(flags: Flags, file: string, line: int)
    requires !flags.short && !flags.long
    ensures FileText(flags, file, line) == ""
  {
  }

  method FormatFile(buf: string, flags: Flags, file: string, line: int) returns (out: string)
    requires (flags.short || flags.long) && line < Pow10(20)
    ensures out == buf + FileText(flags, file, line)
  {
    hide Digits, Pow10, ShortName;
    var name := file;
    if flags.short {
      name := Shorten(file);
    }
    out := buf + name;
    out := out + ":";
    out := Itoa(out, line, -1);
    out := out + ": ";
  }

  method FormatTime(buf: string, flags: Flags, t: Time) returns (out: string)
    requires InRange(t)
    ensures out == buf + Header(flags, t)
  {
    hide DateText, ClockText;
    out := buf;
    if flags.date {
      out := FormatDate(out, t);
    }
    if flags.time || flags.micros {
      out := FormatClock(out, flags, t);
    }
  }

  method FormatDate(buf: string, t: Time) returns (out: string)
    requires InRange(t)
    ensures out == buf + DateText(t)
  {
    SmallNumbers();
    hide Digits, Pow10;
    out := Itoa(buf, t.year, 4);
    out := out + "/";
    out := Itoa(out, t.month, 2);
    out := out + "/";
    out := Itoa(out, t.day, 2);
    out := out + " ";
  }

  method FormatClock(buf: string, flags: Flags, t: Time) returns (out: string)
    requires InRange(t)
    ensures out == buf + ClockText(flags, t)
  {
    SmallNumbers();
    hide Digits, Pow10;
    out := Itoa(buf, t.hour, 2);
    out := out + ":";
    out := Itoa(out, t.minute, 2);
    out := out + ":";
    out := Itoa(out, t.second, 2);
    ghost var seconds := out;
    assert seconds == buf + (Digits(t.hour, 2) + ":" + Digits(t.minute, 2) + ":" + Digits(t.second, 2));
    if flags.micros {
      out := out + ".";
      out := Itoa(out, t.nanosecond / 1000, 6);
      assert out == seconds + MicrosText(t);
    }
    out := out + " ";
  }

  lemma SmallNumbers()
    ensures 1_000_000 < Pow10(20)
  {
    assert Pow10(7) == 10_000_000;
    PowGrows(7, 20);
  }

  lemma {:induction false} PowGrows(a: nat, b: nat)
    requires a <= b
    ensures Pow10(a) <= Pow10(b)
    decreases b
  {
    if a < b {
      PowGrows(a, b - 1);
    }
  }

  // ---- Parsing a header back ----

  function Field(s: string, at: nat, width: nat): int
    requires at + width <= |s|
  {
    Numeral(s[at..at + width])
  }

  function DateWidth(flags: Flags): nat {
    if flags.date then 11 else 0
  }

  function HeaderWidth(flags: Flags): nat {
    DateWidth(flags) + (if flags.micros then 16 else if flags.time then 9 else 0)
  }

  /** The fields a header shows, read at fixed positions; what is not shown reads as 0. */
  function Parse(flags: Flags, line: string): Time
    requires HeaderWidth(flags) <= |line|
  {
    var d := flags.date;
    var c := flags.time || flags.micros;
    var at := DateWidth(flags);
    Time(
      if d then Field(line, 0, 4) else 0,
      if d then Field(line, 5, 2) else 0,
      if d then Field(line, 8, 2) else 0,
      if c then Field(line, at, 2) else 0,
      if c then Field(line, at + 3, 2) else 0,
      if c then Field(line, at + 6, 2) else 0,
      if flags.micros then 1000 * Field(line, at + 9, 6) else 0)
  }

  function Shown(flags: Flags, t: Time): Time {
    var c := flags.time || flags.micros;
    Time(
      if flags.date then t.year else 0,
      if flags.date then t.month else 0,
      if flags.date then t.day else 0,
      if c then t.hour else 0,
      if c then t.minute else 0,
      if c then t.second else 0,
      if flags.micros then t.nanosecond / 1000 * 1000 else 0)
  }

  lemma FixedWidth(i: nat, wid: nat)
    requires wid >= 1 && i < Pow10(wid)
    ensures |Digits(i, wid)| == wid && Numeral(Digits(i, wid)) == i
  {
    DigitsRoundTrip(i, wid);
    DigitsLength(i, wid);
    DigitCountBound(i, wid);
  }

  lemma FieldAt(before: string, i: nat, wid: nat, after: string)
    requires wid >= 1 && i < Pow10(wid)
    ensures |Digits(i, wid)| == wid
    ensures Field(before + Digits(i, wid) + after, |before|, wid) == i
  {
    FixedWidth(i, wid);
    assert (before + Digits(i, wid) + after)[|before|..|before| + wid] == Digits(i, wid);
  }

  lemma FieldBounds(t: Time)
    requires InRange(t)
    ensures t.year < Pow10(4) && t.month < Pow10(2) && t.day < Pow10(2)
    ensures t.hour < Pow10(2) && t.minute < Pow10(2) && t.second < Pow10(2)
    ensures t.nanosecond / 1000 < Pow10(6)
  {
  }

  lemma FixedWidths(t: Time)
    requires InRange(t)
    ensures |Digits(t.year, 4)| == 4 && |Digits(t.month, 2)| == |Digits(t.day, 2)| == 2
    ensures |Digits(t.hour, 2)| == |Digits(t.minute, 2)| == |Digits(t.second, 2)| == 2
    ensures |Digits(t.nanosecond / 1000, 6)| == 6
  {
    FieldBounds(t);
    hide Digits, Pow10, Numeral;
    FixedWidth(t.year, 4);
    FixedWidth(t.month, 2);
    FixedWidth(t.day, 2);
    FixedWidth(t.hour, 2);
    FixedWidth(t.minute, 2);
    FixedWidth(t.second, 2);
    FixedWidth(t.nanosecond / 1000, 6);
  }

  /** The characters between the fields of a clock. */
  predicate ClockMarks(flags: Flags, s: string) {
    && |s| == (if flags.micros then 16 else 9)
    && s[2] == ':' && s[5] == ':' && s[|s| - 1] == ' ' && (flags.micros ==> s[8] == '.')
  }

  /** The date text cut around each of its fields. */
  lemma RegroupDate(y: string, m: string, d: string, rest: string)
    ensures var s := y + "/" + m + "/" + d + " " + rest;
            && s == "" + y + ("/" + m + "/" + d + " " + rest)
            && s == (y + "/") + m + ("/" + d + " " + rest)
            && s == (y + "/" + m + "/") + d + (" " + rest)
  {
  }

  lemma DateParses(t: Time, rest: string)
    requires InRange(t)
    ensures |DateText(t)| == 11
    ensures DateText(t)[4] == '/' && DateText(t)[7] == '/' && DateText(t)[10] == ' '
    ensures var s := DateText(t) + rest;
            Field(s, 0, 4) == t.year && Field(s, 5, 2) == t.month && Field(s, 8, 2) == t.day
  {
    FieldBounds(t);
    hide Digits, Pow10, Numeral;
    var y, m, d := Digits(t.year, 4), Digits(t.month, 2), Digits(t.day, 2);
    FixedWidths(t);
    RegroupDate(y, m, d, rest);
    FieldAt("", t.year, 4, "/" + m + "/" + d + " " + rest);
    FieldAt(y + "/", t.month, 2, "/" + d + " " + rest);
    FieldAt(y + "/" + m + "/", t.day, 2, " " + rest);
  }

  lemma ClockParses(flags: Flags, before: string, t: Time, rest: string)
    requires InRange(t)
    ensures |ClockText(flags, t)| == if flags.micros then 16 else 9
    ensures var s, at := before + ClockText(flags, t) + rest, |before|;
            && Field(s, at, 2) == t.hour && Field(s, at + 3, 2) == t.minute && Field(s, at + 6, 2) == t.second
            && (flags.micros ==> Field(s, at + 9, 6) == t.nanosecond / 1000)
  {
    FieldBounds(t);
    hide Digits, Pow10, Numeral;
    var h, m, c := Digits(t.hour, 2), Digits(t.minute, 2), Digits(t.second, 2);
    var end := (if flags.micros then MicrosText(t) else "") + " " + rest;
    var s := before + ClockText(flags, t) + rest;
    var afterHour, afterMinute := before + h + ":", before + h + ":" + m + ":";
    Regroup(before, h, m, c, if flags.micros then MicrosText(t) else "", rest);
    FieldAt(before, t.hour, 2, ":" + m + ":" + c + end);
    FieldAt(afterHour, t.minute, 2, ":" + c + end);
    FieldAt(afterMinute, t.second, 2, end);
    if flags.micros {
      MicrosParse(s, afterMinute + c, t, rest);
    }
  }

  /** The clock text cut before its minutes, before its seconds and after them. */
  lemma Regroup(before: string, h: string, m: string, c: string, u: string, rest: string)
    ensures var s, end := before + (h + ":" + m + ":" + c + u + " ") + rest, u + " " + rest;
            && s == before + h + ":" + m + ":" + c + end
            && s == before + h + ":" + m + (":" + c + end)
            && s == before + h + (":" + m + ":" + c + end)
  {
  }

  lemma MicrosParse(s: string, before: string, t: Time, rest: string)
    requires InRange(t) && s == before + (MicrosText(t) + " " + rest)
    ensures |MicrosText(t)| == 7
    ensures Field(s, |before| + 1, 6) == t.nanosecond / 1000
  {
    FieldBounds(t);
    hide Digits, Pow10, Numeral;
    assert s == (before + ".") + Digits(t.nanosecond / 1000, 6) + (" " + rest);
    FieldAt(before + ".", t.nanosecond / 1000, 6, " " + rest);
  }

  lemma Regroup3(a: string, b: string, c: string)
    ensures a + b + c == a + (b + c)
  {
  }

  lemma HeaderLength(flags: Flags, t: Time)
    requires InRange(t)
    ensures |Header(flags, t)| == HeaderWidth(flags)
  {
    DateParses(t, "");
    ClockParses(flags, "", t, "");
    hide DateText, ClockText, Field, InRange;
  }

  lemma HeaderStart(flags: Flags, t: Time, rest: string) returns (after: string)
    requires InRange(t) && flags.date
    ensures Header(flags, t) + rest == DateText(t) + after
  {
    hide DateText, ClockText, InRange;
    var clock := if flags.time || flags.micros then ClockText(flags, t) else "";
    Regroup3(DateText(t), clock, rest);
    after := clock + rest;
  }

  lemma HeaderEnd(flags: Flags, t: Time, rest: string) returns (before: string)
    requires InRange(t) && (flags.time || flags.micros)
    ensures |before| == DateWidth(flags) && Header(flags, t) + rest == before + ClockText(flags, t) + rest
  {
    before := if flags.date then DateText(t) else "";
    DateParses(t, "");
    hide DateText, ClockText, Field, InRange;
  }

  lemma ClockHasMarks(flags: Flags, t: Time)
    requires InRange(t)
    ensures ClockMarks(flags, ClockText(flags, t))
  {
    FixedWidths(t);
    hide Digits;
  }

  lemma HeaderMarks(flags: Flags, t: Time, rest: string)
    requires InRange(t)
    ensures |Header(flags, t)| == HeaderWidth(flags) && Marks(flags, Header(flags, t) + rest)
  {
    HeaderLength(flags, t);
    DateParses(t, "");
    ClockHasMarks(flags, t);
    hide DateText, ClockText, Field, InRange, ClockMarks;
    if flags.time || flags.micros {
      assert (Header(flags, t) + rest)[DateWidth(flags)..HeaderWidth(flags)] == ClockText(flags, t);
    }
  }

  lemma DateReadsBack(flags: Flags, t: Time, rest: string)
    requires InRange(t) && flags.date
    ensures var s := Header(flags, t) + rest;
            && |s| >= 11 && Field(s, 0, 4) == t.year && Field(s, 5, 2) == t.month && Field(s, 8, 2) == t.day
  {
    var after := HeaderStart(flags, t, rest);
    hide Header, DateText, Field, InRange;
    DateParses(t, after);
  }

  lemma ClockReadsBack(flags: Flags, t: Time, rest: string)
    requires InRange(t) && (flags.time || flags.micros)
    ensures var s, at := Header(flags, t) + rest, DateWidth(flags);
            && |s| >= at + (if flags.micros then 16 else 9)
            && Field(s, at, 2) == t.hour && Field(s, at + 3, 2) == t.minute && Field(s, at + 6, 2) == t.second
            && (flags.micros ==> Field(s, at + 9, 6) == t.nanosecond / 1000)
  {
    var before := HeaderEnd(flags, t, rest);
    hide Header, ClockText, Field, InRange;
    ClockParses(flags, before, t, rest);
  }

  /** A file and line part reads back: the name, the line between two colons, and a space. */
  lemma FileReadsBack(flags: Flags, file: string, line: nat)
    ensures var s, name := FileText(flags, file, line), if flags.short then ShortName(file) else file;
            if !flags.short && !flags.long then s == ""
            else
              && |s| > |name| + 3 && s[..|name|] == name && s[|name|] == ':' && s[|s| - 2..] == ": "
              && IsDecimal(s[|name| + 1..|s| - 2]) && Numeral(s[|name| + 1..|s| - 2]) == line
  {
    DigitsRoundTrip(line, -1);
    DigitsAreDecimal(line, -1);
    DigitsLength(line, -1);
    hide Digits, Numeral, ShortName, IsDecimal;
    var s, name := FileText(flags, file, line), if flags.short then ShortName(file) else file;
    if flags.short || flags.long {
      assert s[|name| + 1..|s| - 2] == Digits(line, -1);
    }
  }

  /** The characters between the fields of a header. */
  predicate Marks(flags: Flags, s: string)
    requires |s| >= HeaderWidth(flags)
  {
    && (flags.date ==> s[4] == '/' && s[7] == '/' && s[10] == ' ')
    && (flags.time || flags.micros ==> ClockMarks(flags, s[DateWidth(flags)..HeaderWidth(flags)]))
  }

  /** Whatever text follows, a header shows its time unambiguously: the fields read back at
      fixed positions are the ones that were written, with the marks of the format between them. */
  lemma HeaderParsesBack(flags: Flags, t: Time, rest: string)
    requires InRange(t)
    ensures |Header(flags, t)| == HeaderWidth(flags)
    ensures Parse(flags, Header(flags, t) + rest) == Shown(flags, t)
    ensures Marks(flags, Header(flags, t) + rest)
  {
    hide Marks, Header, Field, InRange;
    HeaderMarks(flags, t, rest);
    if flags.date {
      DateReadsBack(flags, t, rest);
    }
    if flags.time || flags.micros {
      ClockReadsBack(flags, t, rest);
    }
  }
}
