/**
 * The combined timestamp of a report row: the text "<date> <time>" parsed
 * against the pattern "%Y-%m-%d %H:%M:%S" (homethermostatetl/ecobee.py:18, 33-35, 42, 57).
 *
 * The parse is strict: exactly four year digits and two digits for every other
 * field, with the calendar ranges a Python `datetime` accepts (year 1..9999,
 * the month's real length, leap years included, seconds 0..59).
 */
module Timestamp {

  import opened Wrappers

  datatype DateTime = DateTime(year: int, month: int, day: int, hour: int, minute: int, second: int)

  predicate IsLeapYear(y: int) {
    y % 4 == 0 && (y % 100 != 0 || y % 400 == 0)
  }

  function DaysInMonth(y: int, m: int): (n: int)
    requires 1 <= m <= 12
    ensures 28 <= n <= 31
    ensures n == 29 <==> m == 2 && IsLeapYear(y)
  {
    if m == 2 then (if IsLeapYear(y) then 29 else 28)
    else if m == 4 || m == 6 || m == 9 || m == 11 then 30
    else 31
  }

  /** The instants a Python `datetime` can hold, to the second. */
  predicate Valid(t: DateTime) {
    && 1 <= t.year <= 9999
    && 1 <= t.month <= 12
    && 1 <= t.day <= DaysInMonth(t.year, t.month)
    && 0 <= t.hour < 24
    && 0 <= t.minute < 60
    && 0 <= t.second < 60
  }

  predicate IsDigit(c: char) {
    '0' <= c <= '9'
  }

  function DigitChar(d: int): (c: char)
    requires 0 <= d <= 9
    ensures IsDigit(c)
  {
    ('0' as int + d) as char
  }

  function DigitValue(c: char): (d: int)
    requires IsDigit(c)
    ensures 0 <= d <= 9
    ensures DigitChar(d) == c
  {
    c as int - '0' as int
  }

  function Pow10(w: nat): (p: nat)
    ensures p >= 1
  {
    if w == 0 then 1 else 10 * Pow10(w - 1)
  }

  /**
   * The layout of "%Y-%m-%d %H:%M:%S" with every field at full width, as
   * `str()` prints a `datetime` and as `strptime` reads it back here: 'D'
   * stands for one decimal digit, every other character for itself.
   */
  const Layout: string := "DDDD-DD-DD DD:DD:DD"

  /** Every layout character is 'D' or a separator that is not a digit. */
  predicate IsLayout(pat: string) {
    forall i :: 0 <= i < |pat| ==> pat[i] == 'D' || !IsDigit(pat[i])
  }

  /** The number of digits a layout holds. */
  function Width(pat: string): nat {
    if pat == [] then 0
    else Width(pat[..|pat| - 1]) + (if pat[|pat| - 1] == 'D' then 1 else 0)
  }

  /** One more layout character adds one to the width when it is a digit place. */
  lemma WidthSnoc(pat: string, c: char)
    ensures Width(pat + [c]) == Width(pat) + (if c == 'D' then 1 else 0)
  {
    assert (pat + [c])[..|pat|] == pat;
  }

  /** Character `c` fits layout character `p`: a digit for 'D', otherwise `p` itself. */
  predicate Fits(c: char, p: char) {
    if p == 'D' then IsDigit(c) else c == p
  }

  /** `s` follows the layout `pat` character by character. */
  predicate Follows(s: string, pat: string) {
    |s| == |pat| && (s == [] || (Fits(s[|s| - 1], pat[|pat| - 1]) && Follows(s[..|s| - 1], pat[..|pat| - 1])))
  }

  /** Following a layout is following it at every position. */
  lemma {:induction false} FollowsAt(s: string, pat: string)
    ensures Follows(s, pat) <==> |s| == |pat| && forall i :: 0 <= i < |s| ==> Fits(s[i], pat[i])
  {
    if s != [] && |s| == |pat| {
      var n := |s| - 1;
      FollowsAt(s[..n], pat[..n]);
      assert forall i :: 0 <= i < n ==> s[..n][i] == s[i] && pat[..n][i] == pat[i];
    }
  }

  /** `n` printed into the layout `pat`: its last digits fill the 'D's, zero-padded, right to left. */
  function Print(n: nat, pat: string): (s: string)
    ensures |s| == |pat|
  {
    if pat == [] then []
    else if pat[|pat| - 1] == 'D' then Print(n / 10, pat[..|pat| - 1]) + [DigitChar(n % 10)]
    else Print(n, pat[..|pat| - 1]) + [pat[|pat| - 1]]
  }

  /** The number the digits of `s` spell when read left to right; other characters are passed over. */
  function Reading(s: string): nat {
    if s == [] then 0
    else if IsDigit(s[|s| - 1]) then 10 * Reading(s[..|s| - 1]) + DigitValue(s[|s| - 1])
    else Reading(s[..|s| - 1])
  }

  /** Every field fits the width it is printed with. */
  predicate InRange(t: DateTime) {
    && 0 <= t.year < 10000
    && 0 <= t.month < 100 && 0 <= t.day < 100
    && 0 <= t.hour < 100 && 0 <= t.minute < 100 && 0 <= t.second < 100
  }

  /** The six fields as the one number yyyymmddHHMMSS. */
  function Pack(t: DateTime): int {
    ((((t.year * 100 + t.month) * 100 + t.day) * 100 + t.hour) * 100 + t.minute) * 100 + t.second
  }

  /** The six fields of the number yyyymmddHHMMSS, taken two digits at a time from the right. */
  function Unpack(n: nat): DateTime {
    var n1 := n / 100;
    var n2 := n1 / 100;
    var n3 := n2 / 100;
    var n4 := n3 / 100;
    var n5 := n4 / 100;
    DateTime(n5, n4 % 100, n3 % 100, n2 % 100, n1 % 100, n % 100)
  }

  /** What `str()` gives for a `datetime` with no microseconds: "YYYY-MM-DD HH:MM:SS". */
  function Format(t: DateTime): (s: string)
    requires InRange(t)
    ensures |s| == 19
  {
    Print(Pack(t), Layout)
  }

  /** "YYYY-MM-DD", the text of a report's date column. */
  function FormatDate(t: DateTime): (s: string)
    requires InRange(t)
    ensures |s| == 10
  {
    Format(t)[..10]
  }

  /** "HH:MM:SS", the text of a report's time column. */
  function FormatTime(t: DateTime): (s: string)
    requires InRange(t)
    ensures |s| == 8
  {
    Format(t)[11..]
  }

  /** The text has the layout "DDDD-DD-DD DD:DD:DD", each D a digit. */
  predicate HasShape(s: string) {
    Follows(s, Layout)
  }

  /**
   * `datetime.strptime(s, "%Y-%m-%d %H:%M:%S")` restricted to full-width
   * fields and a single space: it accepts a strict subset of the texts
   * Python accepts. `None` covers every text Python rejects with ValueError,
   * and also the looser forms Python would still read (fields without
   * leading zeros, several blanks between date and time). A text of the
   * right shape holds fourteen digits, which read as yyyymmddHHMMSS. A
   * successful parse names a valid instant; `ParseInverse` shows that
   * instant prints back as exactly `s`.
   */
  function Parse(s: string): (r: Option<DateTime>)
    ensures r.Some? ==> Valid(r.value)
  {
    if !HasShape(s) then None
    else
      var t := Unpack(Reading(s));
      if Valid(t) then Some(t) else None
  }

  /** Two digits appended to `q` come off again as the remainder. */
  lemma Peel(q: nat, r: nat)
    requires r < 100
    ensures (q * 100 + r) / 100 == q && (q * 100 + r) % 100 == r
  {
  }

  /** Unpacking undoes packing for fields within their printed widths. */
  lemma UnpackPack(t: DateTime)
    requires InRange(t)
    ensures Pack(t) >= 0 && Unpack(Pack(t)) == t
  {
    var n1 := (((t.year * 100 + t.month) * 100 + t.day) * 100 + t.hour) * 100 + t.minute;
    var n2 := ((t.year * 100 + t.month) * 100 + t.day) * 100 + t.hour;
    var n3 := (t.year * 100 + t.month) * 100 + t.day;
    var n4 := t.year * 100 + t.month;
    Peel(n1, t.second);
    Peel(n2, t.minute);
    Peel(n3, t.hour);
    Peel(n4, t.day);
    Peel(t.year, t.month);
  }

  /** Packing undoes unpacking. */
  lemma PackUnpack(n: nat)
    ensures Pack(Unpack(n)) == n
  {
  }

  /** A printed number follows the layout it was printed into. */
  lemma {:induction false} PrintFollows(n: nat, pat: string)
    requires IsLayout(pat)
    ensures Follows(Print(n, pat), pat)
  {
    if pat != [] {
      var front := pat[..|pat| - 1];
      assert IsLayout(front) by {
        assert forall i :: 0 <= i < |front| ==> front[i] == pat[i];
      }
      if pat[|pat| - 1] == 'D' {
        PrintFollows(n / 10, front);
        assert Print(n, pat)[..|pat| - 1] == Print(n / 10, front);
      } else {
        PrintFollows(n, front);
        assert Print(n, pat)[..|pat| - 1] == Print(n, front);
      }
    }
  }

  /** Reading back a number printed into a layout with room for all its digits gives the number. */
  lemma {:induction false} ReadingPrint(n: nat, pat: string)
    requires IsLayout(pat) && n < Pow10(Width(pat))
    ensures Reading(Print(n, pat)) == n
  {
    if pat != [] {
      var front := pat[..|pat| - 1];
      assert IsLayout(front) by {
        assert forall i :: 0 <= i < |front| ==> front[i] == pat[i];
      }
      var s := Print(n, pat);
      if pat[|pat| - 1] == 'D' {
        ReadingPrint(n / 10, front);
        assert s[..|s| - 1] == Print(n / 10, front);
        assert DigitValue(s[|s| - 1]) == n % 10;
      } else {
        ReadingPrint(n, front);
        assert s[..|s| - 1] == Print(n, front);
      }
    }
  }

  /** Printing what a text that follows a layout reads as, into that layout, gives the text back. */
  lemma {:induction false} PrintReading(s: string, pat: string)
    requires IsLayout(pat) && Follows(s, pat)
    ensures Print(Reading(s), pat) == s
  {
    if pat != [] {
      var front, rest := pat[..|pat| - 1], s[..|s| - 1];
      assert IsLayout(front) by {
        assert forall i :: 0 <= i < |front| ==> front[i] == pat[i];
      }
      PrintReading(rest, front);
      assert s == rest + [s[|s| - 1]];
    }
  }

  /** The year field and its dash hold four digit places. */
  lemma WidthYear()
    ensures Width("DDDD-") == 4
  {
    WidthSnoc("", 'D');
    assert "" + ['D'] == "D";
    WidthSnoc("D", 'D');
    assert "D" + ['D'] == "DD";
    WidthSnoc("DD", 'D');
    assert "DD" + ['D'] == "DDD";
    WidthSnoc("DDD", 'D');
    assert "DDD" + ['D'] == "DDDD";
    WidthSnoc("DDDD", '-');
    assert "DDDD" + ['-'] == "DDDD-";
  }

  /** The date part holds eight digit places. */
  lemma WidthDate()
    ensures Width("DDDD-DD-DD") == 8
  {
    WidthYear();
    WidthSnoc("DDDD-", 'D');
    assert "DDDD-" + ['D'] == "DDDD-D";
    WidthSnoc("DDDD-D", 'D');
    assert "DDDD-D" + ['D'] == "DDDD-DD";
    WidthSnoc("DDDD-DD", '-');
    assert "DDDD-DD" + ['-'] == "DDDD-DD-";
    WidthSnoc("DDDD-DD-", 'D');
    assert "DDDD-DD-" + ['D'] == "DDDD-DD-D";
    WidthSnoc("DDDD-DD-D", 'D');
    assert "DDDD-DD-D" + ['D'] == "DDDD-DD-DD";
  }

  /** The layout up to the hours holds ten digit places. */
  lemma WidthHour()
    ensures Width("DDDD-DD-DD DD") == 10
  {
    WidthDate();
    WidthSnoc("DDDD-DD-DD", ' ');
    assert "DDDD-DD-DD" + [' '] == "DDDD-DD-DD ";
    WidthSnoc("DDDD-DD-DD ", 'D');
    assert "DDDD-DD-DD " + ['D'] == "DDDD-DD-DD D";
    WidthSnoc("DDDD-DD-DD D", 'D');
    assert "DDDD-DD-DD D" + ['D'] == "DDDD-DD-DD DD";
  }

  /** The layout up to the minutes holds twelve digit places. */
  lemma WidthMinute()
    ensures Width("DDDD-DD-DD DD:DD") == 12
  {
    WidthHour();
    WidthSnoc("DDDD-DD-DD DD", ':');
    assert "DDDD-DD-DD DD" + [':'] == "DDDD-DD-DD DD:";
    WidthSnoc("DDDD-DD-DD DD:", 'D');
    assert "DDDD-DD-DD DD:" + ['D'] == "DDDD-DD-DD DD:D";
    WidthSnoc("DDDD-DD-DD DD:D", 'D');
    assert "DDDD-DD-DD DD:D" + ['D'] == "DDDD-DD-DD DD:DD";
  }

  /** The layout holds fourteen digit places. */
  lemma LayoutWidth()
    ensures Width(Layout) == 14
  {
    WidthMinute();
    WidthSnoc("DDDD-DD-DD DD:DD", ':');
    assert "DDDD-DD-DD DD:DD" + [':'] == "DDDD-DD-DD DD:DD:";
    WidthSnoc("DDDD-DD-DD DD:DD:", 'D');
    assert "DDDD-DD-DD DD:DD:" + ['D'] == "DDDD-DD-DD DD:DD:D";
    WidthSnoc("DDDD-DD-DD DD:DD:D", 'D');
    assert "DDDD-DD-DD DD:DD:D" + ['D'] == Layout;
  }

  /** Every separator of the layout is a non-digit. */
  lemma LayoutSeparators()
    ensures IsLayout(Layout)
  {
    forall i | 0 <= i < |Layout| ensures Layout[i] == 'D' || !IsDigit(Layout[i]) {
      assert Layout[i] in "D-: ";
    }
  }

  /** The layout and its fourteen digits. */
  lemma LayoutFacts()
    ensures IsLayout(Layout) && Width(Layout) == 14 && Pow10(14) == 100000000000000
  {
    LayoutWidth();
    LayoutSeparators();
    assert Pow10(4) == 10000;
  }

  /** A text that parses is the printed form of the instant it parses to. */
  lemma ParseInverse(s: string)
    requires Parse(s).Some?
    ensures Format(Parse(s).value) == s
  {
    LayoutFacts();
    PackUnpack(Reading(s));
    PrintReading(s, Layout);
  }

  /** The printed form of an instant has the layout the parser expects. */
  lemma FormatShape(t: DateTime)
    requires InRange(t)
    ensures HasShape(Format(t))
  {
    LayoutFacts();
    PrintFollows(Pack(t), Layout);
  }

  /** The date and time columns, joined by a space, give back the printed instant. */
  lemma FormatSplit(t: DateTime)
    requires InRange(t)
    ensures Format(t) == FormatDate(t) + " " + FormatTime(t)
  {
    var s := Format(t);
    FormatShape(t);
    FollowsAt(s, Layout);
    assert Fits(s[10], Layout[10]);
    assert s == s[..10] + [s[10]] + s[11..];
  }

  /** Every valid instant survives a print-then-parse round trip. */
  lemma ParseFormat(t: DateTime)
    requires Valid(t)
    ensures Parse(Format(t)) == Some(t)
  {
    LayoutFacts();
    FormatShape(t);
    UnpackPack(t);
    ReadingPrint(Pack(t), Layout);
  }

  /** A text of the right shape starts and ends with a digit. */
  lemma ShapeEnds(s: string)
    requires HasShape(s)
    ensures |s| == 19 && IsDigit(s[0]) && IsDigit(s[18])
  {
    FollowsAt(s, Layout);
    assert Fits(s[0], Layout[0]);
  }

  /**
   * Python formats a missing value as the text "None"; with "None" in place
   * of either the date or the time, the combined text never parses.
   */
  lemma RejectsNone(x: string)
    ensures Parse("None" + " " + x).None?
    ensures Parse(x + " " + "None").None?
  {
    var s1 := "None" + " " + x;
    if HasShape(s1) {
      ShapeEnds(s1);
    }
    var s2 := x + " " + "None";
    if HasShape(s2) {
      ShapeEnds(s2);
    }
  }
}
