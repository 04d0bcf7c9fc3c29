/**
 * lib/timeUtils.ts: converting stored timestamps to dates, the elapsed-time text
 * ("2日3時間12分") and the "YYYY/MM/DD HH:mm" date text.
 *
 * Times are integer milliseconds since the epoch. The clock (`new Date()`) and the
 * local-time-zone getters of `Date` are not part of the model: the current time and
 * the already-split calendar fields are passed in.
 */
module TimeUtils {
  import opened Wrappers

  const MillisPerMinute: nat := 60000

  // ---------------------------------------------------------------------------
  // Timestamps

  /**
   * The shapes a stored `createdAt` / `solvedAt` value can take:
   * a falsy value (null, undefined, a pending server timestamp read as null),
   * a Firestore Timestamp, some other object with a `toDate()` method, a Date,
   * or anything else.
   */
  datatype Stamp =
    | Falsy
    | FirestoreTimestamp(millis: int)
    | HasToDate(millis: int)
    | DateValue(millis: int)
    | Unrecognised

  /** toDate: null for falsy or unrecognised input, the instant otherwise; a Date is returned as it is. */
  function ToDate(ts: Stamp): (r: Option<int>)
    ensures r.None? <==> ts.Falsy? || ts.Unrecognised?
    ensures r.Some? ==> r.value == ts.millis
  {
    match ts
    case Falsy => None
    case FirestoreTimestamp(ms) => Some(ms)
    case HasToDate(ms) => Some(ms)
    case DateValue(ms) => Some(ms)
    case Unrecognised => None
  }

  // ---------------------------------------------------------------------------
  // Decimal text: what `${n}` and `String(n)` give for an integer

  predicate IsDigit(c: char) { '0' <= c <= '9' }

  predicate AllDigits(s: string) { forall i :: 0 <= i < |s| ==> IsDigit(s[i]) }

  function DigitChar(d: nat): (c: char)
    requires d < 10
    ensures IsDigit(c) && c as int - '0' as int == d
  {
    ('0' as int + d) as char
  }

  function DigitValue(c: char): nat
    requires IsDigit(c)
  {
    c as int - '0' as int
  }

  /** Decimal digits of `n`, most significant first, with no leading zero. */
  function NatToString(n: nat): (s: string)
    ensures |s| >= 1 && AllDigits(s)
    ensures s[0] == '0' ==> s == "0"
  {
    if n < 10 then [DigitChar(n)] else NatToString(n / 10) + [DigitChar(n % 10)]
  }

  /** The value of a string of decimal digits. */
  function ParseNat(s: string): nat
    requires AllDigits(s)
  {
    if s == [] then 0 else ParseNat(s[..|s| - 1]) * 10 + DigitValue(s[|s| - 1])
  }

  lemma {:induction false} ParseNatToString(n: nat)
    ensures ParseNat(NatToString(n)) == n
  {
    if n >= 10 {
      var s := NatToString(n);
      assert s[..|s| - 1] == NatToString(n / 10);
      ParseNatToString(n / 10);
    }
  }

  /** Decimal text of a possibly negative integer (a year before 1 CE is negative). */
  function IntToString(n: int): (s: string)
  {
    if n < 0 then "-" + NatToString(-n) else NatToString(n)
  }

  function ParseInt(s: string): Option<int>
  {
    if |s| > 0 && s[0] == '-' then
      if |s| > 1 && AllDigits(s[1..]) then Some(-(ParseNat(s[1..]) as int)) else None
    else if |s| > 0 && AllDigits(s) then Some(ParseNat(s))
    else None
  }

  lemma {:induction false} ParseIntToString(n: int)
    ensures ParseInt(IntToString(n)) == Some(n)
  {
    if n < 0 {
      assert IntToString(n)[1..] == NatToString(-n);
      ParseNatToString(-n);
    } else {
      ParseNatToString(n);
    }
  }

  // ---------------------------------------------------------------------------
  // formatElapsed

  /** The parts of an elapsed time as the source splits it: whole days, remaining hours, remaining minutes. */
  datatype Elapsed = Elapsed(days: nat, hours: nat, minutes: nat)

  /**
   * Splitting a non-negative millisecond difference: the minutes and hours are the
   * remainders below 60 and 24, and together with the days they make up exactly the
   * whole minutes of `diff` (the seconds are dropped).
   */
  function Decompose(diff: nat): (e: Elapsed)
    ensures e.minutes < 60 && e.hours < 24
    ensures e.days * 1440 + e.hours * 60 + e.minutes == diff / MillisPerMinute
  {
    var totalMinutes := diff / MillisPerMinute;
    var totalHours := totalMinutes / 60;
    Elapsed(totalHours / 24, totalHours % 24, totalMinutes % 60)
  }

  /** `parts.join("")`. */
  function Join(parts: seq<string>): string
  {
    if parts == [] then "" else parts[0] + Join(parts[1..])
  }

  /**
   * formatElapsed(from, to): "0分" when `to` is before `from`; otherwise the days part
   * (only when there are days), the hours part (only when there are hours) and the
   * minutes part (always), concatenated in that order with no separator.
   */
  function FormatElapsed(from: int, to: int): (r: string)
    ensures to < from ==> r == "0分"
  {
    var diff := to - from;
    if diff < 0 then "0分"
    else
      var e := Decompose(diff);
      var parts :=
        (if e.days > 0 then [NatToString(e.days) + "日"] else [])
        + (if e.hours > 0 then [NatToString(e.hours) + "時間"] else [])
        + [NatToString(e.minutes) + "分"];
      Join(parts)
  }

  /**
   * formatElapsed as the source runs it: the parts are pushed one by one and joined.
   * The text is FormatElapsed's, and for `from <= to` it reads back as the decomposed difference.
   */
  method BuildElapsed(from: int, to: int) returns (r: string)
    ensures r == FormatElapsed(from, to)
    ensures to < from ==> r == "0分"
    ensures from <= to ==> ParseItems(r) == Some(ElapsedItems(Decompose(to - from)))
  {
    var diff := to - from;
    if diff < 0 {
      return "0分";
    }
    var totalMinutes := diff / MillisPerMinute;
    var minutes := totalMinutes % 60;
    var totalHours := totalMinutes / 60;
    var hours := totalHours % 24;
    var days := totalHours / 24;
    var parts: seq<string> := [];
    if days > 0 {
      parts := parts + [NatToString(days) + "日"];
    }
    if hours > 0 {
      parts := parts + [NatToString(hours) + "時間"];
    }
    parts := parts + [NatToString(minutes) + "分"];
    var e := Decompose(diff);
    assert e == Elapsed(days, hours, minutes);
    assert parts == (if e.days > 0 then [NatToString(e.days) + "日"] else [])
      + (if e.hours > 0 then [NatToString(e.hours) + "時間"] else [])
      + [NatToString(e.minutes) + "分"];
    r := Join(parts);
    ElapsedTextItems(from, to);
  }

  // A reader of the elapsed text, used to state what formatElapsed produces.

  datatype Unit = Day | Hour | Minute

  function UnitText(u: Unit): string
  {
    match u
    case Day => "日"
    case Hour => "時間"
    case Minute => "分"
  }

  /** Length of the run of digits at the front of `s`. */
  function DigitSpan(s: string): (k: nat)
    ensures k <= |s| && AllDigits(s[..k])
    ensures k < |s| ==> !IsDigit(s[k])
  {
    if s == [] || !IsDigit(s[0]) then 0
    else
      var k := 1 + DigitSpan(s[1..]);
      assert s[..k] == [s[0]] + s[1..][..k - 1];
      k
  }

  /** One "<number><unit>" item at the front of `s`, and the text after it. */
  function ParseItem(s: string): (r: Option<(nat, Unit, string)>)
    ensures r.Some? ==> |r.value.2| < |s|
  {
    var k := DigitSpan(s);
    if k == 0 then None
    else
      var n := ParseNat(s[..k]);
      var rest := s[k..];
      if |rest| >= 1 && rest[..1] == "日" then Some((n, Day, rest[1..]))
      else if |rest| >= 2 && rest[..2] == "時間" then Some((n, Hour, rest[2..]))
      else if |rest| >= 1 && rest[..1] == "分" then Some((n, Minute, rest[1..]))
      else None
  }

  /** The whole of `s` read as a sequence of items; None when some part is not an item. */
  function ParseItems(s: string): Option<seq<(nat, Unit)>>
    decreases |s|
  {
    if s == [] then Some([])
    else
      match ParseItem(s)
      case None => None
      case Some((n, u, rest)) =>
        match ParseItems(rest)
        case None => None
        case Some(items) => Some([(n, u)] + items)
  }

  /** The text of a sequence of items, each number followed by its unit. */
  function RenderItems(items: seq<(nat, Unit)>): string
  {
    if items == [] then "" else NatToString(items[0].0) + UnitText(items[0].1) + RenderItems(items[1..])
  }

  /** The items formatElapsed writes for `e`, in order. */
  function ElapsedItems(e: Elapsed): (items: seq<(nat, Unit)>)
  {
    (if e.days > 0 then [(e.days, Day)] else [])
    + (if e.hours > 0 then [(e.hours, Hour)] else [])
    + [(e.minutes, Minute)]
  }

  lemma {:induction false} DigitSpanOf(a: string, t: string)
    requires AllDigits(a)
    requires t == [] || !IsDigit(t[0])
    ensures DigitSpan(a + t) == |a|
  {
    if a != [] {
      assert (a + t)[1..] == a[1..] + t;
      DigitSpanOf(a[1..], t);
    }
  }

  lemma {:induction false} ParseItemOf(n: nat, u: Unit, rest: string)
    ensures ParseItem(NatToString(n) + UnitText(u) + rest) == Some((n, u, rest))
  {
    var a := NatToString(n);
    var s := a + UnitText(u) + rest;
    assert s == a + (UnitText(u) + rest);
    DigitSpanOf(a, UnitText(u) + rest);
    assert s[..|a|] == a;
    assert s[|a|..] == UnitText(u) + rest;
    ParseNatToString(n);
  }

  /** Reading the rendered items gives back the items: the text needs no separator. */
  lemma {:induction false} ParseRenderItems(items: seq<(nat, Unit)>)
    ensures ParseItems(RenderItems(items)) == Some(items)
  {
    if items != [] {
      var rest := RenderItems(items[1..]);
      ParseItemOf(items[0].0, items[0].1, rest);
      ParseRenderItems(items[1..]);
      assert [(items[0].0, items[0].1)] + items[1..] == items;
    }
  }

  /**
   * formatElapsed writes exactly the items of the decomposed difference: a days item
   * only when there are days, an hours item only when there are hours, and always the
   * minutes item, in that order. So "2日3分" is a possible result, and the text
   * determines the whole minutes that elapsed.
   */
  lemma {:induction false} ElapsedTextItems(from: int, to: int)
    requires from <= to
    ensures ParseItems(FormatElapsed(from, to)) == Some(ElapsedItems(Decompose(to - from)))
  {
    var e := Decompose(to - from);
    var items := ElapsedItems(e);
    var m := [NatToString(e.minutes) + "分"];
    var h := if e.hours > 0 then [NatToString(e.hours) + "時間"] else [];
    var d := if e.days > 0 then [NatToString(e.days) + "日"] else [];
    assert RenderItems([(e.minutes, Minute)]) == Join(m);
    assert RenderItems((if e.hours > 0 then [(e.hours, Hour)] else []) + [(e.minutes, Minute)]) == Join(h + m);
    assert RenderItems(items) == Join(d + h + m) by {
      if e.days > 0 {
        assert items[1..] == (if e.hours > 0 then [(e.hours, Hour)] else []) + [(e.minutes, Minute)];
        assert (d + h + m)[1..] == h + m;
      } else {
        assert d + h + m == h + m;
      }
    }
    ParseRenderItems(items);
  }

  // ---------------------------------------------------------------------------
  // formatDateTime

  /** The local calendar fields read from a Date by its getters. */
  datatype DateParts = DateParts(year: int, monthIndex: nat, day: nat, hours: nat, minutes: nat)

  /** The ranges the Date getters return. */
  predicate ValidDateParts(p: DateParts)
  {
    p.monthIndex < 12 && 1 <= p.day <= 31 && p.hours < 24 && p.minutes < 60
  }

  /** `String(x).padStart(2, "0")`: zeros in front up to two characters; longer text is kept. */
  function PadStart2(s: string): (r: string)
    ensures |s| >= 2 ==> r == s
    ensures |s| < 2 ==> |r| == 2 && r[2 - |s|..] == s && forall i :: 0 <= i < 2 - |s| ==> r[i] == '0'
    decreases 2 - |s|
  {
    if |s| >= 2 then s else PadStart2("0" + s)
  }

  /** A two-digit field: below 100, padded text is exactly two digits and reads back as the value. */
  lemma {:induction false} TwoDigitField(n: nat)
    requires n < 100
    ensures |PadStart2(NatToString(n))| == 2 && AllDigits(PadStart2(NatToString(n)))
    ensures ParseNat(PadStart2(NatToString(n))) == n
  {
    var r := PadStart2(NatToString(n));
    if n >= 10 {
      assert NatToString(n) == [DigitChar(n / 10)] + [DigitChar(n % 10)];
      assert r == NatToString(n);
      ParseNatToString(n);
    } else {
      assert r == ['0', DigitChar(n)];
      assert r[..1] == ['0'];
      assert ParseNat(r[..1]) == 0;
    }
  }

  /** formatDateTime: "Y/MM/DD HH:mm" with the month counted from 1. */
  function FormatDateTime(p: DateParts): string
  {
    IntToString(p.year) + "/" + PadStart2(NatToString(p.monthIndex + 1)) + "/" + PadStart2(NatToString(p.day))
    + " " + PadStart2(NatToString(p.hours)) + ":" + PadStart2(NatToString(p.minutes))
  }

  /** Reads "Y/MM/DD HH:mm" back, taking the fixed-width fields from the end. */
  function ParseDateTime(s: string): Option<DateParts>
  {
    var n := |s|;
    if n < 13 || s[n - 12] != '/' || s[n - 9] != '/' || s[n - 6] != ' ' || s[n - 3] != ':' then None
    else if !(AllDigits(s[n - 11..n - 9]) && AllDigits(s[n - 8..n - 6])
              && AllDigits(s[n - 5..n - 3]) && AllDigits(s[n - 2..])) then None
    else
      var month := ParseNat(s[n - 11..n - 9]);
      match ParseInt(s[..n - 12])
      case None => None
      case Some(y) =>
        if month == 0 then None
        else Some(DateParts(y, month - 1, ParseNat(s[n - 8..n - 6]), ParseNat(s[n - 5..n - 3]), ParseNat(s[n - 2..])))
  }

  /** Where the five fields of a "Y/MM/DD HH:mm" text sit when each of the last four is two characters. */
  lemma {:induction false} DateTimeLayout(y: string, mo: string, d: string, h: string, mi: string)
    requires |mo| == 2 && |d| == 2 && |h| == 2 && |mi| == 2
    ensures var s := y + "/" + mo + "/" + d + " " + h + ":" + mi;
      var n := |s|;
      && n == |y| + 12
      && s[n - 12] == '/' && s[n - 9] == '/' && s[n - 6] == ' ' && s[n - 3] == ':'
      && s[..n - 12] == y && s[n - 11..n - 9] == mo && s[n - 8..n - 6] == d
      && s[n - 5..n - 3] == h && s[n - 2..] == mi
  {
    var s := y + "/" + mo + "/" + d + " " + h + ":" + mi;
    assert s == y + ("/" + mo + "/" + d + " " + h + ":" + mi);
  }

  /** Every field of formatDateTime's text is exactly two digits wide, so the text reads back as the date. */
  lemma {:induction false} FormatDateTimeRoundTrip(p: DateParts)
    requires ValidDateParts(p)
    ensures |FormatDateTime(p)| == |IntToString(p.year)| + 12
    ensures ParseDateTime(FormatDateTime(p)) == Some(p)
  {
    var y := IntToString(p.year);
    var mo := PadStart2(NatToString(p.monthIndex + 1));
    var d := PadStart2(NatToString(p.day));
    var h := PadStart2(NatToString(p.hours));
    var mi := PadStart2(NatToString(p.minutes));
    TwoDigitField(p.monthIndex + 1);
    TwoDigitField(p.day);
    TwoDigitField(p.hours);
    TwoDigitField(p.minutes);
    ParseIntToString(p.year);
    DateTimeLayout(y, mo, d, h, mi);
    assert FormatDateTime(p) == y + "/" + mo + "/" + d + " " + h + ":" + mi;
  }
}
