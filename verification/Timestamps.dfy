/** Nanosecond timestamps as RFC 3339 text (section 5.6) and as object names of the archive. */
module Timestamps {
  import opened Wrappers
  import opened Chars
  import opened Calendar

  const NS := 1_000_000_000
  const DAY_NS := 86400 * NS

  // ----- fixed-width decimals -----

  function Decimal(n: nat, w: nat): (s: string)
    ensures |s| == w && AllDigits(s, 0, w)
  {
    if w == 0 then "" else Decimal(n / 10, w - 1) + [((n % 10) + 48) as char]
  }

  function Number(s: string): nat
    requires AllDigits(s, 0, |s|)
  {
    if s == "" then 0 else 10 * Number(s[..|s| - 1]) + (s[|s| - 1] as int - 48)
  }

  lemma {:induction false} NumberOfDecimal(n: nat, w: nat)
    requires n < Pow10(w)
    ensures Number(Decimal(n, w)) == n
  {
    if w > 0 {
      NumberOfDecimal(n / 10, w - 1);
      assert Decimal(n, w)[..w - 1] == Decimal(n / 10, w - 1);
    }
  }

  lemma {:induction false} DecimalOfNumber(s: string)
    requires AllDigits(s, 0, |s|)
    ensures Number(s) < Pow10(|s|) && Decimal(Number(s), |s|) == s
  {
    if s != "" {
      DecimalOfNumber(s[..|s| - 1]);
      assert s == s[..|s| - 1] + [s[|s| - 1]];
    }
  }

  // ----- order of texts of one length -----

  ghost predicate Less(a: string, b: string) {
    |a| == |b| && exists k :: 0 <= k < |a| && a[..k] == b[..k] && a[k] < b[k]
  }

  lemma LessHead(a: string, b: string, x: string, y: string)
    requires Less(a, b) && |x| == |y|
    ensures Less(a + x, b + y)
  {
    var k :| 0 <= k < |a| && a[..k] == b[..k] && a[k] < b[k];
    assert (a + x)[..k] == a[..k] && (b + y)[..k] == b[..k];
  }

  lemma LessTail(a: string, x: string, y: string)
    requires Less(x, y)
    ensures Less(a + x, a + y)
  {
    var k :| 0 <= k < |x| && x[..k] == y[..k] && x[k] < y[k];
    assert (a + x)[..|a| + k] == a + x[..k] && (a + y)[..|a| + k] == a + y[..k];
    assert (a + x)[|a| + k] == x[k] && (a + y)[|a| + k] == y[k];
  }

  /** Of two numbers the smaller has a smaller front, or the same front and a smaller last digit. */
  lemma FrontOrDigit(n: nat, m: nat, bound: nat)
    requires n < m < 10 * bound
    ensures m / 10 < bound && (n / 10 < m / 10 || (n / 10 == m / 10 && n % 10 < m % 10))
  {
  }

  lemma LastDigitAscends(front: string, x: char, y: char)
    requires x < y
    ensures Less(front + [x], front + [y])
  {
    assert [x][..0] == [y][..0];
    LessTail(front, [x], [y]);
  }

  lemma {:induction false} DecimalAscends(n: nat, m: nat, w: nat)
    requires n < m < Pow10(w)
    ensures Less(Decimal(n, w), Decimal(m, w))
  {
    var x, y := ((n % 10) + 48) as char, ((m % 10) + 48) as char;
    FrontOrDigit(n, m, Pow10(w - 1));
    if n / 10 < m / 10 {
      DecimalAscends(n / 10, m / 10, w - 1);
      LessHead(Decimal(n / 10, w - 1), Decimal(m / 10, w - 1), [x], [y]);
    } else {
      LastDigitAscends(Decimal(n / 10, w - 1), x, y);
    }
  }

  // ----- rows of fixed-width fields -----

  /** From position `i` on, each value in its width followed by its separator. */
  function Row(values: seq<nat>, widths: seq<nat>, marks: seq<string>, i: nat): string
    requires |values| == |widths| == |marks| && i <= |values|
    decreases |values| - i
  {
    if i == |values| then "" else Decimal(values[i], widths[i]) + marks[i] + Row(values, widths, marks, i + 1)
  }

  predicate Fits(values: seq<nat>, widths: seq<nat>) {
    |values| == |widths| && forall i :: 0 <= i < |values| ==> values[i] < Pow10(widths[i])
  }

  /** From position `i` on, the first different value is the smaller one. */
  predicate Below(a: seq<nat>, b: seq<nat>, i: nat)
    requires |a| == |b| && i <= |a|
    decreases |a| - i
  {
    i < |a| && (a[i] < b[i] || (a[i] == b[i] && Below(a, b, i + 1)))
  }

  lemma {:induction false} RowLength(a: seq<nat>, b: seq<nat>, widths: seq<nat>, marks: seq<string>, i: nat)
    requires |a| == |b| == |widths| == |marks| && i <= |a|
    ensures |Row(a, widths, marks, i)| == |Row(b, widths, marks, i)|
    decreases |a| - i
  {
    if i < |a| {
      RowLength(a, b, widths, marks, i + 1);
    }
  }

  /** Rows of one layout are ordered as their values are. */
  lemma {:induction false} RowAscends(a: seq<nat>, b: seq<nat>, widths: seq<nat>, marks: seq<string>, i: nat)
    requires |marks| == |widths| && Fits(a, widths) && Fits(b, widths) && i <= |a| && Below(a, b, i)
    ensures Less(Row(a, widths, marks, i), Row(b, widths, marks, i))
    decreases |a| - i
  {
    var x, y := Row(a, widths, marks, i + 1), Row(b, widths, marks, i + 1);
    var d, e := Decimal(a[i], widths[i]), Decimal(b[i], widths[i]);
    if a[i] < b[i] {
      RowLength(a, b, widths, marks, i + 1);
      DecimalAscends(a[i], b[i], widths[i]);
      LessHead(d, e, marks[i] + x, marks[i] + y);
      assert d + marks[i] + x == d + (marks[i] + x) && e + marks[i] + y == e + (marks[i] + y);
    } else {
      RowAscends(a, b, widths, marks, i + 1);
      LessTail(d + marks[i], x, y);
    }
  }

  // ----- timestamps -----

  /** The years 1000 to 9999, which four digits write without padding and a date can hold. */
  predicate Supported(ns: int) {
    DaysBeforeYear(1000) <= ns / DAY_NS + EPOCH < DaysBeforeYear(10000)
  }

  /** Year, month, day, hour, minute, second and nanosecond. */
  function Fields(ns: int): (f: seq<nat>)
    requires ns / DAY_NS + EPOCH >= 0
    ensures |f| == 7
  {
    var date := DateOf(ns / DAY_NS + EPOCH);
    var second := ns % DAY_NS / NS;
    [date.year, date.month, date.day, second / 3600, second / 60 % 60, second % 60, ns % NS]
  }

  predicate ValidFields(f: seq<nat>) {
    |f| == 7 && Valid(Date(f[0], f[1], f[2])) && f[3] < 24 && f[4] < 60 && f[5] < 60 && f[6] < NS
  }

  function FromFields(f: seq<nat>): int
    requires ValidFields(f)
  {
    (DayNumber(Date(f[0], f[1], f[2])) - EPOCH) * DAY_NS + (f[3] * 3600 + f[4] * 60 + f[5]) * NS + f[6]
  }

  const WIDTHS: seq<nat> := [4, 2, 2, 2, 2, 2, 9]
  const RFC3339_MARKS: seq<string> := ["-", "-", "T", ":", ":", ".", "Z"]

  function NsToRfc3339(ns: int): string
    requires Supported(ns)
  {
    Row(Fields(ns), WIDTHS, RFC3339_MARKS, 0)
  }

  /** Zeros on the right up to nine digits. */
  function Padded(s: string): (t: string)
    requires |s| <= 9
    ensures |t| == 9 && t[..|s|] == s
    decreases 9 - |s|
  {
    if |s| == 9 then s else Padded(s + "0")
  }

  lemma {:induction false} PaddedDigits(s: string)
    requires |s| <= 9 && AllDigits(s, 0, |s|)
    ensures AllDigits(Padded(s), 0, 9)
    decreases 9 - |s|
  {
    if |s| < 9 {
      PaddedDigits(s + "0");
    }
  }

  /** The digits of the optional fraction, or nothing when the text has another form. */
  function Fraction(text: string): (f: Option<string>)
    ensures f.Some? ==> |f.value| <= 9 && AllDigits(f.value, 0, |f.value|)
  {
    if !DateTimeAt(text) then None
    else if text[19..] == "Z" then Some("")
    else if 22 <= |text| <= 30 && text[19] == '.' && text[|text| - 1] == 'Z' && AllDigits(text, 20, |text| - 21) then
      Some(text[20..|text| - 1])
    else None
  }

  function Part(text: string, i: nat, n: nat): nat
    requires AllDigits(text, i, n)
  {
    Number(text[i..i + n])
  }

  /** A fraction of a second, in nanoseconds. */
  function Nanoseconds(fraction: string): nat
    requires |fraction| <= 9 && AllDigits(fraction, 0, |fraction|)
  {
    PaddedDigits(fraction);
    Number(Padded(fraction))
  }

  function TextFields(text: string): (f: seq<nat>)
    requires Fraction(text).Some?
    ensures |f| == 7
  {
    [Part(text, 0, 4), Part(text, 5, 2), Part(text, 8, 2), Part(text, 11, 2), Part(text, 14, 2), Part(text, 17, 2),
     Nanoseconds(Fraction(text).value)]
  }

  /** None stands for a text of another form and for a date or time that does not exist. */
  function Rfc3339ToNs(text: string): Option<int> {
    if Fraction(text).Some? && ValidFields(TextFields(text)) then Some(FromFields(TextFields(text))) else None
  }

  // ----- fields and nanoseconds -----

  lemma TimeOfDay(r: nat)
    requires r < DAY_NS
    ensures var s := r / NS; s < 86400 && s / 3600 < 24 && r == (s / 3600 * 3600 + s / 60 % 60 * 60 + s % 60) * NS + r % NS
  {
    var s := r / NS;
    assert s / 60 == s / 3600 * 60 + s / 60 % 60;
  }

  lemma NanosecondOfDay(ns: int)
    ensures ns == ns / DAY_NS * DAY_NS + ns % DAY_NS && 0 <= ns % DAY_NS < DAY_NS
    ensures ns % NS == ns % DAY_NS % NS
  {
    var q, r := ns / DAY_NS, ns % DAY_NS;
    DivMod(ns, NS, q * 86400 + r / NS, r % NS);
  }

  /** Day, second of the day and nanosecond make up the instant. */
  lemma Recomposed(ns: int, q: int, r: nat, n: nat, h: nat, m: nat, s: nat)
    requires ns == q * DAY_NS + r && r == (h * 3600 + m * 60 + s) * NS + n
    ensures ns == q * DAY_NS + (h * 3600 + m * 60 + s) * NS + n
  {
  }

  lemma FieldsRoundTrip(ns: int)
    requires ns / DAY_NS + EPOCH >= 0
    ensures ValidFields(Fields(ns)) && FromFields(Fields(ns)) == ns
  {
    NanosecondOfDay(ns);
    var r := ns % DAY_NS;
    TimeOfDay(r);
    var s := r / NS;
    Recomposed(ns, ns / DAY_NS, r, r % NS, s / 3600, s / 60 % 60, s % 60);
  }

  lemma FieldsOfValid(f: seq<nat>)
    requires ValidFields(f)
    ensures FromFields(f) / DAY_NS + EPOCH == DayNumber(Date(f[0], f[1], f[2])) && Fields(FromFields(f)) == f
  {
    var d, s := DayNumber(Date(f[0], f[1], f[2])) - EPOCH, f[3] * 3600 + f[4] * 60 + f[5];
    DayParts(FromFields(f), d, s, f[6]);
    DateOfNumber(Date(f[0], f[1], f[2]));
    SecondParts(f[3], f[4], f[5]);
  }

  lemma DayParts(ns: int, day: int, second: nat, n: nat)
    requires second < 86400 && n < NS && ns == day * DAY_NS + second * NS + n
    ensures ns / DAY_NS == day && ns % DAY_NS / NS == second && ns % NS == n
  {
    DivMod(ns, DAY_NS, day, second * NS + n);
    DivMod(second * NS + n, NS, second, n);
    DivMod(ns, NS, day * 86400 + second, n);
  }

  lemma SecondParts(hour: nat, minute: nat, second: nat)
    requires hour < 24 && minute < 60 && second < 60
    ensures var s := hour * 3600 + minute * 60 + second; s / 3600 == hour && s / 60 % 60 == minute && s % 60 == second
  {
    var s := hour * 3600 + minute * 60 + second;
    DivMod(s, 3600, hour, minute * 60 + second);
    DivMod(s, 60, hour * 60 + minute, second);
    DivMod(hour * 60 + minute, 60, hour, minute);
  }

  lemma Powers()
    ensures Pow10(2) == 100 && Pow10(4) == 10_000 && Pow10(9) == NS
  {
    assert Pow10(4) == 100 * Pow10(2);
    assert Pow10(6) == 100 * Pow10(4);
    assert Pow10(8) == 100 * Pow10(6);
  }

  lemma ValidFieldsFit(f: seq<nat>)
    requires ValidFields(f) && f[0] < 10_000
    ensures Fits(f, WIDTHS)
  {
    Powers();
  }

  lemma SupportedYears(ns: int)
    requires ns / DAY_NS + EPOCH >= 0
    ensures Supported(ns) <==> 1000 <= Fields(ns)[0] < 10_000
  {
    var date := DateOf(ns / DAY_NS + EPOCH);
    DayNumberAscends(date, Date(10_000, 1, 1));
    DayNumberAscends(date, Date(1000, 1, 1));
  }

  /** Later instants have greater fields. */
  lemma FieldsAscend(a: int, b: int)
    requires a / DAY_NS + EPOCH >= 0 && b / DAY_NS + EPOCH >= 0 && a < b
    ensures Below(Fields(a), Fields(b), 0)
  {
    FieldsRoundTrip(a);
    FieldsRoundTrip(b);
    FieldsBelow(Fields(a), Fields(b));
  }

  lemma FieldsBelow(f: seq<nat>, g: seq<nat>)
    requires ValidFields(f) && ValidFields(g) && FromFields(f) < FromFields(g)
    ensures Below(f, g, 0)
  {
    var d, e := Date(f[0], f[1], f[2]), Date(g[0], g[1], g[2]);
    var a, b := DayNumber(d) - EPOCH, DayNumber(e) - EPOCH;
    ScaledGap(b, a, DAY_NS);
    WithinDay(f);
    WithinDay(g);
    assert a <= b;
    DayNumberAscends(d, e);
    BelowUnfolds(f, g);
    if a == b {
      TimeBelow(f, g);
    }
  }

  lemma WithinDay(f: seq<nat>)
    requires ValidFields(f)
    ensures 0 <= (f[3] * 3600 + f[4] * 60 + f[5]) * NS + f[6] < DAY_NS
  {
  }

  lemma TimeBelow(f: seq<nat>, g: seq<nat>)
    requires ValidFields(f) && ValidFields(g)
    requires (f[3] * 3600 + f[4] * 60 + f[5]) * NS + f[6] < (g[3] * 3600 + g[4] * 60 + g[5]) * NS + g[6]
    ensures f[3] < g[3] || (f[3] == g[3] && (f[4] < g[4] || (f[4] == g[4] && (f[5] < g[5] || (f[5] == g[5] && f[6] < g[6])))))
  {
  }

  lemma BelowUnfolds(f: seq<nat>, g: seq<nat>)
    requires |f| == |g| == 7
    ensures Below(f, g, 0) <==>
            f[0] < g[0] || (f[0] == g[0] && (f[1] < g[1] || (f[1] == g[1] && (f[2] < g[2] || (f[2] == g[2] &&
            (f[3] < g[3] || (f[3] == g[3] && (f[4] < g[4] || (f[4] == g[4] && (f[5] < g[5] || (f[5] == g[5] &&
            f[6] < g[6])))))))))))
  {
    assert !Below(f, g, 7);
    assert Below(f, g, 5) <==> f[5] < g[5] || (f[5] == g[5] && f[6] < g[6]);
    assert Below(f, g, 3) <==> f[3] < g[3] || (f[3] == g[3] && Below(f, g, 4));
    assert Below(f, g, 2) <==> f[2] < g[2] || (f[2] == g[2] && Below(f, g, 3));
  }

  // ----- the text and its fields -----

  /** The layout of a written timestamp, character by character. */
  lemma RowText(f: seq<nat>)
    requires |f| == 7
    ensures var t := Row(f, WIDTHS, RFC3339_MARKS, 0);
            && |t| == 30 && t[0..4] == Decimal(f[0], 4) && t[4] == '-' && t[5..7] == Decimal(f[1], 2) && t[7] == '-'
            && t[8..10] == Decimal(f[2], 2) && t[10] == 'T' && t[11..13] == Decimal(f[3], 2) && t[13] == ':'
            && t[14..16] == Decimal(f[4], 2) && t[16] == ':' && t[17..19] == Decimal(f[5], 2) && t[19] == '.'
            && t[20..29] == Decimal(f[6], 9) && t[29] == 'Z'
  {
    var t := Row(f, WIDTHS, RFC3339_MARKS, 0);
    assert Row(f, WIDTHS, RFC3339_MARKS, 7) == "";
    RowPart(f, WIDTHS, RFC3339_MARKS, 6, 9, 'Z');
    RowPart(f, WIDTHS, RFC3339_MARKS, 5, 2, '.');
    RowPart(f, WIDTHS, RFC3339_MARKS, 4, 2, ':');
    RowPart(f, WIDTHS, RFC3339_MARKS, 3, 2, ':');
    RowPart(f, WIDTHS, RFC3339_MARKS, 2, 2, 'T');
    RowPart(f, WIDTHS, RFC3339_MARKS, 1, 2, '-');
    RowPart(f, WIDTHS, RFC3339_MARKS, 0, 4, '-');
    Shifted(t, 5, Row(f, WIDTHS, RFC3339_MARKS, 1), 3);
    Shifted(t, 8, Row(f, WIDTHS, RFC3339_MARKS, 2), 3);
    Shifted(t, 11, Row(f, WIDTHS, RFC3339_MARKS, 3), 3);
    Shifted(t, 14, Row(f, WIDTHS, RFC3339_MARKS, 4), 3);
    Shifted(t, 17, Row(f, WIDTHS, RFC3339_MARKS, 5), 3);
    Shifted(t, 20, Row(f, WIDTHS, RFC3339_MARKS, 6), 10);
  }

  lemma Shifted(t: string, i: nat, u: string, w: nat)
    requires i <= |t| && t[i..] == u && 1 <= w <= |u|
    ensures t[i..i + w - 1] == u[..w - 1] && t[i + w - 1] == u[w - 1] && t[i + w..] == u[w..]
  {
  }

  lemma RowPart(f: seq<nat>, widths: seq<nat>, marks: seq<string>, i: nat, w: nat, c: char)
    requires |f| == |widths| == |marks| && i < |f| && widths[i] == w && marks[i] == [c]
    ensures var t := Row(f, widths, marks, i);
            |t| >= w + 1 && t[..w] == Decimal(f[i], w) && t[w] == c && t[w + 1..] == Row(f, widths, marks, i + 1)
  {
  }

  lemma PartIs(t: string, i: nat, n: nat, v: nat)
    requires i + n <= |t| && t[i..i + n] == Decimal(v, n)
    ensures AllDigits(t, i, n) && (v < Pow10(n) ==> Part(t, i, n) == v)
  {
    forall y | i <= y < i + n
      ensures IsDigit(t[y])
    {
      assert t[y] == t[i..i + n][y - i];
    }
    if v < Pow10(n) {
      NumberOfDecimal(v, n);
    }
  }

  lemma WrittenReadsBack(f: seq<nat>)
    requires Fits(f, WIDTHS)
    ensures var t := Row(f, WIDTHS, RFC3339_MARKS, 0); Fraction(t).Some? && TextFields(t) == f
  {
    var t := Row(f, WIDTHS, RFC3339_MARKS, 0);
    RowText(f);
    PartIs(t, 0, 4, f[0]);
    PartIs(t, 5, 2, f[1]);
    PartIs(t, 8, 2, f[2]);
    PartIs(t, 11, 2, f[3]);
    PartIs(t, 14, 2, f[4]);
    PartIs(t, 17, 2, f[5]);
    WrittenFraction(t, f[6]);
  }

  lemma WrittenFraction(t: string, n: nat)
    requires |t| == 30 && DateTimeAt(t) && t[19] == '.' && t[20..29] == Decimal(n, 9) && t[29] == 'Z' && n < NS
    ensures Fraction(t) == Some(Decimal(n, 9)) && Nanoseconds(Decimal(n, 9)) == n
  {
    Powers();
    PartIs(t, 20, 9, n);
    assert |t[19..]| == 11;
  }

  /** Writing a timestamp and reading it back gives the same nanosecond. */
  lemma TimestampRoundTrip(ns: int)
    requires Supported(ns)
    ensures Rfc3339ToNs(NsToRfc3339(ns)) == Some(ns)
  {
    FieldsRoundTrip(ns);
    SupportedYears(ns);
    ValidFieldsFit(Fields(ns));
    WrittenReadsBack(Fields(ns));
  }

  lemma DecimalOfPart(text: string, i: nat, n: nat)
    requires AllDigits(text, i, n)
    ensures Part(text, i, n) < Pow10(n) && Decimal(Part(text, i, n), n) == text[i..i + n]
  {
    DecimalOfNumber(text[i..i + n]);
  }

  /** Reading any accepted text of a year from 1000 on and writing it again gives the same text with
      its fraction padded to nine digits. */
  lemma TimestampNormalised(text: string)
    requires Rfc3339ToNs(text).Some? && Part(text, 0, 4) >= 1000
    ensures Supported(Rfc3339ToNs(text).value)
    ensures NsToRfc3339(Rfc3339ToNs(text).value) == text[..19] + "." + Padded(Fraction(text).value) + "Z"
  {
    var f, ns := TextFields(text), Rfc3339ToNs(text).value;
    FieldsOfValid(f);
    DecimalOfPart(text, 0, 4);
    Powers();
    SupportedYears(ns);
    RowText(f);
    DecimalOfPart(text, 5, 2);
    DecimalOfPart(text, 8, 2);
    DecimalOfPart(text, 11, 2);
    DecimalOfPart(text, 14, 2);
    DecimalOfPart(text, 17, 2);
    PaddedDigits(Fraction(text).value);
    DecimalOfNumber(Padded(Fraction(text).value));
    SameStamp(NsToRfc3339(ns), text, Padded(Fraction(text).value));
  }

  lemma SameStamp(t: string, text: string, nine: string)
    requires |t| == 30 && |nine| == 9 && DateTimeAt(text)
    requires t[4] == '-' && t[7] == '-' && t[10] == 'T' && t[13] == ':' && t[16] == ':' && t[19] == '.' && t[29] == 'Z'
    requires t[0..4] == text[0..4] && t[5..7] == text[5..7] && t[8..10] == text[8..10]
    requires t[11..13] == text[11..13] && t[14..16] == text[14..16] && t[17..19] == text[17..19] && t[20..29] == nine
    ensures t == text[..19] + "." + nine + "Z"
  {
    assert t[..19] == t[0..4] + "-" + t[5..7] + "-" + t[8..10] + "T" + t[11..13] + ":" + t[14..16] + ":" + t[17..19];
    assert text[..19] == text[0..4] + "-" + text[5..7] + "-" + text[8..10] + "T" + text[11..13] + ":" + text[14..16] + ":" + text[17..19];
    assert t == t[..19] + "." + t[20..29] + "Z";
  }

  /** A text of the form, cut into its first 19 characters, a point and one to nine digits or nothing, and
      the letter of the zone. */
  predicate HasForm(text: string, fraction: string) {
    && DateTimeAt(text) && |fraction| <= 9 && AllDigits(fraction, 0, |fraction|)
    && text == text[..19] + (if fraction == "" then "" else "." + fraction) + "Z"
  }

  lemma FractionExactly(text: string, fraction: string)
    ensures Fraction(text) == Some(fraction) <==> HasForm(text, fraction)
  {
    if HasForm(text, fraction) {
      if fraction == "" {
        assert text[19..] == "Z";
      } else {
        assert text[20..|text| - 1] == fraction;
        assert forall y :: 20 <= y < |text| - 1 ==> text[y] == fraction[y - 20];
        assert |text[19..]| > 1;
      }
    }
    if Fraction(text) == Some(fraction) {
      if fraction == "" {
        assert text == text[..19] + text[19..];
      } else {
        assert text == text[..19] + [text[19]] + text[20..|text| - 1] + [text[|text| - 1]];
      }
    }
  }

  /** A date and time that exists, by the closed form of the calendar. */
  predicate Exists(y: nat, m: nat, d: nat, hour: nat, minute: nat, second: nat) {
    && 1 <= y && 1 <= m <= 12 && 1 <= d <= DaysTo(y, m + 1) - DaysTo(y, m)
    && hour < 24 && minute < 60 && second < 60
  }

  lemma ValidExists(f: seq<nat>)
    requires |f| == 7 && f[6] < NS
    ensures ValidFields(f) <==> Exists(f[0], f[1], f[2], f[3], f[4], f[5])
  {
    if 1 <= f[0] && 1 <= f[1] <= 12 {
      MonthDaysClosed(f[0], f[1]);
    }
  }

  lemma FieldsMean(f: seq<nat>)
    requires ValidFields(f)
    ensures FromFields(f) == (((DaysTo(f[0], f[1]) + f[2] - 719_163) * 24 + f[3]) * 60 + f[4]) * 60_000_000_000
                             + f[5] * 1_000_000_000 + f[6]
  {
    var d := Date(f[0], f[1], f[2]);
    DayNumberClosed(d);
    var n := DayNumber(d) - EPOCH;
    assert n == DaysTo(f[0], f[1]) + f[2] - 719_163;
  }

  lemma NanosecondsFit(text: string)
    requires Fraction(text).Some?
    ensures TextFields(text)[6] < NS
  {
    PaddedDigits(Fraction(text).value);
    DecimalOfNumber(Padded(Fraction(text).value));
    Powers();
  }

  /** What a text stands for: it is read exactly if it has the form and its date and time exist, and then as
      the nanoseconds from the beginning of 1970, counted from its digits. */
  lemma TextMeans(text: string)
    requires Fraction(text).Some?
    ensures var y, m, d := Part(text, 0, 4), Part(text, 5, 2), Part(text, 8, 2);
            var hour, minute, second := Part(text, 11, 2), Part(text, 14, 2), Part(text, 17, 2);
            if Exists(y, m, d, hour, minute, second)
            then Rfc3339ToNs(text) == Some((((DaysTo(y, m) + d - 719_163) * 24 + hour) * 60 + minute) * 60_000_000_000
                                           + second * 1_000_000_000 + Nanoseconds(Fraction(text).value))
            else Rfc3339ToNs(text).None?
  {
    var f := TextFields(text);
    NanosecondsFit(text);
    ValidExists(f);
    if ValidFields(f) {
      FieldsMean(f);
    }
  }

  // ----- object names -----

  function ObjectMarks(service: string): seq<string> {
    ["/", "/", "/" + service + "/", "", "", ".", "Z.ndjson.gz.age"]
  }

  function ObjectName(prefix: string, service: string, untilNs: int): string
    requires Supported(untilNs)
  {
    prefix + Row(Fields(untilNs), WIDTHS, ObjectMarks(service), 0)
  }

  /** The name is laid out from the written timestamp: its date in directories before the service's, and its
      time and fraction in the file name. */
  lemma NameFromStamp(prefix: string, service: string, untilNs: int)
    requires Supported(untilNs)
    ensures var t := NsToRfc3339(untilNs);
            |t| == 30 && ObjectName(prefix, service, untilNs) ==
              prefix + (t[0..4] + "/" + (t[5..7] + "/" + (t[8..10] + ("/" + service + "/") +
                (t[11..13] + (t[14..16] + (t[17..19] + "." + (t[20..29] + "Z.ndjson.gz.age")))))))
  {
    RowText(Fields(untilNs));
    ObjectRow(Fields(untilNs), service);
  }

  lemma ObjectRow(f: seq<nat>, service: string)
    requires |f| == 7
    ensures Row(f, WIDTHS, ObjectMarks(service), 0) ==
              Decimal(f[0], 4) + "/" + (Decimal(f[1], 2) + "/" + (Decimal(f[2], 2) + ("/" + service + "/") +
                (Decimal(f[3], 2) + (Decimal(f[4], 2) + (Decimal(f[5], 2) + "." + (Decimal(f[6], 9) + "Z.ndjson.gz.age"))))))
  {
    var m := ObjectMarks(service);
    ObjectTime(f, m);
    RowFrom(f, WIDTHS, m, 2, 2, "/" + service + "/");
    RowFrom(f, WIDTHS, m, 1, 2, "/");
    RowFrom(f, WIDTHS, m, 0, 4, "/");
  }

  lemma ObjectTime(f: seq<nat>, m: seq<string>)
    requires |f| == |m| == 7 && m[3] == m[4] == "" && m[5] == "." && m[6] == "Z.ndjson.gz.age"
    ensures Row(f, WIDTHS, m, 3) ==
              Decimal(f[3], 2) + (Decimal(f[4], 2) + (Decimal(f[5], 2) + "." + (Decimal(f[6], 9) + "Z.ndjson.gz.age")))
  {
    ObjectSeconds(f, m);
    RowFrom(f, WIDTHS, m, 4, 2, "");
    RowFrom(f, WIDTHS, m, 3, 2, "");
  }

  lemma ObjectSeconds(f: seq<nat>, m: seq<string>)
    requires |f| == |m| == 7 && m[5] == "." && m[6] == "Z.ndjson.gz.age"
    ensures Row(f, WIDTHS, m, 5) == Decimal(f[5], 2) + "." + (Decimal(f[6], 9) + "Z.ndjson.gz.age")
  {
    assert Row(f, WIDTHS, m, 7) == "";
    RowFrom(f, WIDTHS, m, 6, 9, "Z.ndjson.gz.age");
    RowFrom(f, WIDTHS, m, 5, 2, ".");
  }

  lemma RowFrom(f: seq<nat>, widths: seq<nat>, marks: seq<string>, i: nat, w: nat, mark: string)
    requires |f| == |widths| == |marks| && i < |f| && widths[i] == w && marks[i] == mark
    ensures var rest := Row(f, widths, marks, i + 1);
            && Row(f, widths, marks, i) == Decimal(f[i], w) + mark + rest
            && (mark == "" ==> Row(f, widths, marks, i) == Decimal(f[i], w) + rest)
            && (rest == "" ==> Row(f, widths, marks, i) == Decimal(f[i], w) + mark)
  {
  }

  /** For one service, names sort as their windows end; so two windows never share a name. */
  lemma ObjectNamesAscend(prefix: string, service: string, a: int, b: int)
    requires Supported(a) && Supported(b) && a < b
    ensures Less(ObjectName(prefix, service, a), ObjectName(prefix, service, b))
    ensures ObjectName(prefix, service, a) != ObjectName(prefix, service, b)
  {
    FieldsRoundTrip(a);
    FieldsRoundTrip(b);
    SupportedYears(a);
    SupportedYears(b);
    ValidFieldsFit(Fields(a));
    ValidFieldsFit(Fields(b));
    FieldsAscend(a, b);
    RowAscends(Fields(a), Fields(b), WIDTHS, ObjectMarks(service), 0);
    LessTail(prefix, Row(Fields(a), WIDTHS, ObjectMarks(service), 0), Row(Fields(b), WIDTHS, ObjectMarks(service), 0));
  }

  /** Written timestamps sort as the instants they name. */
  lemma TimestampsAscend(a: int, b: int)
    requires Supported(a) && Supported(b) && a < b
    ensures Less(NsToRfc3339(a), NsToRfc3339(b))
  {
    FieldsRoundTrip(a);
    FieldsRoundTrip(b);
    SupportedYears(a);
    SupportedYears(b);
    ValidFieldsFit(Fields(a));
    ValidFieldsFit(Fields(b));
    FieldsAscend(a, b);
    RowAscends(Fields(a), Fields(b), WIDTHS, RFC3339_MARKS, 0);
  }
}
