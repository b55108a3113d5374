/**
 * The map-item keys the turn handler writes: `new Date().toISOString()`,
 * the instant of the write rendered as `YYYY-MM-DDTHH:mm:ss.sssZ` (or with a
 * signed six-digit year outside years 0 to 9999), and the fact that for
 * four-digit years the string order of these keys is their chronological order.
 */
module IsoTime {
  import opened Lex

  /** A UTC instant as `Date` breaks it down. */
  datatype Instant = Instant(year: int, month: nat, day: nat, hour: nat, minute: nat, second: nat, millis: nat)

  /** Field ranges of a JavaScript `Date` (the calendar length of each month is not modelled). */
  predicate ValidInstant(t: Instant)
  {
    && -271821 <= t.year <= 275760
    && 1 <= t.month <= 12
    && 1 <= t.day <= 31
    && t.hour < 24
    && t.minute < 60
    && t.second < 60
    && t.millis < 1000
  }

  /** `t1` is strictly earlier than `t2`. */
  predicate Before(t1: Instant, t2: Instant)
  {
    || t1.year < t2.year
    || (t1.year == t2.year && t1.month < t2.month)
    || (t1.year == t2.year && t1.month == t2.month && t1.day < t2.day)
    || (t1.year == t2.year && t1.month == t2.month && t1.day == t2.day && t1.hour < t2.hour)
    || (t1.year == t2.year && t1.month == t2.month && t1.day == t2.day && t1.hour == t2.hour
        && t1.minute < t2.minute)
    || (t1.year == t2.year && t1.month == t2.month && t1.day == t2.day && t1.hour == t2.hour
        && t1.minute == t2.minute && t1.second < t2.second)
    || (t1.year == t2.year && t1.month == t2.month && t1.day == t2.day && t1.hour == t2.hour
        && t1.minute == t2.minute && t1.second == t2.second && t1.millis < t2.millis)
  }

  function Pow10(w: nat): (p: nat)
    ensures p >= 1
  {
    if w == 0 then 1 else 10 * Pow10(w - 1)
  }

  function Digit(d: nat): char
    requires d < 10
  {
    (48 + d) as char
  }

  /** `n` written in decimal with leading zeros to exactly `w` digits. */
  function Pad(n: nat, w: nat): (s: string)
    requires n < Pow10(w)
    ensures |s| == w
  {
    if w == 0 then "" else Pad(n / 10, w - 1) + [Digit(n % 10)]
  }

  /** Zero-padded numerals of one width sort as the numbers do. */
  lemma {:induction false} PadLess(n1: nat, n2: nat, w: nat)
    requires n1 < n2 < Pow10(w)
    ensures Less(Pad(n1, w), Pad(n2, w))
  {
    var h1, h2 := n1 / 10, n2 / 10;
    if h1 < h2 {
      PadLess(h1, h2, w - 1);
      LessExtend(Pad(h1, w - 1), Pad(h2, w - 1), [Digit(n1 % 10)], [Digit(n2 % 10)]);
    } else {
      assert Less([Digit(n1 % 10)], [Digit(n2 % 10)]);
      LessSamePrefix(Pad(h1, w - 1), [Digit(n1 % 10)], [Digit(n2 % 10)]);
    }
  }

  /** One fixed-width numeric field of the rendered string, followed by its separator. */
  datatype Field = Field(value: nat, width: nat, sep: char)

  predicate Fits(fs: seq<Field>)
  {
    forall i :: 0 <= i < |fs| ==> fs[i].value < Pow10(fs[i].width)
  }

  function Render(fs: seq<Field>): string
    requires Fits(fs)
  {
    if fs == [] then "" else Pad(fs[0].value, fs[0].width) + ([fs[0].sep] + Render(fs[1..]))
  }

  /** Same widths and separators, field by field. */
  predicate SameLayout(fs1: seq<Field>, fs2: seq<Field>)
  {
    && |fs1| == |fs2|
    && forall i :: 0 <= i < |fs1| ==> fs1[i].width == fs2[i].width && fs1[i].sep == fs2[i].sep
  }

  /** The field values of `fs1` come before those of `fs2`, most significant first. */
  predicate ValuesBefore(fs1: seq<Field>, fs2: seq<Field>)
    requires |fs1| == |fs2|
  {
    && fs1 != []
    && (|| fs1[0].value < fs2[0].value
        || (fs1[0].value == fs2[0].value && ValuesBefore(fs1[1..], fs2[1..])))
  }

  /** Values equal up to field `k` and smaller at `k` come before. */
  lemma {:induction false} ValuesBeforeAt(fs1: seq<Field>, fs2: seq<Field>, k: nat)
    requires |fs1| == |fs2| && k < |fs1|
    requires forall i :: 0 <= i < k ==> fs1[i].value == fs2[i].value
    requires fs1[k].value < fs2[k].value
    ensures ValuesBefore(fs1, fs2)
  {
    if k > 0 {
      ValuesBeforeAt(fs1[1..], fs2[1..], k - 1);
    }
  }

  lemma {:induction false} RenderMonotonic(fs1: seq<Field>, fs2: seq<Field>)
    requires Fits(fs1) && Fits(fs2) && SameLayout(fs1, fs2) && ValuesBefore(fs1, fs2)
    ensures Less(Render(fs1), Render(fs2))
    decreases |fs1|
  {
    var w, c := fs1[0].width, fs1[0].sep;
    var r1, r2 := [c] + Render(fs1[1..]), [c] + Render(fs2[1..]);
    if fs1[0].value < fs2[0].value {
      PadLess(fs1[0].value, fs2[0].value, w);
      LessExtend(Pad(fs1[0].value, w), Pad(fs2[0].value, w), r1, r2);
    } else {
      assert SameLayout(fs1[1..], fs2[1..]);
      RenderMonotonic(fs1[1..], fs2[1..]);
      LessSamePrefix([c], Render(fs1[1..]), Render(fs2[1..]));
      LessSamePrefix(Pad(fs1[0].value, w), r1, r2);
    }
  }

  /** The numeric fields of `toISOString`, year first. */
  function IsoFields(t: Instant): (fs: seq<Field>)
    requires ValidInstant(t)
    ensures Fits(fs)
  {
    var yearField :=
      if 0 <= t.year <= 9999 then Field(t.year, 4, '-')
      else Field(if t.year < 0 then -t.year else t.year, 6, '-');
    [ yearField, Field(t.month, 2, '-'), Field(t.day, 2, 'T'), Field(t.hour, 2, ':'),
      Field(t.minute, 2, ':'), Field(t.second, 2, '.'), Field(t.millis, 3, 'Z') ]
  }

  /** `Date.prototype.toISOString`. */
  function ToIsoString(t: Instant): (s: string)
    requires ValidInstant(t)
    ensures |s| == |YearPart(t)| + 20 && s[..|YearPart(t)|] == YearPart(t)
    ensures DateTimeAt(s, |YearPart(t)|, t)
  {
    var sign := if 0 <= t.year <= 9999 then "" else if t.year < 0 then "-" else "+";
    IsoString(t, sign);
    sign + Render(IsoFields(t))
  }

  /** From position `i` on, `s` reads `-MM-DDTHH:mm:ss.sssZ` for the month to millisecond of `t`. */
  predicate DateTimeAt(s: string, i: nat, t: Instant)
    requires ValidInstant(t)
  {
    DateAt(s, i, t) && TimeAt(s, i + 6, t)
  }

  /** `s` reads `-MM-DD` at position `i`. */
  predicate DateAt(s: string, i: nat, t: Instant)
    requires ValidInstant(t)
  {
    && i + 6 <= |s|
    && s[i] == '-' && s[i + 1..i + 3] == Pad(t.month, 2)
    && s[i + 3] == '-' && s[i + 4..i + 6] == Pad(t.day, 2)
  }

  /** `s` ends with `THH:mm:ss.sssZ`, starting at position `i`. */
  predicate TimeAt(s: string, i: nat, t: Instant)
    requires ValidInstant(t)
  {
    && |s| == i + 14
    && s[i] == 'T' && s[i + 1..i + 3] == Pad(t.hour, 2)
    && s[i + 3] == ':' && s[i + 4..i + 6] == Pad(t.minute, 2)
    && s[i + 6] == ':' && s[i + 7..i + 9] == Pad(t.second, 2)
    && s[i + 9] == '.' && s[i + 10..i + 13] == Pad(t.millis, 3)
    && s[i + 13] == 'Z'
  }

  lemma IsoString(t: Instant, sign: string)
    requires ValidInstant(t) && sign == if 0 <= t.year <= 9999 then "" else if t.year < 0 then "-" else "+"
    ensures var s := sign + Render(IsoFields(t));
            |s| == |YearPart(t)| + 20 && s[..|YearPart(t)|] == YearPart(t) && DateTimeAt(s, |YearPart(t)|, t)
  {
    var fs := IsoFields(t);
    var x := sign + Render(fs);
    assert x[|sign|..] == Render(fs);
    FieldAt(x, |sign|, fs);
    var p := |sign| + fs[0].width;
    assert x[..p] == sign + x[|sign|..p];
    DateLayout(x, p, t);
    TimeLayout(x, p + 6, t);
  }

  lemma RenderStep(fs: seq<Field>)
    requires Fits(fs) && fs != []
    ensures Render(fs) == Pad(fs[0].value, fs[0].width) + ([fs[0].sep] + Render(fs[1..]))
  {
  }

  /** After the year and its '-', the month and day fields read as `-MM-DD`. */
  lemma DateLayout(x: string, p: nat, t: Instant)
    requires ValidInstant(t) && p < |x| && x[p] == '-' && x[p + 1..] == Render(IsoFields(t)[1..])
    ensures DateAt(x, p, t) && p + 6 < |x| && x[p + 6] == 'T' && x[p + 7..] == Render(IsoFields(t)[3..])
  {
  }

  /** The hour to millisecond fields, after the day's 'T', read as `THH:mm:ss.sssZ` to the end. */
  lemma TimeLayout(x: string, q: nat, t: Instant)
    requires ValidInstant(t) && q < |x| && x[q] == 'T' && x[q + 1..] == Render(IsoFields(t)[3..])
    ensures TimeAt(x, q, t)
  {
    var fs := IsoFields(t)[3..];
    assert fs[1..][1..] == fs[2..] && fs[2..][1..] == fs[3..] && fs[3..][1..] == [];
    FieldAt(x, q + 1, fs);
    FieldAt(x, q + 4, fs[1..]);
    FieldAt(x, q + 7, fs[2..]);
    FieldAt(x, q + 10, fs[3..]);
  }

  /** Where the rendering of `fs` starts in `x`, its first field and separator follow,
      and the rendering of the remaining fields starts right after. */
  lemma FieldAt(x: string, i: nat, fs: seq<Field>)
    requires Fits(fs) && fs != [] && i <= |x| && x[i..] == Render(fs)
    ensures var w := fs[0].width;
            && i + w < |x| && x[i..i + w] == Pad(fs[0].value, w) && x[i + w] == fs[0].sep
            && x[i + w + 1..] == Render(fs[1..])
  {
  }


  /** The year as `toISOString` writes it: four digits, or a sign and six digits. */
  function YearPart(t: Instant): (y: string)
    requires -999999 <= t.year <= 999999
    ensures |y| == if 0 <= t.year <= 9999 then 4 else 7
  {
    if 0 <= t.year <= 9999 then Pad(t.year, 4)
    else if t.year < 0 then "-" + Pad(-t.year, 6)
    else "+" + Pad(t.year, 6)
  }

  /** For four-digit years a later instant gives a lexicographically greater key:
      the ordering the turn handler relies on to read its last write back. */
  lemma IsoMonotonic(t1: Instant, t2: Instant)
    requires ValidInstant(t1) && ValidInstant(t2)
    requires 0 <= t1.year <= 9999 && 0 <= t2.year <= 9999
    requires Before(t1, t2)
    ensures Less(ToIsoString(t1), ToIsoString(t2))
  {
    var fs1, fs2 := IsoFields(t1), IsoFields(t2);
    assert SameLayout(fs1, fs2);
    var k :=
      if t1.year != t2.year then 0
      else if t1.month != t2.month then 1
      else if t1.day != t2.day then 2
      else if t1.hour != t2.hour then 3
      else if t1.minute != t2.minute then 4
      else if t1.second != t2.second then 5
      else 6;
    ValuesBeforeAt(fs1, fs2, k);
    RenderMonotonic(fs1, fs2);
    assert ToIsoString(t1) == Render(fs1) && ToIsoString(t2) == Render(fs2);
  }

  /** Past year 9999 the order breaks: the first instant of year 10000 renders with a
      leading '+', which sorts before the '9' of the last instant of year 9999. */
  lemma IsoOrderBreaksAfterYear9999()
    ensures var last := Instant(9999, 12, 31, 23, 59, 59, 999);
            var next := Instant(10000, 1, 1, 0, 0, 0, 0);
            Before(last, next) && Less(ToIsoString(next), ToIsoString(last))
  {
    var a, b := ToIsoString(Instant(10000, 1, 1, 0, 0, 0, 0)), ToIsoString(Instant(9999, 12, 31, 23, 59, 59, 999));
    assert a[0] == a[..7][0] == '+';
    assert Pad(9999, 4)[0] == Pad(9, 1)[0] == '9';
    assert b[0] == b[..4][0] == '9';
  }
}
