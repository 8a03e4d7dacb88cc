/** The names the extractor builds from an origin time: the event directory
    name `eYYYYMMDD.hhmmss`, the per-segment output file and the path of a
    continuous day volume. Integer formatting follows Python's `str.format`
    for the specifiers the script uses: `{}` (plain), `{:4}` (right-aligned,
    blank-filled) and `{:02}` (zero-filled after the sign). */
module Naming {
  import opened Calendar

  datatype Option<T> = None | Some(value: T)

  function DigitChar(d: int): char
    requires 0 <= d <= 9
  {
    ('0' as int + d) as char
  }

  /** Decimal digits of n, without leading zeros. */
  function NatToString(n: nat): (s: string)
    ensures 1 <= |s|
    decreases n
  {
    if n < 10 then [DigitChar(n)] else NatToString(n / 10) + [DigitChar(n % 10)]
  }

  /** Python's `str` of an int. */
  function IntToString(n: int): string {
    if n < 0 then "-" + NatToString(-n) else NatToString(n)
  }

  /** k copies of c (none when k is not positive). */
  function Fill(c: char, k: int): (s: string)
    ensures |s| == if k > 0 then k else 0
    ensures forall i :: 0 <= i < |s| ==> s[i] == c
    decreases if k > 0 then k else 0
  {
    if k <= 0 then [] else [c] + Fill(c, k - 1)
  }

  /** `{:w}`: the decimal form right-aligned in a field of width w. */
  function FormatWidth(n: int, w: nat): string {
    var s := IntToString(n);
    Fill(' ', w - |s|) + s
  }

  /** `{:0w}`: zero-filled to width w, the zeros going after a minus sign. */
  function FormatZeroPad(n: int, w: nat): string {
    if n < 0 then "-" + Fill('0', w - 1 - |NatToString(-n)|) + NatToString(-n)
    else Fill('0', w - |NatToString(n)|) + NatToString(n)
  }

  function Pow10(k: nat): nat {
    if k == 0 then 1 else 10 * Pow10(k - 1)
  }

  /** A number below 10^k has at most k digits. */
  lemma {:induction false} NatToStringShort(n: nat, k: nat)
    requires 1 <= k && n < Pow10(k)
    ensures |NatToString(n)| <= k
  {
    if n >= 10 {
      assert Pow10(k) == 10 * Pow10(k - 1);
      NatToStringShort(n / 10, k - 1);
    }
  }

  predicate IsDigit(c: char) {
    '0' <= c <= '9'
  }

  predicate AllDigits(s: string) {
    forall i :: 0 <= i < |s| ==> IsDigit(s[i])
  }

  lemma AllDigitsAppend(a: string, b: string)
    requires AllDigits(a) && AllDigits(b)
    ensures AllDigits(a + b)
  {
    forall i | 0 <= i < |a + b|
      ensures IsDigit((a + b)[i])
    {
      if i >= |a| {
        assert (a + b)[i] == b[i - |a|];
      }
    }
  }

  /** The decimal form of n is all digits, and starts with '0' only for n == 0. */
  lemma {:induction false} NatToStringDigits(n: nat)
    ensures AllDigits(NatToString(n))
    ensures NatToString(n)[0] == '0' <==> n == 0
    ensures n == 0 ==> NatToString(n) == "0"
    decreases n
  {
    if n >= 10 {
      NatToStringDigits(n / 10);
      AllDigitsAppend(NatToString(n / 10), [DigitChar(n % 10)]);
    }
  }

  /** Value of a decimal digit (the readers below only pass digits). */
  function DigitValue(c: char): nat {
    if '0' <= c <= '9' then c as int - '0' as int else 0
  }

  /** Reads the characters of s as decimal digits, most significant first,
      continuing from the value acc already read. */
  function ReadDecimal(acc: nat, s: string): nat
    decreases |s|
  {
    if s == [] then acc else ReadDecimal(acc * 10 + DigitValue(s[0]), s[1..])
  }

  lemma {:induction false} ReadDecimalAppend(acc: nat, a: string, b: string)
    ensures ReadDecimal(acc, a + b) == ReadDecimal(ReadDecimal(acc, a), b)
    decreases |a|
  {
    if a != [] {
      assert (a + b)[1..] == a[1..] + b;
      ReadDecimalAppend(acc * 10 + DigitValue(a[0]), a[1..], b);
    } else {
      assert a + b == b;
    }
  }

  /** Reading back the decimal form of n gives n. */
  lemma {:induction false} ReadNatToString(n: nat)
    ensures ReadDecimal(0, NatToString(n)) == n
    decreases n
  {
    if n >= 10 {
      ReadNatToString(n / 10);
      ReadDecimalAppend(0, NatToString(n / 10), [DigitChar(n % 10)]);
    }
  }

  /** Leading fill characters read as zeros. */
  lemma {:induction false} ReadFill(c: char, k: int)
    requires DigitValue(c) == 0
    ensures ReadDecimal(0, Fill(c, k)) == 0
    decreases if k > 0 then k else 0
  {
    if k > 0 {
      assert Fill(c, k)[1..] == Fill(c, k - 1);
      ReadFill(c, k - 1);
    }
  }

  /** Reads a field that is digits only, such as one formatted with `{:0w}`;
      anything else, the empty field included, is rejected. */
  function ParseDigits(s: string): Option<nat> {
    if s != [] && AllDigits(s) then Some(ReadDecimal(0, s)) else None
  }

  /** Reads a field formatted with `{:w}`: leading blanks, then the digits of
      the number without a leading zero (the number 0 is the single digit
      '0'); anything else is rejected. */
  function ParseBlankPadded(s: string): Option<nat>
    decreases |s|
  {
    if s == [] then None
    else if s[0] == ' ' then ParseBlankPadded(s[1..])
    else if AllDigits(s) && (s[0] != '0' || |s| == 1) then Some(ReadDecimal(0, s))
    else None
  }

  lemma {:induction false} ParseAfterBlanks(k: int, d: string)
    requires d != [] && d[0] != ' '
    ensures ParseBlankPadded(Fill(' ', k) + d) == ParseBlankPadded(d)
    decreases if k > 0 then k else 0
  {
    if k > 0 {
      var s := Fill(' ', k) + d;
      assert s[0] == ' ';
      assert s[1..] == Fill(' ', k - 1) + d;
      ParseAfterBlanks(k - 1, d);
    } else {
      assert Fill(' ', k) + d == d;
    }
  }

  /** A non-negative number formatted with `{:w}` is blanks followed by its
      digits, with no leading zero, and reads back as itself; formatted with
      `{:0w}` it is all digits and reads back as itself. Either takes exactly
      w characters when the number has at most w digits. */
  lemma ReadPadded(n: nat, w: nat)
    ensures ParseBlankPadded(FormatWidth(n, w)) == Some(n)
    ensures AllDigits(FormatZeroPad(n, w)) && ParseDigits(FormatZeroPad(n, w)) == Some(n)
    ensures |NatToString(n)| <= w ==> |FormatWidth(n, w)| == w && |FormatZeroPad(n, w)| == w
  {
    var s := NatToString(n);
    NatToStringDigits(n);
    ReadNatToString(n);
    ParseAfterBlanks(w - |s|, s);
    assert ParseBlankPadded(s) == Some(n);
    var z := Fill('0', w - |s|);
    AllDigitsAppend(z, s);
    ReadFill('0', w - |s|);
    ReadDecimalAppend(0, z, s);
  }

  /** The timestamp fields shown in an event name. */
  datatype Stamp = Stamp(year: int, month: int, day: int, hour: int, minute: int, second: int)

  function StampOf(f: DateTime): Stamp {
    Stamp(f.year, f.month, f.day, f.hour, f.minute, f.second)
  }

  /** The timestamp `{year:4}{month:02}{day:02}.{hour:02}{minute:02}{second:02}`
      that both the event directory name and every segment file name carry. */
  function StampText(f: DateTime): string {
    FormatWidth(f.year, 4) + FormatZeroPad(f.month, 2) + FormatZeroPad(f.day, 2)
      + "." + FormatZeroPad(f.hour, 2) + FormatZeroPad(f.minute, 2) + FormatZeroPad(f.second, 2)
  }

  /** The event directory name `e` followed by the timestamp, for the
      calendar fields f of the origin time. */
  function EventNameOf(f: DateTime): string {
    "e" + StampText(f)
  }

  function EventName(t: int): string {
    EventNameOf(FieldsOf(t))
  }

  /** Reads the six fields of a timestamp: a blank-padded year, then
      digit-only month, day, hour, minute and second. */
  function ParseStamp(y: string, mo: string, d: string, h: string, mi: string, se: string): Option<Stamp> {
    var year, month, day := ParseBlankPadded(y), ParseDigits(mo), ParseDigits(d);
    var hour, minute, second := ParseDigits(h), ParseDigits(mi), ParseDigits(se);
    if year.Some? && month.Some? && day.Some? && hour.Some? && minute.Some? && second.Some? then
      Some(Stamp(year.value, month.value, day.value, hour.value, minute.value, second.value))
    else None
  }

  /** Reads the timestamp back out of a 16-character event name
      `e{year:4}{month:02}{day:02}.{hour:02}{minute:02}{second:02}`. */
  function ParseEventName(s: string): Option<Stamp> {
    if |s| == 16 && s[0] == 'e' && s[9] == '.' then
      ParseStamp(s[1..5], s[5..7], s[7..9], s[10..12], s[12..14], s[14..16])
    else None
  }

  /** A field formatted with `{:w}` or `{:0w}` whose value has at most w digits
      takes w characters and reads back as itself. */
  lemma PaddedField(n: nat, w: nat)
    requires 1 <= w && n < Pow10(w)
    ensures |FormatWidth(n, w)| == w && ParseBlankPadded(FormatWidth(n, w)) == Some(n)
    ensures |FormatZeroPad(n, w)| == w && AllDigits(FormatZeroPad(n, w)) && ParseDigits(FormatZeroPad(n, w)) == Some(n)
  {
    NatToStringShort(n, w);
    ReadPadded(n, w);
  }

  /** With the year in 0 to 9999 and every other field in its calendar range,
      the event name is 16 characters long: `e`, the year blank-padded to four
      characters, month and day as two digits each, `.`, and hour, minute and
      second as two digits each; and its timestamp reads back. */
  lemma EventNameOfRoundTrip(f: DateTime)
    requires 0 <= f.year <= 9999 && 1 <= f.month <= 12 && 1 <= f.day <= 31
    requires 0 <= f.hour < 24 && 0 <= f.minute < 60 && 0 <= f.second < 60
    ensures var name := EventNameOf(f);
      && |name| == 16 && name[0] == 'e' && name[9] == '.'
      && ParseBlankPadded(name[1..5]) == Some(f.year)
      && (forall i :: 5 <= i < 16 && i != 9 ==> IsDigit(name[i]))
    ensures ParseEventName(EventNameOf(f)) == Some(StampOf(f))
  {
    assert Pow10(4) == 10000 && Pow10(2) == 100;
    PaddedField(f.year, 4);
    PaddedField(f.month, 2);
    PaddedField(f.day, 2);
    PaddedField(f.hour, 2);
    PaddedField(f.minute, 2);
    PaddedField(f.second, 2);
    var y, mo, d := FormatWidth(f.year, 4), FormatZeroPad(f.month, 2), FormatZeroPad(f.day, 2);
    var h, mi, se := FormatZeroPad(f.hour, 2), FormatZeroPad(f.minute, 2), FormatZeroPad(f.second, 2);
    StampFieldsAt(y, mo, d, h, mi, se);
  }

  /** Where each field sits in a name built from fields of widths 4, 2, 2, 2, 2, 2. */
  lemma StampFieldsAt(y: string, mo: string, d: string, h: string, mi: string, se: string)
    requires |y| == 4 && |mo| == 2 && |d| == 2 && |h| == 2 && |mi| == 2 && |se| == 2
    ensures var s := "e" + (y + mo + d + "." + h + mi + se);
      && |s| == 16 && s[0] == 'e' && s[9] == '.'
      && s[1..5] == y && s[5..7] == mo && s[7..9] == d
      && s[10..12] == h && s[12..14] == mi && s[14..16] == se
      && ParseEventName(s) == ParseStamp(y, mo, d, h, mi, se)
    ensures var s := "e" + (y + mo + d + "." + h + mi + se);
      AllDigits(mo) && AllDigits(d) && AllDigits(h) && AllDigits(mi) && AllDigits(se) ==>
        forall i :: 5 <= i < 16 && i != 9 ==> IsDigit(s[i])
  {
    var s := "e" + (y + mo + d + "." + h + mi + se);
    if AllDigits(mo) && AllDigits(d) && AllDigits(h) && AllDigits(mi) && AllDigits(se) {
      forall i | 5 <= i < 16 && i != 9
        ensures IsDigit(s[i])
      {
        if i < 7 { assert s[i] == mo[i - 5]; }
        else if i < 9 { assert s[i] == d[i - 7]; }
        else if i < 12 { assert s[i] == h[i - 10]; }
        else if i < 14 { assert s[i] == mi[i - 12]; }
        else { assert s[i] == se[i - 14]; }
      }
    }
    assert s[1..5] == y;
    assert s[5..7] == mo;
    assert s[7..9] == d;
    assert s[10..12] == h;
    assert s[12..14] == mi;
    assert s[14..16] == se;
  }

  /** The name of 2017-03-05T01:02:03. */
  lemma EventNameSample()
    ensures EventNameOf(DateTime(2017, 3, 5, 1, 2, 3, 64)) == "e20170305.010203"
  {
    YearTextSamples();
    StampSample(DateTime(2017, 3, 5, 1, 2, 3, 64), "2017");
  }

  /** The name of the same moment in year 999: the year is blank-padded. */
  lemma EventNameSampleBlankYear()
    ensures EventNameOf(DateTime(999, 3, 5, 1, 2, 3, 64)) == "e 9990305.010203"
  {
    YearTextSamples();
    StampSample(DateTime(999, 3, 5, 1, 2, 3, 64), " 999");
  }

  /** A four-digit year fills its field; a three-digit year gets one blank. */
  lemma YearTextSamples()
    ensures FormatWidth(2017, 4) == "2017"
    ensures FormatWidth(999, 4) == " 999"
  {
    assert NatToString(2017) == "2017" by {
      assert NatToString(20) == "20";
      assert NatToString(201) == "201";
    }
    assert NatToString(999) == "999" by {
      assert NatToString(99) == "99";
    }
    assert Fill(' ', 1) == " ";
  }

  /** The timestamp of a moment at 01:02:03 on March 5th, given its year's text. */
  lemma StampSample(f: DateTime, year: string)
    requires f.month == 3 && f.day == 5 && f.hour == 1 && f.minute == 2 && f.second == 3
    requires FormatWidth(f.year, 4) == year
    ensures EventNameOf(f) == "e" + year + "0305.010203"
  {
    ZeroPadSample(3);
    ZeroPadSample(5);
    ZeroPadSample(1);
    ZeroPadSample(2);
    assert StampText(f) == year + "03" + "05" + "." + "01" + "02" + "03";
  }

  /** A one-digit field formatted with `{:02}` gets a leading zero. */
  lemma ZeroPadSample(n: nat)
    requires n < 10
    ensures FormatZeroPad(n, 2) == ['0', DigitChar(n)]
  {
    assert Fill('0', 1) == "0";
  }

  /** The reader refuses blank-padded two-digit fields and a zero-padded year. */
  lemma ParseEventNameRejects()
    ensures ParseEventName("e2017 3 5. 1 2 3") == None
    ensures ParseEventName("e09990305.010203") == None
  {
    assert "e2017 3 5. 1 2 3"[5..7] == " 3";
    assert !IsDigit(" 3"[0]);
    assert "e09990305.010203"[1..5] == "0999";
  }

  /** Two origin times in years 0 to 9999 share an event directory name only
      when they are the same second. */
  lemma EventNameInjective(t1: int, t2: int)
    requires 0 <= FieldsOf(t1).year <= 9999 && 0 <= FieldsOf(t2).year <= 9999
    requires EventName(t1) == EventName(t2)
    ensures t1 == t2
  {
    EventNameOfRoundTrip(FieldsOf(t1));
    EventNameOfRoundTrip(FieldsOf(t2));
    FieldsRoundTrip(t1);
    FieldsRoundTrip(t2);
  }

  /** Path of one trimmed segment: `{root}{evname}/{sta}.{cha}.{stamp}.mseed`,
      the stamp formatted from the origin time's calendar fields as in the
      event name. */
  function SegmentFile(root: string, evname: string, sta: string, cha: string, stamp: string): string {
    root + evname + "/" + sta + "." + cha + "." + stamp + ".mseed"
  }

  function SegmentPath(root: string, evname: string, sta: string, cha: string, t: int): string {
    SegmentFile(root, evname, sta, cha, StampText(FieldsOf(t)))
  }

  /** The timestamp in a segment's file name is the event name without its leading 'e'. */
  lemma SegmentStampIsEventStamp(root: string, sta: string, cha: string, t: int)
    ensures var ev := EventName(t);
      |ev| >= 1 && SegmentPath(root, ev, sta, cha, t) == root + ev + "/" + sta + "." + cha + "." + ev[1..] + ".mseed"
  {
    var stamp := StampText(FieldsOf(t));
    assert EventName(t) == "e" + stamp;
    assert ("e" + stamp)[1..] == stamp;
  }

  /** How a day volume's name spells its day: the year and the day of year,
      each as Python's `str`. */
  datatype DayRef = DayRef(yearText: string, juldayText: string)

  function DayRefOf(f: DateTime): DayRef {
    DayRef(IntToString(f.year), IntToString(f.julday))
  }

  /** The year and day of year in a day volume's name are plain digits that
      read back as the date's year and day of year; neither has a leading zero
      (the day of year is not padded to three digits). */
  lemma DayRefReadsBack(f: DateTime)
    requires 0 <= f.year && 1 <= f.julday
    ensures ParseDigits(DayRefOf(f).yearText) == Some(f.year)
    ensures ParseDigits(DayRefOf(f).juldayText) == Some(f.julday)
    ensures DayRefOf(f).yearText[0] != '0' || f.year == 0
    ensures DayRefOf(f).juldayText[0] != '0'
  {
    NatToStringDigits(f.year);
    NatToStringDigits(f.julday);
    ReadNatToString(f.year);
    ReadNatToString(f.julday);
  }

  /** Path of one continuous day volume:
      `{root}{year}/{net}/{sta}/{cha}.D/{net}.{sta}..{cha}.D.{year}.{julday}.mseed`. */
  function VolumeFile(root: string, day: DayRef, net: string, sta: string, cha: string): string {
    root + day.yearText + "/" + net + "/" + sta + "/" + cha + ".D/"
      + net + "." + sta + ".." + cha + ".D." + day.yearText + "." + day.juldayText + ".mseed"
  }

  function VolumePath(root: string, year: int, net: string, sta: string, cha: string, julday: int): string {
    VolumeFile(root, DayRef(IntToString(year), IntToString(julday)), net, sta, cha)
  }
}
