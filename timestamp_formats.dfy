/**
 * The two fixed-width `strptime` layouts the event timestamps may use,
 * `%Y-%m-%d %H:%M:%S` and `%Y-%m-%dT%H:%M:%SZ`, as a parser from text to
 * TIMESTAMP and a formatter back, with the proof that each undoes the other.
 */
module TimestampFormats {
  import opened Wrappers
  import opened Calendar

  /** The fields a `strptime` layout reads. */
  datatype DateTime = DateTime(year: int, month: int, day: int, hour: int, minute: int, second: int)

  /** Fields that name a real instant and fit the four-digit `%Y`. */
  predicate ValidDateTime(t: DateTime) {
    && 0 <= t.year <= 9999
    && ValidDate(t.year, t.month, t.day)
    && 0 <= t.hour < 24 && 0 <= t.minute < 60 && 0 <= t.second < 60
  }

  function ToTimestamp(t: DateTime): Timestamp
    requires ValidDateTime(t)
  {
    TimestampAt(DaysFromCivil(t.year, t.month, t.day), t.hour, t.minute, t.second)
  }

  /** A layout: the character between date and time, and the text after the seconds. */
  datatype Layout = Layout(separator: char, suffix: string)

  /** `%Y-%m-%d %H:%M:%S` */
  const SpaceLayout: Layout := Layout(' ', "")

  /** `%Y-%m-%dT%H:%M:%SZ` */
  const ZuluLayout: Layout := Layout('T', "Z")

  predicate IsDigit(c: char) {
    '0' <= c <= '9'
  }

  function DigitValue(c: char): int
    requires IsDigit(c)
  {
    c as int - '0' as int
  }

  function DigitChar(n: int): char
    requires 0 <= n < 10
  {
    ('0' as int + n) as char
  }

  function Digits2(n: int): string
    requires 0 <= n < 100
  {
    [DigitChar(n / 10), DigitChar(n % 10)]
  }

  function Digits4(n: int): string
    requires 0 <= n < 10000
  {
    [DigitChar(n / 1000), DigitChar(n / 100 % 10), DigitChar(n / 10 % 10), DigitChar(n % 10)]
  }

  /** The text of `t` in layout `l`. */
  function Format(t: DateTime, l: Layout): string
    requires ValidDateTime(t)
  {
    Digits4(t.year) + "-" + Digits2(t.month) + "-" + Digits2(t.day) + [l.separator]
      + Digits2(t.hour) + ":" + Digits2(t.minute) + ":" + Digits2(t.second) + l.suffix
  }

  /** `s` has the punctuation of layout `l` and digits everywhere else. */
  predicate Shaped(s: string, l: Layout) {
    && |s| == 19 + |l.suffix|
    && IsDigit(s[0]) && IsDigit(s[1]) && IsDigit(s[2]) && IsDigit(s[3]) && s[4] == '-'
    && IsDigit(s[5]) && IsDigit(s[6]) && s[7] == '-'
    && IsDigit(s[8]) && IsDigit(s[9]) && s[10] == l.separator
    && IsDigit(s[11]) && IsDigit(s[12]) && s[13] == ':'
    && IsDigit(s[14]) && IsDigit(s[15]) && s[16] == ':'
    && IsDigit(s[17]) && IsDigit(s[18])
    && s[19..] == l.suffix
  }

  function Number2(s: string, i: nat): int
    requires i + 2 <= |s| && IsDigit(s[i]) && IsDigit(s[i + 1])
  {
    10 * DigitValue(s[i]) + DigitValue(s[i + 1])
  }

  function Number4(s: string, i: nat): int
    requires i + 4 <= |s| && IsDigit(s[i]) && IsDigit(s[i + 1]) && IsDigit(s[i + 2]) && IsDigit(s[i + 3])
  {
    1000 * DigitValue(s[i]) + 100 * DigitValue(s[i + 1]) + 10 * DigitValue(s[i + 2]) + DigitValue(s[i + 3])
  }

  function FieldsOf(s: string, l: Layout): DateTime
    requires Shaped(s, l)
  {
    DateTime(Number4(s, 0), Number2(s, 5), Number2(s, 8), Number2(s, 11), Number2(s, 14), Number2(s, 17))
  }

  /** `strptime(s, layout)` read into fields: NULL unless `s` fits the layout and names a real instant. */
  function ParseFields(s: string, l: Layout): Option<DateTime> {
    if Shaped(s, l) && ValidDateTime(FieldsOf(s, l)) then Some(FieldsOf(s, l)) else None
  }

  /** `strptime(s, layout)` as a TIMESTAMP, NULL when `s` does not fit. */
  function Strptime(s: string, l: Layout): Option<Timestamp> {
    match ParseFields(s, l)
    case Some(t) => Some(ToTimestamp(t))
    case None => None
  }

  // ------------------------------------------------------------ round trips

  lemma DigitRoundTrip(c: char)
    requires IsDigit(c)
    ensures DigitChar(DigitValue(c)) == c
  {
  }

  lemma Digits2Of(s: string, i: nat)
    requires i + 2 <= |s| && IsDigit(s[i]) && IsDigit(s[i + 1])
    ensures 0 <= Number2(s, i) < 100
    ensures Digits2(Number2(s, i)) == s[i..i + 2]
  {
    var n := Number2(s, i);
    assert n / 10 == DigitValue(s[i]) && n % 10 == DigitValue(s[i + 1]);
  }

  lemma Digits4Of(s: string, i: nat)
    requires i + 4 <= |s| && IsDigit(s[i]) && IsDigit(s[i + 1]) && IsDigit(s[i + 2]) && IsDigit(s[i + 3])
    ensures 0 <= Number4(s, i) < 10000
    ensures Digits4(Number4(s, i)) == s[i..i + 4]
  {
    var a, b, c, d := DigitValue(s[i]), DigitValue(s[i + 1]), DigitValue(s[i + 2]), DigitValue(s[i + 3]);
    var n := Number4(s, i);
    assert n == 1000 * a + 100 * b + 10 * c + d;
    assert n / 1000 == a;
    assert n / 100 == 10 * a + b;
    assert n / 100 % 10 == b;
    assert n / 10 == 100 * a + 10 * b + c;
    assert n / 10 % 10 == c;
    assert n % 10 == d;
  }

  lemma Number2Of(n: int)
    requires 0 <= n < 100
    ensures Number2(Digits2(n), 0) == n
  {
  }

  lemma Number4Of(n: int)
    requires 0 <= n < 10000
    ensures Number4(Digits4(n), 0) == n
  {
    var s := Digits4(n);
    var q1, d := n / 10, n % 10;
    var q2, c := q1 / 10, q1 % 10;
    var a, b := q2 / 10, q2 % 10;
    assert n == 10 * q1 + d && q1 == 10 * q2 + c && q2 == 10 * a + b;
    assert n / 100 == q2 && n / 1000 == a;
    assert DigitValue(s[0]) == a && DigitValue(s[1]) == b;
    assert DigitValue(s[2]) == c && DigitValue(s[3]) == d;
  }

  lemma Number2Slice(s: string, i: nat)
    requires i + 2 <= |s| && IsDigit(s[i]) && IsDigit(s[i + 1])
    ensures Number2(s, i) == Number2(s[i..i + 2], 0)
  {
  }

  lemma Number4Slice(s: string, i: nat)
    requires i + 4 <= |s| && IsDigit(s[i]) && IsDigit(s[i + 1]) && IsDigit(s[i + 2]) && IsDigit(s[i + 3])
    ensures Number4(s, i) == Number4(s[i..i + 4], 0)
  {
  }

  lemma DigitsAreDigits(n: int)
    requires 0 <= n < 10000
    ensures forall i :: 0 <= i < 4 ==> IsDigit(Digits4(n)[i])
    ensures n < 100 ==> forall i :: 0 <= i < 2 ==> IsDigit(Digits2(n)[i])
  {
  }

  /** Where each field of a formatted instant sits. */
  lemma FormatSlices(t: DateTime, l: Layout)
    requires ValidDateTime(t)
    ensures |Format(t, l)| == 19 + |l.suffix|
    ensures Format(t, l)[0..4] == Digits4(t.year)
    ensures Format(t, l)[4] == '-' && Format(t, l)[7] == '-' && Format(t, l)[10] == l.separator
    ensures Format(t, l)[13] == ':' && Format(t, l)[16] == ':'
    ensures Format(t, l)[5..7] == Digits2(t.month) && Format(t, l)[8..10] == Digits2(t.day)
    ensures Format(t, l)[11..13] == Digits2(t.hour) && Format(t, l)[14..16] == Digits2(t.minute)
    ensures Format(t, l)[17..19] == Digits2(t.second)
    ensures Format(t, l)[19..] == l.suffix
  {
    var p1 := Digits4(t.year) + "-";
    var p2 := p1 + Digits2(t.month) + "-";
    var p3 := p2 + Digits2(t.day) + [l.separator];
    var p4 := p3 + Digits2(t.hour) + ":";
    var p5 := p4 + Digits2(t.minute) + ":";
    var p6 := p5 + Digits2(t.second);
    var s := Format(t, l);
    assert s == p6 + l.suffix;
    assert s[..19] == p6;
    assert p6[..17] == p5 && p6[17..19] == Digits2(t.second);
    assert p5[..14] == p4 && p5[14..16] == Digits2(t.minute) && p5[16] == ':';
    assert p4[..11] == p3 && p4[11..13] == Digits2(t.hour) && p4[13] == ':';
    assert p3[..8] == p2 && p3[8..10] == Digits2(t.day) && p3[10] == l.separator;
    assert p2[..5] == p1 && p2[5..7] == Digits2(t.month) && p2[7] == '-';
    assert p1[0..4] == Digits4(t.year) && p1[4] == '-';
  }

  /** A formatted instant has the shape of its layout. */
  lemma FormatShaped(t: DateTime, l: Layout)
    requires ValidDateTime(t)
    ensures Shaped(Format(t, l), l)
  {
    var s := Format(t, l);
    FormatSlices(t, l);
    DigitsAreDigits(t.year);
    DigitsAreDigits(t.month);
    DigitsAreDigits(t.day);
    DigitsAreDigits(t.hour);
    DigitsAreDigits(t.minute);
    DigitsAreDigits(t.second);
    assert s[0] == s[0..4][0] && s[1] == s[0..4][1] && s[2] == s[0..4][2] && s[3] == s[0..4][3];
    assert s[5] == s[5..7][0] && s[6] == s[5..7][1] && s[8] == s[8..10][0] && s[9] == s[8..10][1];
    assert s[11] == s[11..13][0] && s[12] == s[11..13][1] && s[14] == s[14..16][0] && s[15] == s[14..16][1];
    assert s[17] == s[17..19][0] && s[18] == s[17..19][1];
  }

  /** Reading a formatted instant gives the instant back. */
  lemma ParseFormat(t: DateTime, l: Layout)
    requires ValidDateTime(t)
    ensures ParseFields(Format(t, l), l) == Some(t)
  {
    var s := Format(t, l);
    FormatShaped(t, l);
    FormatSlices(t, l);
    Number4Slice(s, 0);
    Number2Slice(s, 5);
    Number2Slice(s, 8);
    Number2Slice(s, 11);
    Number2Slice(s, 14);
    Number2Slice(s, 17);
    Number4Of(t.year);
    Number2Of(t.month);
    Number2Of(t.day);
    Number2Of(t.hour);
    Number2Of(t.minute);
    Number2Of(t.second);
    assert FieldsOf(s, l) == t;
  }

  /** The parser accepts nothing but the formatted text of a valid instant. */
  lemma FormatParse(s: string, l: Layout, t: DateTime)
    requires ParseFields(s, l) == Some(t)
    ensures ValidDateTime(t)
    ensures Format(t, l) == s
  {
    Digits4Of(s, 0);
    Digits2Of(s, 5);
    Digits2Of(s, 8);
    Digits2Of(s, 11);
    Digits2Of(s, 14);
    Digits2Of(s, 17);
    var f := Format(t, l);
    FormatSlices(t, l);
    forall k | 0 <= k < |s| ensures f[k] == s[k] {
      if k < 4 {
        assert f[k] == f[0..4][k] && s[k] == s[0..4][k];
      } else if 5 <= k < 7 {
        assert f[k] == f[5..7][k - 5] && s[k] == s[5..7][k - 5];
      } else if 8 <= k < 10 {
        assert f[k] == f[8..10][k - 8] && s[k] == s[8..10][k - 8];
      } else if 11 <= k < 13 {
        assert f[k] == f[11..13][k - 11] && s[k] == s[11..13][k - 11];
      } else if 14 <= k < 16 {
        assert f[k] == f[14..16][k - 14] && s[k] == s[14..16][k - 14];
      } else if 17 <= k < 19 {
        assert f[k] == f[17..19][k - 17] && s[k] == s[17..19][k - 17];
      } else if 19 <= k {
        assert f[k] == f[19..][k - 19] && s[k] == s[19..][k - 19];
      }
    }
  }

  /** `strptime` succeeds exactly on the formatted texts of valid instants, and reads back their instant. */
  lemma StrptimeExact(t: DateTime, l: Layout)
    requires ValidDateTime(t)
    ensures Strptime(Format(t, l), l) == Some(ToTimestamp(t))
  {
    ParseFormat(t, l);
  }

  /** No text fits both layouts: they differ at the separator. */
  lemma LayoutsDisjoint(s: string)
    ensures Strptime(s, SpaceLayout).None? || Strptime(s, ZuluLayout).None?
  {
  }

  /** The instant read by `strptime` falls on the date written in its first ten characters. */
  lemma StrptimeDate(s: string, l: Layout, t: DateTime)
    requires ParseFields(s, l) == Some(t)
    ensures DayOf(ToTimestamp(t)) == DaysFromCivil(t.year, t.month, t.day)
  {
    DayOfTimestampAt(DaysFromCivil(t.year, t.month, t.day), t.hour, t.minute, t.second);
  }
}
