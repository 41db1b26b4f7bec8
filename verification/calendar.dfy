/**
 * Gregorian calendar dates and the two textual forms the unit form accepts:
 * `datetime.strptime(text, "%d.%m.%Y")` and `datetime.fromisoformat(text)`
 * (date-only `YYYY-MM-DD`), plus the `date.isoformat()` the unit is stored
 * with and the `%d.%m.%Y` form it is shown in.
 */
module Calendar {
  import opened Wrappers
  import opened Text

  datatype Date = Date(year: int, month: int, day: int)

  predicate IsLeapYear(y: int) {
    y % 4 == 0 && (y % 100 != 0 || y % 400 == 0)
  }

  function DaysInMonth(year: int, month: int): int
    requires 1 <= month <= 12
  {
    if month == 2 then (if IsLeapYear(year) then 29 else 28)
    else if month == 4 || month == 6 || month == 9 || month == 11 then 30
    else 31
  }

  /** A real day of Python's `date` range (years 1 to 9999). */
  predicate IsValid(d: Date) {
    && 1 <= d.year <= 9999
    && 1 <= d.month <= 12
    && 1 <= d.day <= DaysInMonth(d.year, d.month)
  }

  // ---------------------------------------------------------------------
  // Decimal digits

  predicate IsDigit(c: char) {
    '0' <= c <= '9'
  }

  predicate AllDigits(s: string) {
    forall i | 0 <= i < |s| :: IsDigit(s[i])
  }

  function DigitValue(c: char): nat
    requires IsDigit(c)
  {
    c as int - '0' as int
  }

  function DigitChar(n: nat): (c: char)
    requires n < 10
    ensures IsDigit(c) && DigitValue(c) == n
  {
    ('0' as int + n) as char
  }

  function Pow10(n: nat): nat {
    if n == 0 then 1 else 10 * Pow10(n - 1)
  }

  /** The number a string of decimal digits denotes. */
  function Value(s: string): nat
    requires AllDigits(s)
    decreases |s|
  {
    if |s| == 0 then 0 else 10 * Value(s[..|s| - 1]) + DigitValue(s[|s| - 1])
  }

  /**
   * The low `width` digits of `n`, zero-padded on the left; for `n < Pow10(width)`
   * this is `"%0*d" % (width, n)` (see `ValueOfPad`).
   */
  function Pad(n: nat, width: nat): (s: string)
    ensures |s| == width && AllDigits(s)
  {
    if width == 0 then [] else Pad(n / 10, width - 1) + [DigitChar(n % 10)]
  }

  lemma {:induction false} ValueBound(s: string)
    requires AllDigits(s)
    ensures Value(s) < Pow10(|s|)
    decreases |s|
  {
    if |s| > 0 {
      ValueBound(s[..|s| - 1]);
    }
  }

  /** Reading a padded number gives the number back. */
  lemma {:induction false} ValueOfPad(n: nat, width: nat)
    requires n < Pow10(width)
    ensures Value(Pad(n, width)) == n
  {
    if width > 0 {
      ValueOfPad(n / 10, width - 1);
      var s := Pad(n, width);
      assert s[..|s| - 1] == Pad(n / 10, width - 1);
    }
  }

  /** Padding the value of a digit string to its own length gives the string back. */
  lemma {:induction false} PadOfValue(s: string)
    requires AllDigits(s)
    ensures Pad(Value(s), |s|) == s
    decreases |s|
  {
    if |s| > 0 {
      var init := s[..|s| - 1];
      PadOfValue(init);
      var v := Value(s);
      assert v / 10 == Value(init) && v % 10 == DigitValue(s[|s| - 1]);
      assert s == init + [s[|s| - 1]];
    }
  }

  // ---------------------------------------------------------------------
  // strptime(text, "%d.%m.%Y")

  /**
   * A day (max 31) or month (max 12) field as strptime's `%d` and `%m`
   * patterns match it: one digit 1-9, or two digits with a value in 1..max.
   */
  predicate IsShortField(t: string, max: nat) {
    || (|t| == 1 && '1' <= t[0] <= '9')
    || (|t| == 2 && AllDigits(t) && 1 <= Value(t) <= max)
  }

  /** `%Y`: exactly four digits. */
  predicate IsYearField(t: string) {
    |t| == 4 && AllDigits(t)
  }

  /** `datetime.strptime(s, "%d.%m.%Y").date()`, None where strptime raises ValueError. */
  function ParseDotted(s: string): (r: Option<Date>)
    ensures r.Some? ==> IsValid(r.value) && '.' in s
  {
    var parts := Split(s, '.');
    if |parts| == 3 && IsShortField(parts[0], 31) && IsShortField(parts[1], 12) && IsYearField(parts[2]) then
      var d := Date(Value(parts[2]), Value(parts[1]), Value(parts[0]));
      if IsValid(d) then Some(d) else None
    else
      None
  }

  /** The ways `n` may be written in a `%d` or `%m` field: zero-padded, and for 1..9 also as one digit. */
  function Spellings(n: nat): (r: set<string>)
    requires n < 100
    ensures Pad(n, 2) in r
  {
    if 1 <= n <= 9 then {Pad(n, 2), [DigitChar(n)]} else {Pad(n, 2)}
  }

  /** The zero-padded spelling is the only two-character one. */
  lemma SpellingLength(n: nat, t: string)
    requires n < 100 && t in Spellings(n)
    ensures 1 <= |t| <= 2
    ensures |t| == 2 ==> t == Pad(n, 2)
  {
  }

  /** Text `dd.mm.yyyy` built from the given field texts. */
  function Dotted(dd: string, mm: string, yyyy: string): string {
    dd + "." + mm + "." + yyyy
  }

  /** `date.strftime("%d.%m.%Y")`. */
  function FormatDotted(d: Date): (s: string)
    requires IsValid(d)
    ensures |s| == 10 && s[2] == '.' && s[5] == '.'
    ensures ParseDotted(s) == Some(d)
  {
    ParseDottedComplete(d, Pad(d.day, 2), Pad(d.month, 2));
    Dotted(Pad(d.day, 2), Pad(d.month, 2), Pad(d.year, 4))
  }

  lemma ShortFieldSpelling(t: string, max: nat)
    requires IsShortField(t, max) && max < 100
    ensures AllDigits(t) && Value(t) < 100 && t in Spellings(Value(t))
  {
    ValueBound(t);
    PadOfValue(t);
  }

  /**
   * Soundness of the `%d.%m.%Y` parser: whatever it accepts is a real
   * calendar date, written as one of that date's spellings.
   */
  lemma ParseDottedSound(s: string)
    requires ParseDotted(s).Some?
    ensures var d := ParseDotted(s).value;
      && IsValid(d)
      && exists dd, mm | dd in Spellings(d.day) && mm in Spellings(d.month) :: s == Dotted(dd, mm, Pad(d.year, 4))
  {
    var parts := Split(s, '.');
    var d := ParseDotted(s).value;
    ShortFieldSpelling(parts[0], 31);
    ShortFieldSpelling(parts[1], 12);
    PadOfValue(parts[2]);
    assert parts == [parts[0], parts[1], parts[2]];
    JoinThree(parts[0], parts[1], parts[2], '.');
  }

  /** Each spelling of a day or month number is a field strptime accepts, read back as that number. */
  lemma SpellingIsField(n: nat, max: nat, t: string)
    requires 1 <= n <= max < 100 && t in Spellings(n)
    ensures IsShortField(t, max) && Value(t) == n && '.' !in t
  {
    ValueOfPad(n, 2);
    if t != Pad(n, 2) {
      assert t == [DigitChar(n)];
      assert t[..0] == [];
    }
  }

  /**
   * Completeness of the `%d.%m.%Y` parser: every real date, in every
   * spelling strptime allows, is accepted and read back as that date.
   */
  lemma ParseDottedComplete(d: Date, dd: string, mm: string)
    requires IsValid(d) && dd in Spellings(d.day) && mm in Spellings(d.month)
    ensures ParseDotted(Dotted(dd, mm, Pad(d.year, 4))) == Some(d)
  {
    var yyyy := Pad(d.year, 4);
    SpellingIsField(d.day, 31, dd);
    SpellingIsField(d.month, 12, mm);
    ValueOfPad(d.year, 4);
    ParseDottedFields(dd, mm, yyyy);
  }

  /** A field-wise well-formed `dd.mm.yyyy` text is rejected exactly when it names no real day. */
  lemma ParseDottedFields(dd: string, mm: string, yyyy: string)
    requires IsShortField(dd, 31) && IsShortField(mm, 12) && IsYearField(yyyy)
    ensures var d := Date(Value(yyyy), Value(mm), Value(dd));
      ParseDotted(Dotted(dd, mm, yyyy)) == if IsValid(d) then Some(d) else None
  {
    assert '.' !in dd && '.' !in mm && '.' !in yyyy;
    SplitThree(dd, mm, yyyy, '.');
  }

  /** A zero-padded `dd.mm.yyyy` text with in-range fields is accepted exactly when the day exists. */
  lemma ParsePaddedDotted(day: nat, month: nat, year: nat)
    requires 1 <= day <= 31 && 1 <= month <= 12 && year <= 9999
    ensures var d := Date(year, month, day);
      ParseDotted(Dotted(Pad(day, 2), Pad(month, 2), Pad(year, 4))) == if IsValid(d) then Some(d) else None
  {
    ValueOfPad(day, 2);
    ValueOfPad(month, 2);
    ValueOfPad(year, 4);
    ParseDottedFields(Pad(day, 2), Pad(month, 2), Pad(year, 4));
  }

  lemma ValueOfTwo(t: string)
    requires |t| == 2 && AllDigits(t)
    ensures Value(t) == 10 * DigitValue(t[0]) + DigitValue(t[1])
  {
    assert Value(t[..1]) == DigitValue(t[0]);
  }

  // ---------------------------------------------------------------------
  // fromisoformat / isoformat

  /** `datetime.fromisoformat(s).date()` for the date-only form `YYYY-MM-DD`, None where it raises. */
  function ParseIso(s: string): (r: Option<Date>)
    ensures r.Some? ==> IsValid(r.value) && '-' in s
  {
    var parts := Split(s, '-');
    if && |parts| == 3
       && |parts[0]| == 4 && |parts[1]| == 2 && |parts[2]| == 2
       && AllDigits(parts[0]) && AllDigits(parts[1]) && AllDigits(parts[2])
    then
      var d := Date(Value(parts[0]), Value(parts[1]), Value(parts[2]));
      if IsValid(d) then Some(d) else None
    else
      None
  }

  /** `date.isoformat()`: `YYYY-MM-DD`, every field zero-padded. */
  function FormatIso(d: Date): (s: string)
    requires IsValid(d)
    ensures |s| == 10 && s[4] == '-' && s[7] == '-'
    ensures AllDigits(s[..4]) && AllDigits(s[5..7]) && AllDigits(s[8..])
  {
    var s := Pad(d.year, 4) + "-" + Pad(d.month, 2) + "-" + Pad(d.day, 2);
    assert s[..4] == Pad(d.year, 4) && s[5..7] == Pad(d.month, 2) && s[8..] == Pad(d.day, 2);
    s
  }

  /** The stored ISO text of a date reads back as that date. */
  lemma IsoRoundTrip(d: Date)
    requires IsValid(d)
    ensures ParseIso(FormatIso(d)) == Some(d)
  {
    ValueOfPad(d.year, 4);
    ValueOfPad(d.month, 2);
    ValueOfPad(d.day, 2);
    SplitThree(Pad(d.year, 4), Pad(d.month, 2), Pad(d.day, 2), '-');
  }

  /** The ISO parser accepts only the canonical text of the date it returns. */
  lemma IsoCanonical(s: string)
    requires ParseIso(s).Some?
    ensures FormatIso(ParseIso(s).value) == s
  {
    var parts := Split(s, '-');
    PadOfValue(parts[0]);
    PadOfValue(parts[1]);
    PadOfValue(parts[2]);
    assert parts == [parts[0], parts[1], parts[2]];
    JoinThree(parts[0], parts[1], parts[2], '-');
  }

  // ---------------------------------------------------------------------
  // The unit form's date field

  /**
   * The date typed into the unit form: text containing a '.' is stripped and
   * read with `%d.%m.%Y`, any other text is stripped and read as ISO.
   */
  function ParseDateText(text: string): (r: Option<Date>)
    ensures '.' in text ==> r == ParseDotted(Strip(text))
    ensures '.' !in text ==> r == ParseIso(Strip(text))
    ensures r.Some? ==> IsValid(r.value)
    ensures r.Some? && '.' !in text ==> FormatIso(r.value) == Strip(text)
  {
    if '.' in text then
      var r := ParseDotted(Strip(text));
      StripKeeps(text, '.');
      r
    else
      var r := ParseIso(Strip(text));
      if r.None? then r else IsoCanonical(Strip(text)); r
  }

  /** Text without whitespace is left alone by `strip()`. */
  lemma StripNoSpace(s: string)
    requires forall i | 0 <= i < |s| :: !IsSpace(s[i])
    ensures Strip(s) == s
  {
    var r := Strip(s);
    assert Indent(s) == 0 by {
      if Indent(s) > 0 {
        assert false;
      }
    }
    assert |r| == |s| by {
      if |r| < |s| {
        assert false;
      }
    }
  }

  /** The date field accepts the ISO text of every real date, as the app stores it. */
  lemma IsoEntryAccepted(d: Date)
    requires IsValid(d)
    ensures ParseDateText(FormatIso(d)) == Some(d)
  {
    var s := FormatIso(d);
    forall i | 0 <= i < |s| ensures !IsSpace(s[i]) && s[i] != '.' {
      if i < 4 { assert s[i] == s[..4][i]; }
      else if 4 < i < 7 { assert s[i] == s[5..7][i - 5]; }
      else if 7 < i { assert s[i] == s[8..][i - 8]; }
    }
    StripNoSpace(s);
    IsoRoundTrip(d);
  }

  /** The date field accepts every real date typed as `dd.mm.yyyy`, in every spelling strptime allows. */
  lemma DottedEntryAccepted(d: Date, dd: string, mm: string)
    requires IsValid(d) && dd in Spellings(d.day) && mm in Spellings(d.month)
    ensures ParseDateText(Dotted(dd, mm, Pad(d.year, 4))) == Some(d)
  {
    var yyyy := Pad(d.year, 4);
    var s := Dotted(dd, mm, yyyy);
    SpellingIsField(d.day, 31, dd);
    SpellingIsField(d.month, 12, mm);
    assert AllDigits(dd) && AllDigits(mm) && AllDigits(yyyy);
    assert s == dd + "." + mm + "." + yyyy;
    forall i | 0 <= i < |s| ensures !IsSpace(s[i]) {
      if i < |dd| { assert s[i] == dd[i]; }
      else if i == |dd| { assert s[i] == '.'; }
      else if i < |dd| + 1 + |mm| { assert s[i] == mm[i - |dd| - 1]; }
      else if i == |dd| + 1 + |mm| { assert s[i] == '.'; }
      else { assert s[i] == yyyy[i - |dd| - |mm| - 2]; }
    }
    assert s[|dd|] == '.';
    StripNoSpace(s);
    ParseDottedComplete(d, dd, mm);
  }

  /**
   * A zero-padded `DD.MM.YYYY` entry survives the trip through storage: the
   * stored ISO text reads back as the same date, and showing that date as
   * `%d.%m.%Y` reproduces the stripped entry.
   */
  lemma DottedEntryRoundTrip(text: string)
    requires '.' in text && ParseDateText(text).Some? && |Strip(text)| == 10
    ensures var d := ParseDateText(text).value;
      && ParseIso(FormatIso(d)) == Some(d)
      && FormatDotted(d) == Strip(text)
  {
    var s := Strip(text);
    var d := ParseDateText(text).value;
    assert ParseDotted(s) == Some(d);
    ParseDottedSound(s);
    IsoRoundTrip(d);
    var dd, mm :| dd in Spellings(d.day) && mm in Spellings(d.month) && s == Dotted(dd, mm, Pad(d.year, 4));
    SpellingLength(d.day, dd);
    SpellingLength(d.month, mm);
  }
}

/** The calendar rules strptime applies, stated for every year, and one short spelling. */
module CalendarExamples {
  import opened Wrappers
  import opened Calendar

  /** In no year does `31.02.YYYY` parse. */
  lemma NoThirtyFirstOfFebruary(year: nat)
    requires year <= 9999
    ensures ParseDotted(Dotted("31", "02", Pad(year, 4))) == None
  {
    ValueOfTwo("31");
    ValueOfTwo("02");
    ValueOfPad(year, 4);
    ParseDottedFields("31", "02", Pad(year, 4));
  }

  /** `29.02.YYYY` parses exactly in the Gregorian leap years. */
  lemma LeapDayRule(year: nat)
    requires 1 <= year <= 9999
    ensures ParseDotted(Dotted("29", "02", Pad(year, 4))) == if IsLeapYear(year) then Some(Date(year, 2, 29)) else None
  {
    ValueOfTwo("29");
    ValueOfTwo("02");
    ValueOfPad(year, 4);
    ParseDottedFields("29", "02", Pad(year, 4));
  }

  /** Days 1-9 of months 1-9 may also be written with single digits, as in `1.2.2026`. */
  lemma SingleDigitFields(day: nat, month: nat, year: nat)
    requires 1 <= day <= 9 && 1 <= month <= 9 && 1 <= year <= 9999
    ensures ParseDotted(Dotted([DigitChar(day)], [DigitChar(month)], Pad(year, 4))) == Some(Date(year, month, day))
  {
    ParseDottedComplete(Date(year, month, day), [DigitChar(day)], [DigitChar(month)]);
  }
}
