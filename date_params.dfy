/**
 * The `date` query parameter shared by the calendar and cron routes: its
 * default, the `^\d{4}-\d{2}-\d{2}$` shape check, `date.split('-')` and
 * `parseInt(monthWithZero, 10)` with the 1..12 range check. Both route files
 * carry the same lines; they are modelled once here.
 */
module DateParams {
  import opened Wrappers

  /** The date used when the request names none (or an empty one). */
  const DefaultDate: string := "2025-06-29"

  /** `searchParams.get('date') || '2025-06-29'`: absent and empty both fall back. */
  function DateOrDefault(param: Option<string>): (date: string)
    ensures date != ""
    ensures param.Some? && param.value != "" ==> date == param.value
    ensures param.None? || param.value == "" ==> date == DefaultDate
  {
    if param.None? || param.value == "" then DefaultDate else param.value
  }

  // ---------------------------------------------------------------------------
  // The regular expression

  /** `\d` without the `u` flag: the ASCII digits only. */
  predicate IsDigit(c: char)
  {
    '0' <= c <= '9'
  }

  /** One atom of an anchored pattern: `\d` or a literal character. */
  datatype Atom = Digit | Literal(c: char)

  predicate AtomMatches(a: Atom, c: char)
  {
    match a
    case Digit => IsDigit(c)
    case Literal(l) => c == l
  }

  /** `^\d{4}-\d{2}-\d{2}$`, atom by atom. */
  const DatePattern: seq<Atom> :=
    [Digit, Digit, Digit, Digit, Literal('-'), Digit, Digit, Literal('-'), Digit, Digit]

  /** An anchored pattern (`^…$`, no multiline flag) matches the whole string. */
  predicate FullMatch(p: seq<Atom>, s: string)
    decreases |p|
  {
    if p == [] then s == []
    else s != [] && AtomMatches(p[0], s[0]) && FullMatch(p[1..], s[1..])
  }

  lemma {:induction false} FullMatchAtoms(p: seq<Atom>, s: string)
    ensures FullMatch(p, s) <==> |p| == |s| && forall i :: 0 <= i < |p| ==> AtomMatches(p[i], s[i])
    decreases |p|
  {
    if p != [] && s != [] {
      FullMatchAtoms(p[1..], s[1..]);
      if |p| == |s| && (forall i :: 0 <= i < |p[1..]| ==> AtomMatches(p[1..][i], s[1..][i])) {
        assert forall i :: 1 <= i < |p| ==> p[i] == p[1..][i - 1] && s[i] == s[1..][i - 1];
      }
    }
  }

  /** Four digits, a dash, two digits, a dash, two digits, and nothing else. */
  predicate IsDateShaped(s: string)
  {
    && |s| == 10
    && IsDigit(s[0]) && IsDigit(s[1]) && IsDigit(s[2]) && IsDigit(s[3])
    && s[4] == '-'
    && IsDigit(s[5]) && IsDigit(s[6])
    && s[7] == '-'
    && IsDigit(s[8]) && IsDigit(s[9])
  }

  /** The pattern accepts exactly the date-shaped strings. */
  lemma DatePatternMeansDateShaped(s: string)
    ensures FullMatch(DatePattern, s) <==> IsDateShaped(s)
  {
    FullMatchAtoms(DatePattern, s);
    if IsDateShaped(s) {
      forall i | 0 <= i < |DatePattern| ensures AtomMatches(DatePattern[i], s[i]) {
      }
    }
  }

  // ---------------------------------------------------------------------------
  // String.prototype.split with a one-character separator

  /** How many times `c` occurs in `s`. */
  function Occurrences(s: string, c: char): nat
    decreases |s|
  {
    if s == [] then 0 else (if s[0] == c then 1 else 0) + Occurrences(s[1..], c)
  }

  function Split(s: string, sep: char): (parts: seq<string>)
    ensures |parts| == Occurrences(s, sep) + 1
    decreases |s|
  {
    if s == [] then [""]
    else
      var rest := Split(s[1..], sep);
      if s[0] == sep then [""] + rest else [[s[0]] + rest[0]] + rest[1..]
  }

  /** Puts the parts back together with the separator between them. */
  function Join(parts: seq<string>, sep: char): string
    requires |parts| >= 1
    decreases |parts|
  {
    if |parts| == 1 then parts[0] else parts[0] + [sep] + Join(parts[1..], sep)
  }

  /** Splitting loses nothing: joining the parts gives the string back, and no part holds the separator. */
  lemma {:induction false} SplitJoin(s: string, sep: char)
    ensures Join(Split(s, sep), sep) == s
    ensures forall i :: 0 <= i < |Split(s, sep)| ==> sep !in Split(s, sep)[i]
    decreases |s|
  {
    if s != [] {
      var rest := Split(s[1..], sep);
      SplitJoin(s[1..], sep);
      if s[0] == sep {
        assert Split(s, sep) == [""] + rest;
        assert Join([""] + rest, sep) == [sep] + Join(rest, sep) by {
          assert ([""] + rest)[1..] == rest;
        }
        assert [sep] + s[1..] == s;
      } else {
        var parts := Split(s, sep);
        assert parts == [[s[0]] + rest[0]] + rest[1..];
        if |rest| == 1 {
          assert Join(parts, sep) == [s[0]] + rest[0];
        } else {
          assert parts[1..] == rest[1..];
          assert Join(parts, sep) == [s[0]] + rest[0] + [sep] + Join(rest[1..], sep);
          assert Join(rest, sep) == rest[0] + [sep] + Join(rest[1..], sep);
        }
        assert [s[0]] + s[1..] == s;
        forall i | 0 <= i < |parts| ensures sep !in parts[i] {
          if i > 0 { assert parts[i] == rest[i]; }
        }
      }
    }
  }

  /** A string free of the separator is one part. */
  lemma {:induction false} SplitNoSeparator(s: string, sep: char)
    requires sep !in s
    ensures Split(s, sep) == [s]
    decreases |s|
  {
    if s != [] {
      SplitNoSeparator(s[1..], sep);
      assert [s[0]] + s[1..] == s;
    }
  }

  /** A separator-free head followed by the separator splits off as the first part. */
  lemma {:induction false} SplitAtSeparator(a: string, sep: char, b: string)
    requires sep !in a
    ensures Split(a + [sep] + b, sep) == [a] + Split(b, sep)
    decreases |a|
  {
    var s := a + [sep] + b;
    if a == [] {
      assert s[0] == sep && s[1..] == b;
    } else {
      assert s[1..] == a[1..] + [sep] + b;
      SplitAtSeparator(a[1..], sep, b);
      assert [a[0]] + a[1..] == a;
    }
  }

  /** A date-shaped string splits into year, month and day. */
  lemma SplitDate(s: string)
    requires IsDateShaped(s)
    ensures Split(s, '-') == [s[..4], s[5..7], s[8..]]
  {
    assert s == s[..4] + ['-'] + (s[5..7] + ['-'] + s[8..]);
    assert s[5..] == s[5..7] + ['-'] + s[8..];
    SplitAtSeparator(s[..4], '-', s[5..]);
    SplitAtSeparator(s[5..7], '-', s[8..]);
    SplitNoSeparator(s[8..], '-');
  }

  // ---------------------------------------------------------------------------
  // parseInt(text, 10) and its inverse

  function DigitValue(c: char): (d: nat)
    requires IsDigit(c)
    ensures d <= 9
  {
    c as int - '0' as int
  }

  function DigitChar(d: nat): (c: char)
    requires d <= 9
    ensures IsDigit(c) && DigitValue(c) == d
  {
    ('0' as int + d) as char
  }

  predicate AllDigits(s: string)
  {
    forall i :: 0 <= i < |s| ==> IsDigit(s[i])
  }

  /** The longest prefix made of digits. */
  function LeadingDigits(s: string): (ds: string)
    ensures ds <= s && AllDigits(ds)
    ensures |ds| < |s| ==> !IsDigit(s[|ds|])
    decreases |s|
  {
    if s != [] && IsDigit(s[0]) then [s[0]] + LeadingDigits(s[1..]) else []
  }

  /** The decimal value of a string of digits, most significant first. */
  function DigitsValue(ds: string): nat
    requires AllDigits(ds)
    decreases |ds|
  {
    if ds == [] then 0 else 10 * DigitsValue(ds[..|ds| - 1]) + DigitValue(ds[|ds| - 1])
  }

  /**
   * `parseInt(text, 10)` on text without leading blanks or sign: the value of
   * the leading digits, `None` (NaN) when there are none.
   */
  function ParseInt(text: string): (n: Option<nat>)
    ensures n.None? <==> text == [] || !IsDigit(text[0])
  {
    var ds := LeadingDigits(text);
    if ds == [] then None else Some(DigitsValue(ds))
  }

  /** The decimal numeral of `n` without leading zeros (`String(n)`). */
  function DecimalString(n: nat): (s: string)
    ensures |s| >= 1 && AllDigits(s)
    ensures |s| > 1 ==> s[0] != '0'
    decreases n
  {
    if n < 10 then [DigitChar(n)] else DecimalString(n / 10) + [DigitChar(n % 10)]
  }

  /** Reading back a numeral gives the number. */
  lemma {:induction false} DigitsValueOfDecimalString(n: nat)
    ensures DigitsValue(DecimalString(n)) == n
    decreases n
  {
    if n >= 10 {
      DigitsValueOfDecimalString(n / 10);
      var s := DecimalString(n);
      assert s[..|s| - 1] == DecimalString(n / 10);
    }
  }

  lemma {:induction false} LeadingDigitsOfDigits(s: string)
    requires AllDigits(s)
    ensures LeadingDigits(s) == s
    decreases |s|
  {
    if s != [] {
      LeadingDigitsOfDigits(s[1..]);
      assert [s[0]] + s[1..] == s;
    }
  }

  /** `parseInt(String(n), 10) == n`. */
  lemma ParseIntDecimalString(n: nat)
    ensures ParseInt(DecimalString(n)) == Some(n)
  {
    LeadingDigitsOfDigits(DecimalString(n));
    DigitsValueOfDecimalString(n);
  }

  /** Two digits parse to their decimal value, a leading zero dropped. */
  lemma ParseTwoDigits(s: string)
    requires |s| == 2 && IsDigit(s[0]) && IsDigit(s[1])
    ensures ParseInt(s) == Some(10 * DigitValue(s[0]) + DigitValue(s[1]))
  {
    LeadingDigitsOfDigits(s);
    assert s[..|s| - 1] == [s[0]];
    assert DigitsValue([s[0]]) == DigitValue(s[0]) by {
      assert [s[0]][..0] == [];
    }
  }

  // ---------------------------------------------------------------------------
  // Validation of the date parameter

  /** Why a date parameter is refused; both are answered with status 400. */
  datatype DateError = InvalidDateFormat | InvalidMonth

  /** A validated date, with the year text and month number used in the upstream query. */
  datatype Target = Target(date: string, year: string, month: int)

  /** The default, the shape check, then split, parseInt and the month range check. */
  function ValidateDate(param: Option<string>): (r: Result<Target, DateError>)
    ensures r.Ok? ==> r.value.date == DateOrDefault(param) && 1 <= r.value.month <= 12
    ensures r.Ok? ==> FullMatch(DatePattern, r.value.date)
  {
    var date := DateOrDefault(param);
    if !FullMatch(DatePattern, date) then Err(InvalidDateFormat) else CheckMonth(date)
  }

  /** `date.split('-')`, `parseInt(monthWithZero, 10)` and the NaN / 1..12 check. */
  function CheckMonth(date: string): (r: Result<Target, DateError>)
    ensures r.Ok? ==> r.value.date == date && 1 <= r.value.month <= 12
    ensures r.Err? ==> r.error == InvalidMonth
  {
    var parts := Split(date, '-');
    var month := if |parts| >= 2 then ParseInt(parts[1]) else None;
    if month.None? || month.value < 1 || month.value > 12 then Err(InvalidMonth)
    else Ok(Target(date, parts[0], month.value))
  }

  /** The month number written in a date-shaped string. */
  function MonthDigits(s: string): nat
    requires IsDateShaped(s)
  {
    10 * DigitValue(s[5]) + DigitValue(s[6])
  }

  /**
   * The verdict on a date read off its characters: refused for its format
   * unless date-shaped, refused for its month unless the month digits name
   * 1..12, otherwise the year text and month number.
   */
  function DateVerdict(date: string): Result<Target, DateError>
  {
    if !IsDateShaped(date) then Err(InvalidDateFormat)
    else if 1 <= MonthDigits(date) <= 12 then Ok(Target(date, date[..4], MonthDigits(date)))
    else Err(InvalidMonth)
  }

  lemma CheckMonthOfDateShaped(date: string)
    requires IsDateShaped(date)
    ensures CheckMonth(date) == DateVerdict(date)
  {
    SplitDate(date);
    var parts := Split(date, '-');
    assert parts[0] == date[..4] && parts[1] == date[5..7];
    ParseTwoDigits(date[5..7]);
    assert ParseInt(parts[1]) == Some(MonthDigits(date));
  }

  /**
   * Validation through the regular expression, `split` and `parseInt` gives
   * the verdict read off the characters: a date is accepted exactly when it
   * is date-shaped with month digits 1..12, the year being its first four
   * characters and the month the value of the two middle digits.
   */
  lemma ValidateDateCharacterized(param: Option<string>)
    ensures ValidateDate(param) == DateVerdict(DateOrDefault(param))
  {
    var date := DateOrDefault(param);
    DatePatternMeansDateShaped(date);
    if IsDateShaped(date) {
      CheckMonthOfDateShaped(date);
    }
  }

  /** Without a date the default 2025-06-29 is used, for June 2025. */
  lemma MissingDateDefaults(param: Option<string>)
    requires param.None? || param == Some("")
    ensures ValidateDate(param) == Ok(Target("2025-06-29", "2025", 6))
  {
    assert DateOrDefault(param) == DefaultDate;
    assert DateVerdict(DefaultDate) == Ok(Target("2025-06-29", "2025", 6)) by {
      assert IsDateShaped(DefaultDate);
      assert DigitValue(DefaultDate[5]) == 0 && DigitValue(DefaultDate[6]) == 6;
      assert DefaultDate[..4] == "2025";
    }
    ValidateDateCharacterized(param);
  }

  lemma DayDigitsIgnoredByVerdict(date: string, other: string)
    requires IsDateShaped(date) && |other| == 10 && other[..8] == date[..8]
    requires IsDigit(other[8]) && IsDigit(other[9])
    ensures DateVerdict(date).Ok? <==> DateVerdict(other).Ok?
  {
    assert forall i :: 0 <= i < 8 ==> other[i] == other[..8][i] == date[..8][i] == date[i];
    assert IsDateShaped(other) && MonthDigits(other) == MonthDigits(date);
  }

  /**
   * The day digits are not range-checked: two dates that differ only in
   * their day digits are both accepted or both refused.
   */
  lemma DayDigitsNotChecked(date: string, other: string)
    requires IsDateShaped(date) && |other| == 10 && other[..8] == date[..8]
    requires IsDigit(other[8]) && IsDigit(other[9])
    ensures ValidateDate(Some(date)).Ok? <==> ValidateDate(Some(other)).Ok?
  {
    assert DateOrDefault(Some(date)) == date && DateOrDefault(Some(other)) == other;
    DayDigitsIgnoredByVerdict(date, other);
    ValidateDateCharacterized(Some(date));
    ValidateDateCharacterized(Some(other));
  }

  /** `2025-02-31` (given as `date`) is accepted as February 2025. */
  lemma DayNotRangeChecked(date: string)
    requires date == "2025-02-31"
    ensures ValidateDate(Some(date)) == Ok(Target(date, "2025", 2))
  {
    assert DateOrDefault(Some(date)) == date;
    assert DateVerdict(date) == Ok(Target(date, "2025", 2)) by {
      assert IsDateShaped(date);
      assert DigitValue(date[5]) == 0 && DigitValue(date[6]) == 2;
      assert date[..4] == "2025";
    }
    ValidateDateCharacterized(Some(date));
  }

  /** Month 00 is refused (for example `2025-00-10`, given as `date`). */
  lemma MonthZeroRefused(date: string)
    requires date == "2025-00-10"
    ensures ValidateDate(Some(date)) == Err(InvalidMonth)
  {
    assert DateOrDefault(Some(date)) == date;
    assert DateVerdict(date) == Err(InvalidMonth) by {
      assert IsDateShaped(date);
      assert DigitValue(date[5]) == 0 && DigitValue(date[6]) == 0;
    }
    ValidateDateCharacterized(Some(date));
  }

  /** Month 13 is refused (for example `2025-13-10`, given as `date`). */
  lemma MonthThirteenRefused(date: string)
    requires date == "2025-13-10"
    ensures ValidateDate(Some(date)) == Err(InvalidMonth)
  {
    assert DateOrDefault(Some(date)) == date;
    assert DateVerdict(date) == Err(InvalidMonth) by {
      assert IsDateShaped(date);
      assert DigitValue(date[5]) == 1 && DigitValue(date[6]) == 3;
    }
    ValidateDateCharacterized(Some(date));
  }
}
