/** Input validation of the geocoding helpers: `parseDateInput` reads "MM/DD"
    and `parseLocationInput` reads "City, Country". Both only split, trim,
    filter, join and test characters; every failure is an error value. */
module Geo {
  import opened Common
  import Calendar

  // ---------------------------------------------------------------------
  // JavaScript string operations
  // ---------------------------------------------------------------------

  /** `s.split(sep)` for a one-character separator: every occurrence cuts,
      and empty pieces (at either end, or between two separators) are kept. */
  function Split(s: string, sep: char): (r: seq<string>)
    ensures |r| >= 1
    ensures forall i :: 0 <= i < |r| ==> sep !in r[i]
    decreases |s|
  {
    if s == [] then [""]
    else
      var rest := Split(s[1..], sep);
      if s[0] == sep then [""] + rest
      else [[s[0]] + rest[0]] + rest[1..]
  }

  /** `parts.join(sep)`. */
  function Join(parts: seq<string>, sep: string): string
  {
    if |parts| == 0 then ""
    else if |parts| == 1 then parts[0]
    else parts[0] + sep + Join(parts[1..], sep)
  }

  /** Joining the pieces with the separator gives back the string: split
      loses nothing but the separators. */
  lemma {:induction false} JoinSplit(s: string, sep: char)
    ensures Join(Split(s, sep), [sep]) == s
  {
    if s != [] {
      JoinSplit(s[1..], sep);
      var rest := Split(s[1..], sep);
      if s[0] == sep {
        assert ([""] + rest)[1..] == rest;
      } else if |rest| > 1 {
        assert ([[s[0]] + rest[0]] + rest[1..])[1..] == rest[1..];
      }
      assert s == [s[0]] + s[1..];
    }
  }

  /** A string without the separator is one piece. */
  lemma {:induction false} SplitWithout(s: string, sep: char)
    requires sep !in s
    ensures Split(s, sep) == [s]
  {
    if s != [] {
      assert s[1..] == s[1..];
      assert sep !in s[1..] by {
        forall i | 0 <= i < |s[1..]| ensures s[1..][i] != sep {
          assert s[1..][i] == s[i + 1];
        }
      }
      SplitWithout(s[1..], sep);
      assert [s[0]] + s[1..] == s;
    }
  }

  /** The first separator ends the first piece. */
  lemma {:induction false} SplitAt(a: string, sep: char, b: string)
    requires sep !in a
    ensures Split(a + [sep] + b, sep) == [a] + Split(b, sep)
  {
    var s := a + [sep] + b;
    if a == [] {
      assert s[1..] == b;
    } else {
      assert sep !in a[1..] by {
        forall i | 0 <= i < |a[1..]| ensures a[1..][i] != sep {
          assert a[1..][i] == a[i + 1];
        }
      }
      assert s[1..] == a[1..] + [sep] + b;
      SplitAt(a[1..], sep, b);
      assert [a[0]] + a[1..] == a;
    }
  }

  /** Splitting a join of separator-free pieces gives the pieces back. */
  lemma {:induction false} SplitJoin(parts: seq<string>, sep: char)
    requires |parts| >= 1
    requires forall i :: 0 <= i < |parts| ==> sep !in parts[i]
    ensures Split(Join(parts, [sep]), sep) == parts
  {
    if |parts| == 1 {
      SplitWithout(parts[0], sep);
    } else {
      SplitJoin(parts[1..], sep);
      SplitAt(parts[0], sep, Join(parts[1..], [sep]));
      assert [parts[0]] + parts[1..] == parts;
    }
  }

  /** The characters `String.prototype.trim` removes: white space and line
      terminators. */
  predicate IsSpace(c: char)
  {
    c == ' ' || c == '\t' || c == '\n' || c == '\r' || c == '\U{000B}' || c == '\U{000C}'
    || c == '\U{00A0}' || c == '\U{1680}' || ('\U{2000}' <= c <= '\U{200A}')
    || c == '\U{2028}' || c == '\U{2029}' || c == '\U{202F}' || c == '\U{205F}'
    || c == '\U{3000}' || c == '\U{FEFF}'
  }

  /** The string starts and ends with something other than white space. */
  predicate Trimmed(s: string)
  {
    s == [] || (!IsSpace(s[0]) && !IsSpace(s[|s| - 1]))
  }

  /** `s` without its leading white space. */
  function TrimStart(s: string): (r: string)
    ensures |r| <= |s| && r == s[|s| - |r|..]
    ensures forall i :: 0 <= i < |s| - |r| ==> IsSpace(s[i])
    ensures r == [] || !IsSpace(r[0])
  {
    if s != [] && IsSpace(s[0]) then TrimStart(s[1..]) else s
  }

  /** `s` without its trailing white space. */
  function TrimEnd(s: string): (r: string)
    ensures |r| <= |s| && r == s[..|r|]
    ensures forall i :: |r| <= i < |s| ==> IsSpace(s[i])
    ensures r == [] || !IsSpace(r[|r| - 1])
  {
    if s != [] && IsSpace(s[|s| - 1]) then TrimEnd(s[..|s| - 1]) else s
  }

  /** `s.trim()`. */
  function Trim(s: string): (r: string)
    ensures Trimmed(r)
  {
    var t := TrimStart(s);
    var r := TrimEnd(t);
    assert r != [] ==> !IsSpace(r[0]) by {
      if r != [] { assert r[0] == t[0]; }
    }
    r
  }

  /** Trimming adds no character. */
  lemma TrimAddsNothing(s: string, c: char)
    requires c !in s
    ensures c !in Trim(s)
  {
    var t := TrimStart(s);
    assert c !in t by {
      forall i | 0 <= i < |t| ensures t[i] != c {
        assert t[i] == s[|s| - |t| + i];
      }
    }
    var r := TrimEnd(t);
    forall i | 0 <= i < |r| ensures r[i] != c {
      assert r[i] == t[i];
    }
  }

  /** Trimming a trimmed string changes nothing. */
  lemma TrimKeepsTrimmed(s: string)
    requires Trimmed(s)
    ensures Trim(s) == s
  {
    assert TrimStart(s) == s;
  }

  /** One leading blank, as ", " leaves it, is trimmed away. */
  lemma TrimLeadingBlank(s: string)
    requires Trimmed(s)
    ensures Trim(" " + s) == s
  {
    assert (" " + s)[1..] == s;
    assert TrimStart(" " + s) == TrimStart(s);
    TrimKeepsTrimmed(s);
  }

  /** `parts.map(p => p.trim())`. */
  function TrimAll(parts: seq<string>): (r: seq<string>)
    ensures |r| == |parts| && forall i :: 0 <= i < |parts| ==> r[i] == Trim(parts[i])
  {
    seq(|parts|, i requires 0 <= i < |parts| => Trim(parts[i]))
  }

  /** `parts.filter(Boolean)`: the non-empty strings, in order. */
  function DropEmpty(parts: seq<string>): (r: seq<string>)
    ensures |r| <= |parts|
    ensures forall p :: p in r ==> p in parts && p != ""
  {
    if parts == [] then []
    else DropEmpty(parts[..|parts| - 1]) + (if parts[|parts| - 1] != "" then [parts[|parts| - 1]] else [])
  }

  /** Nothing is dropped from pieces that are all non-empty. */
  lemma {:induction false} DropEmptyKeeps(parts: seq<string>)
    requires forall i :: 0 <= i < |parts| ==> parts[i] != ""
    ensures DropEmpty(parts) == parts
  {
    if parts != [] {
      DropEmptyKeeps(parts[..|parts| - 1]);
      assert parts[..|parts| - 1] + [parts[|parts| - 1]] == parts;
    }
  }

  /** `input.split(sep).map(p => p.trim()).filter(Boolean)`: the non-empty
      trimmed pieces, in order. */
  function Pieces(input: string, sep: char): (r: seq<string>)
    ensures forall p :: p in r ==> p != "" && Trimmed(p) && sep !in p
  {
    var trimmed := TrimAll(Split(input, sep));
    TrimAllClean(Split(input, sep), sep);
    DropEmpty(trimmed)
  }

  /** Trimmed pieces are trimmed and gain no separator. */
  lemma TrimAllClean(parts: seq<string>, sep: char)
    requires forall i :: 0 <= i < |parts| ==> sep !in parts[i]
    ensures forall p :: p in TrimAll(parts) ==> Trimmed(p) && sep !in p
  {
    var t := TrimAll(parts);
    forall i | 0 <= i < |t| ensures sep !in t[i] {
      TrimAddsNothing(parts[i], sep);
    }
  }

  /** Two pieces without the separator, written around one separator and
      non-empty once trimmed, come back trimmed. */
  lemma PiecesOfTwo(a: string, sep: char, b: string)
    requires sep !in a && sep !in b
    requires Trim(a) != "" && Trim(b) != ""
    ensures Pieces(a + [sep] + b, sep) == [Trim(a), Trim(b)]
  {
    SplitAt(a, sep, b);
    SplitWithout(b, sep);
    var t := TrimAll(Split(a + [sep] + b, sep));
    assert t == [Trim(a), Trim(b)] by {
      assert Split(a + [sep] + b, sep) == [a, b];
    }
    DropEmptyPair(Trim(a), Trim(b));
    PiecesUnfold(a + [sep] + b, sep);
  }

  lemma DropEmptyPair(x: string, y: string)
    requires x != "" && y != ""
    ensures DropEmpty([x, y]) == [x, y]
  {
    DropEmptyKeeps([x, y]);
  }

  /** The definition of `Pieces`, as one equation. */
  lemma PiecesUnfold(input: string, sep: char)
    ensures Pieces(input, sep) == DropEmpty(TrimAll(Split(input, sep)))
  {
  }

  /** Pieces that are non-empty, trimmed and separator-free, joined by the
      separator, are read back unchanged. */
  lemma PiecesOfJoin(parts: seq<string>, sep: char)
    requires |parts| >= 1
    requires forall i :: 0 <= i < |parts| ==> parts[i] != "" && Trimmed(parts[i]) && sep !in parts[i]
    ensures Pieces(Join(parts, [sep]), sep) == parts
  {
    SplitJoin(parts, sep);
    TrimAllOfTrimmed(parts);
    DropEmptyKeeps(parts);
  }

  /** A separator at the very end adds an empty piece, which the filter drops. */
  lemma PiecesTrailingSeparator(a: string, sep: char, b: string)
    requires a != "" && b != "" && Trimmed(a) && Trimmed(b)
    requires sep !in a && sep !in b
    ensures Pieces(a + [sep] + b + [sep], sep) == [a, b]
  {
    SplitTrailing(a, sep, b);
    TrimAllOfTrimmed([a, b, ""]);
    DropEmptyOfTrailing(a, b);
    PiecesUnfold(a + [sep] + b + [sep], sep);
  }

  lemma SplitTrailing(a: string, sep: char, b: string)
    requires sep !in a && sep !in b
    ensures Split(a + [sep] + b + [sep], sep) == [a, b, ""]
  {
    assert a + [sep] + b + [sep] == a + [sep] + (b + [sep] + "");
    SplitAt(a, sep, b + [sep] + "");
    SplitAt(b, sep, "");
  }

  /** Trimming pieces that are already trimmed changes none of them. */
  lemma TrimAllOfTrimmed(parts: seq<string>)
    requires forall i :: 0 <= i < |parts| ==> Trimmed(parts[i])
    ensures TrimAll(parts) == parts
  {
    forall i | 0 <= i < |parts| ensures Trim(parts[i]) == parts[i] {
      TrimKeepsTrimmed(parts[i]);
    }
  }

  lemma DropEmptyOfTrailing(x: string, y: string)
    requires x != "" && y != ""
    ensures DropEmpty([x, y, ""]) == [x, y]
  {
    assert [x, y, ""][..2] == [x, y];
    DropEmptyPair(x, y);
  }

  // ---------------------------------------------------------------------
  // parseDateInput
  // ---------------------------------------------------------------------

  predicate IsDigit(c: char)
  {
    '0' <= c <= '9'
  }

  predicate AllDigits(s: string)
  {
    forall i :: 0 <= i < |s| ==> IsDigit(s[i])
  }

  /** The value of a string of decimal digits, leading zeros allowed. */
  function DecimalValue(s: string): nat
    requires AllDigits(s)
  {
    if s == [] then 0 else 10 * DecimalValue(s[..|s| - 1]) + (s[|s| - 1] as int - '0' as int)
  }

  /** `Number(p)` of a trimmed non-empty piece, kept only when it is an
      integer; the model reads decimal digit strings only. */
  function IntegerOf(p: string): (r: Option<int>)
    ensures r.Some? <==> p != [] && AllDigits(p)
    ensures r.Some? ==> r.value >= 0
  {
    if p != [] && AllDigits(p) then Some(DecimalValue(p)) else None
  }

  /** The shortest decimal numeral of n, as `String(n)` writes it. */
  function Decimal(n: nat): (s: string)
    ensures s != [] && AllDigits(s)
  {
    if n < 10 then [('0' as int + n) as char]
    else Decimal(n / 10) + [('0' as int + n % 10) as char]
  }

  lemma {:induction false} DecimalRoundTrip(n: nat)
    ensures DecimalValue(Decimal(n)) == n
  {
    if n >= 10 {
      DecimalRoundTrip(n / 10);
      var s := Decimal(n);
      assert s[..|s| - 1] == Decimal(n / 10);
    }
  }

  /** `[31,29,31,30,31,30,31,31,30,31,30,31]`: February always has 29 days. */
  const DAYS_IN_MONTH: seq<int> := [31, 29, 31, 30, 31, 30, 31, 31, 30, 31, 30, 31]

  /** The table entry of month m. */
  function DaysInMonth(m: int): int
    requires 1 <= m <= 12
  {
    DAYS_IN_MONTH[m - 1]
  }

  /** The table is the calendar of a leap year. */
  lemma DaysInMonthOfLeapYear(m: int)
    requires 1 <= m <= 12
    ensures DaysInMonth(m) == Calendar.MonthLength(2000, m)
  {
    assert Calendar.IsLeapYear(2000);
  }

  datatype MonthDay = MonthDay(month: int, day: int)

  /** A month and day the table accepts. */
  predicate ValidMonthDay(month: int, day: int)
  {
    1 <= month <= 12 && 1 <= day <= DaysInMonth(month)
  }

  /** `parseDateInput`: exactly two non-empty '/'-pieces, then the checks
      of `CheckMonthDay` on their numeric values. */
  function ParseDate(input: string): (r: Result<MonthDay>)
    ensures r.Ok? ==> ValidMonthDay(r.value.month, r.value.day)
    ensures r.Ok? ==> |Pieces(input, '/')| == 2
  {
    var parts := Pieces(input, '/');
    if |parts| != 2 then Err(DateFormat)
    else CheckMonthDay(IntegerOf(parts[0]), IntegerOf(parts[1]))
  }

  /** A month in 1..12, a day in 1..31, and a day within the month's table
      entry, checked in that order; a missing value is not an integer. */
  function CheckMonthDay(month: Option<int>, day: Option<int>): (r: Result<MonthDay>)
    ensures r.Ok? <==> month.Some? && day.Some? && ValidMonthDay(month.value, day.value)
    ensures r.Ok? ==> r.value == MonthDay(month.value, day.value)
    ensures r == Err(MonthRange) <==> month.None? || !(1 <= month.value <= 12)
  {
    if month.None? || month.value < 1 || month.value > 12 then Err(MonthRange)
    else if day.None? || day.value < 1 || day.value > 31 then Err(DayRange)
    else if day.value > DaysInMonth(month.value) then Err(DayForMonth)
    else Ok(MonthDay(month.value, day.value))
  }

  /** Input whose pieces are two digit strings is judged on their values. */
  lemma ParseDateOfDigits(input: string, ms: string, ds: string)
    requires Pieces(input, '/') == [ms, ds]
    requires ms != [] && AllDigits(ms) && ds != [] && AllDigits(ds)
    ensures ParseDate(input) == CheckMonthDay(Some(DecimalValue(ms)), Some(DecimalValue(ds)))
  {
  }

  lemma DigitsTrimmed(s: string)
    requires s != [] && AllDigits(s)
    ensures Trimmed(s) && '/' !in s
  {
    assert IsDigit(s[0]) && IsDigit(s[|s| - 1]);
  }

  /** An accepted month and day written as digits around '/' parse back to
      themselves; leading zeros ("07/04") are allowed. */
  lemma ParseDigits(ms: string, ds: string)
    requires ms != [] && AllDigits(ms) && ds != [] && AllDigits(ds)
    requires ValidMonthDay(DecimalValue(ms), DecimalValue(ds))
    ensures ParseDate(ms + "/" + ds) == Ok(MonthDay(DecimalValue(ms), DecimalValue(ds)))
  {
    DigitsPieces(ms, ds);
    ParseDateOfDigits(ms + "/" + ds, ms, ds);
  }

  /** Two digit strings around '/' are its two pieces. */
  lemma DigitsPieces(ms: string, ds: string)
    requires ms != [] && AllDigits(ms) && ds != [] && AllDigits(ds)
    ensures Pieces(ms + "/" + ds, '/') == [ms, ds]
  {
    DigitsTrimmed(ms);
    DigitsTrimmed(ds);
    TrimKeepsTrimmed(ms);
    TrimKeepsTrimmed(ds);
    PiecesOfTwo(ms, '/', ds);
  }

  /** A trailing '/' leaves an empty segment, which is dropped: "7/1/" is
      read as July 1. */
  lemma ParseDigitsTrailingSlash(ms: string, ds: string)
    requires ms != [] && AllDigits(ms) && ds != [] && AllDigits(ds)
    requires ValidMonthDay(DecimalValue(ms), DecimalValue(ds))
    ensures ParseDate(ms + "/" + ds + "/") == Ok(MonthDay(DecimalValue(ms), DecimalValue(ds)))
  {
    DigitsTrimmed(ms);
    DigitsTrimmed(ds);
    PiecesTrailingSeparator(ms, '/', ds);
    ParseDateOfDigits(ms + "/" + ds + "/", ms, ds);
  }

  /** Every date the table accepts is read back from its numerals "M/D". */
  lemma ParseFormatted(month: nat, day: nat)
    requires ValidMonthDay(month, day)
    ensures ParseDate(Decimal(month) + "/" + Decimal(day)) == Ok(MonthDay(month, day))
  {
    DecimalRoundTrip(month);
    DecimalRoundTrip(day);
    ParseDigits(Decimal(month), Decimal(day));
  }

  /** A day in 1..31 past the table entry fails with the month check. */
  lemma DayPastMonth(ms: string, ds: string)
    requires ms != [] && AllDigits(ms) && ds != [] && AllDigits(ds)
    requires 1 <= DecimalValue(ms) <= 12 && DaysInMonth(DecimalValue(ms)) < DecimalValue(ds) <= 31
    ensures ParseDate(ms + "/" + ds) == Err(DayForMonth)
  {
    DigitsPieces(ms, ds);
    ParseDateOfDigits(ms + "/" + ds, ms, ds);
    CheckDayPastMonth(DecimalValue(ms), DecimalValue(ds));
  }

  lemma CheckDayPastMonth(month: int, day: int)
    requires 1 <= month <= 12 && DaysInMonth(month) < day <= 31
    ensures CheckMonthDay(Some(month), Some(day)) == Err(DayForMonth)
  {
  }

  /** February 29 is accepted whatever the year and however it is written
      ("02/29", "2/29"). */
  lemma FebruaryTwentyNinthAccepted(ms: string, ds: string)
    requires ms != [] && AllDigits(ms) && ds != [] && AllDigits(ds)
    requires DecimalValue(ms) == 2 && DecimalValue(ds) == 29
    ensures ParseDate(ms + "/" + ds) == Ok(MonthDay(2, 29))
  {
    ParseDigits(ms, ds);
  }

  /** April 31 ("04/31") is rejected: the table gives April 30 days. */
  lemma AprilThirtyFirstRejected(ms: string, ds: string)
    requires ms != [] && AllDigits(ms) && ds != [] && AllDigits(ds)
    requires DecimalValue(ms) == 4 && DecimalValue(ds) == 31
    ensures ParseDate(ms + "/" + ds) == Err(DayForMonth)
  {
    DayPastMonth(ms, ds);
  }

  /** February 30 ("02/30") is rejected: the table gives February 29 days. */
  lemma FebruaryThirtiethRejected(ms: string, ds: string)
    requires ms != [] && AllDigits(ms) && ds != [] && AllDigits(ds)
    requires DecimalValue(ms) == 2 && DecimalValue(ds) == 30
    ensures ParseDate(ms + "/" + ds) == Err(DayForMonth)
  {
    DayPastMonth(ms, ds);
  }

  // ---------------------------------------------------------------------
  // parseLocationInput
  // ---------------------------------------------------------------------

  datatype Location = Location(city: string, country: string)

  /** A character of `/^[-.\p{L}0-9' ]+$/u`; `letter` stands for `\p{L}`. */
  predicate NameChar(c: char, letter: char -> bool)
  {
    c == '-' || c == '.' || letter(c) || IsDigit(c) || c == '\'' || c == ' '
  }

  /** The whole string matches the name pattern (at least one character). */
  predicate ValidName(s: string, letter: char -> bool)
  {
    s != [] && forall i :: 0 <= i < |s| ==> NameChar(s[i], letter)
  }

  /** `parseLocationInput`: at least two non-empty trimmed ','-pieces; the
      city is the first, the country the rest joined by ", "; then the city
      and the country must each match the name pattern. */
  function ParseLocation(input: string, letter: char -> bool): (r: Result<Location>)
    ensures r.Ok? ==> ValidName(r.value.city, letter) && ValidName(r.value.country, letter)
    ensures r.Ok? ==> |Pieces(input, ',')| >= 2 && r.value.city == Pieces(input, ',')[0]
    ensures r == Err(LocationFormat) <==> |Pieces(input, ',')| < 2
  {
    var parts := Pieces(input, ',');
    if |parts| < 2 then Err(LocationFormat)
    else
      var city := parts[0];
      var country := Join(parts[1..], ", ");
      if !ValidName(city, letter) then Err(InvalidCity)
      else if !ValidName(country, letter) then Err(InvalidCountry)
      else Ok(Location(city, country))
  }

  /** Joining two or more pieces with ", " puts a comma in the result. */
  lemma JoinedHasComma(parts: seq<string>)
    requires |parts| >= 2
    ensures Join(parts, ", ")[|parts[0]|] == ','
  {
  }

  /** Three or more pieces never parse: the joined country holds a comma,
      which the name pattern does not allow. */
  lemma ThreePiecesRejected(input: string, letter: char -> bool)
    requires !letter(',')
    requires |Pieces(input, ',')| >= 3
    ensures ParseLocation(input, letter).Err?
    ensures ValidName(Pieces(input, ',')[0], letter) ==> ParseLocation(input, letter) == Err(InvalidCountry)
  {
    var parts := Pieces(input, ',');
    JoinedHasComma(parts[1..]);
    CommaNotName(Join(parts[1..], ", "), |parts[1..][0]|, letter);
  }

  /** A string holding a comma does not match the name pattern. */
  lemma CommaNotName(s: string, k: nat, letter: char -> bool)
    requires !letter(',') && k < |s| && s[k] == ','
    ensures !ValidName(s, letter)
  {
    assert !NameChar(s[k], letter);
  }

  /** A name without a comma, because ',' is not a letter. */
  lemma NameHasNoComma(s: string, letter: char -> bool)
    requires !letter(',') && ValidName(s, letter)
    ensures ',' !in s
  {
    forall i | 0 <= i < |s| ensures s[i] != ',' {
      assert NameChar(s[i], letter);
    }
  }

  /** "City, Country" written from two trimmed valid names parses back to
      those names. */
  lemma ParseCityCountry(city: string, country: string, letter: char -> bool)
    requires !letter(',')
    requires ValidName(city, letter) && ValidName(country, letter)
    requires Trimmed(city) && Trimmed(country)
    ensures ParseLocation(city + ", " + country, letter) == Ok(Location(city, country))
  {
    NameHasNoComma(city, letter);
    NameHasNoComma(country, letter);
    var input := city + ", " + country;
    assert input == city + [','] + (" " + country);
    assert ',' !in " " + country;
    TrimKeepsTrimmed(city);
    TrimLeadingBlank(country);
    PiecesOfTwo(city, ',', " " + country);
    ParseLocationOfTwo(input, city, country, letter);
  }

  /** Input with exactly two pieces is judged on those two names. */
  lemma ParseLocationOfTwo(input: string, city: string, country: string, letter: char -> bool)
    requires Pieces(input, ',') == [city, country]
    ensures ParseLocation(input, letter) ==
      if !ValidName(city, letter) then Err(InvalidCity)
      else if !ValidName(country, letter) then Err(InvalidCountry)
      else Ok(Location(city, country))
  {
    assert [city, country][1..] == [country];
  }
}
