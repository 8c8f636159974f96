/** The climate-API client's matrix assembly: the retry loop that drops the
    parameters the service reports as bad, the scan of the date keys for the
    year range, the 366-by-years null matrices filled key by key, and the
    renaming of the well-known parameters in the returned object. The HTTP
    replies are inputs. */
module Power {
  import opened Common
  import Calendar
  import Geo
  import Readings

  type Cell = Readings.Cell

  const N_DAYS: int := 366
  const MAX_ATTEMPTS: nat := 5

  // ---------------------------------------------------------------------
  // The payload
  // ---------------------------------------------------------------------

  /** One parameter's series: its date keys in `Object.keys` order, and
      the value stored under each key (`k in obj` is `k in values`). */
  datatype Series = Series(keys: seq<string>, values: map<string, Cell>)

  /** `data.properties.parameter`: the parameter names in `Object.keys`
      order and each one's series; a name without a series is null. */
  datatype Payload = Payload(names: seq<string>, series: map<string, Series>)

  /** The date keys of the first parameter only; none without parameters. */
  function DateKeys(p: Payload): seq<string>
  {
    if |p.names| == 0 || p.names[0] !in p.series then [] else p.series[p.names[0]].keys
  }

  /** `params[p] ?? {}`. */
  function ValuesOf(p: Payload, name: string): map<string, Cell>
  {
    if name in p.series then p.series[name].values else map[]
  }

  // ---------------------------------------------------------------------
  // Date keys
  // ---------------------------------------------------------------------

  /** A decimal integer literal, optionally signed: digits, with at most
      one '+' or '-' in front. */
  predicate SignedInteger(t: string)
  {
    (t != "" && Geo.AllDigits(t)) || (|t| >= 2 && (t[0] == '-' || t[0] == '+') && Geo.AllDigits(t[1..]))
  }

  /** `Number(s)` on the pieces of a date key: "" is 0, an optionally
      signed decimal integer its value, anything else NaN (None). */
  function NumberOf(s: string): (r: Option<int>)
    ensures s == "" ==> r == Some(0)
    ensures s != "" ==> (r.Some? <==> SignedInteger(s))
    ensures r.Some? && r.value < 0 ==> s[0] == '-'
  {
    if s == "" then Some(0)
    else if Geo.AllDigits(s) then Some(Geo.DecimalValue(s))
    else if |s| >= 2 && s[0] == '-' && Geo.AllDigits(s[1..]) then Some(-(Geo.DecimalValue(s[1..]) as int))
    else if |s| >= 2 && s[0] == '+' && Geo.AllDigits(s[1..]) then Some(Geo.DecimalValue(s[1..]))
    else None
  }

  /** A digit string reads as its decimal value. */
  lemma NumberOfDigits(s: string)
    requires s != "" && Geo.AllDigits(s)
    ensures NumberOf(s) == Some(Geo.DecimalValue(s))
  {
  }

  /** A minus sign before a digit string negates its value. */
  lemma NumberOfNegative(s: string)
    requires s != "" && Geo.AllDigits(s)
    ensures NumberOf("-" + s) == Some(-(Geo.DecimalValue(s) as int))
  {
    var t := "-" + s;
    assert t[1..] == s;
    assert !Geo.IsDigit(t[0]);
  }

  /** `s.slice(a, b)` for 0 <= a <= b: the bounds are clamped to the length. */
  function Slice(s: string, a: nat, b: nat): (r: string)
    requires a <= b
    ensures |r| <= b - a
    ensures b <= |s| ==> r == s[a..b]
  {
    if a >= |s| then "" else if b >= |s| then s[a..] else s[a..b]
  }

  datatype KeyDate = KeyDate(year: Option<int>, month: Option<int>, day: Option<int>)

  /** Year from the first four characters; month and day by position,
      as YYYYMMDD when the key has 8 characters and as YYYY-MM-DD otherwise. */
  function ParseKey(k: string): KeyDate
  {
    KeyDate(NumberOf(Slice(k, 0, 4)),
            NumberOf(if |k| == 8 then Slice(k, 4, 6) else Slice(k, 5, 7)),
            NumberOf(if |k| == 8 then Slice(k, 6, 8) else Slice(k, 8, 10)))
  }

  function Pow10(w: nat): nat
  {
    if w == 0 then 1 else 10 * Pow10(w - 1)
  }

  /** n written with exactly w digits, zero-padded. */
  function Digits(n: nat, w: nat): (s: string)
    ensures |s| == w && Geo.AllDigits(s)
  {
    if w == 0 then "" else Digits(n / 10, w - 1) + [('0' as int + n % 10) as char]
  }

  lemma {:induction false} DigitsValue(n: nat, w: nat)
    requires n < Pow10(w)
    ensures Geo.DecimalValue(Digits(n, w)) == n
  {
    if w > 0 {
      DigitsValue(n / 10, w - 1);
      var s := Digits(n, w);
      assert s[..|s| - 1] == Digits(n / 10, w - 1);
    }
  }

  /** The service's key for a date: "YYYYMMDD". */
  function CompactKey(y: nat, m: nat, d: nat): string
  {
    Digits(y, 4) + Digits(m, 2) + Digits(d, 2)
  }

  /** The other key shape the parser accepts: "YYYY-MM-DD". */
  function DashedKey(y: nat, m: nat, d: nat): string
  {
    Digits(y, 4) + "-" + Digits(m, 2) + "-" + Digits(d, 2)
  }

  lemma ParseCompactKey(y: nat, m: nat, d: nat)
    requires y < 10000 && m < 100 && d < 100
    ensures ParseKey(CompactKey(y, m, d)) == KeyDate(Some(y), Some(m), Some(d))
  {
    var ys, ms, ds := Digits(y, 4), Digits(m, 2), Digits(d, 2);
    var k := ys + ms + ds;
    assert k[0..4] == ys && k[4..6] == ms && k[6..8] == ds;
    DigitsValue(y, 4);
    DigitsValue(m, 2);
    DigitsValue(d, 2);
    NumberOfDigits(ys);
    NumberOfDigits(ms);
    NumberOfDigits(ds);
  }

  lemma ParseDashedKey(y: nat, m: nat, d: nat)
    requires y < 10000 && m < 100 && d < 100
    ensures ParseKey(DashedKey(y, m, d)) == KeyDate(Some(y), Some(m), Some(d))
  {
    var ys, ms, ds := Digits(y, 4), Digits(m, 2), Digits(d, 2);
    var k := ys + "-" + ms + "-" + ds;
    assert |k| == 10;
    assert k[0..4] == ys && k[5..7] == ms && k[8..10] == ds;
    DigitsValue(y, 4);
    DigitsValue(m, 2);
    DigitsValue(d, 2);
    NumberOfDigits(ys);
    NumberOfDigits(ms);
    NumberOfDigits(ds);
  }

  // ---------------------------------------------------------------------
  // The year range
  // ---------------------------------------------------------------------

  function YearOfKey(k: string): Option<int>
  {
    ParseKey(k).year
  }

  /** `minYear` after the scan; None is the initial Infinity, which a NaN
      year never replaces. */
  function MinYear(keys: seq<string>): Option<int>
  {
    if keys == [] then None
    else
      var r := MinYear(keys[..|keys| - 1]);
      var y := YearOfKey(keys[|keys| - 1]);
      if y.Some? && (r.None? || y.value < r.value) then y else r
  }

  /** `maxYear` after the scan; None is the initial -Infinity. */
  function MaxYear(keys: seq<string>): Option<int>
  {
    if keys == [] then None
    else
      var r := MaxYear(keys[..|keys| - 1]);
      var y := YearOfKey(keys[|keys| - 1]);
      if y.Some? && (r.None? || y.value > r.value) then y else r
  }

  /** minYear and maxYear bound every numeric key year. */
  lemma {:induction false} RangeBounds(keys: seq<string>, i: int)
    requires 0 <= i < |keys| && YearOfKey(keys[i]).Some?
    ensures MinYear(keys).Some? && MinYear(keys).value <= YearOfKey(keys[i]).value
    ensures MaxYear(keys).Some? && YearOfKey(keys[i]).value <= MaxYear(keys).value
  {
    if i < |keys| - 1 {
      assert keys[..|keys| - 1][i] == keys[i];
      RangeBounds(keys[..|keys| - 1], i);
    }
  }

  /** minYear and maxYear are years of actual keys. */
  lemma {:induction false} RangeAttained(keys: seq<string>)
    ensures MinYear(keys).Some? ==> exists i :: 0 <= i < |keys| && YearOfKey(keys[i]) == MinYear(keys)
    ensures MaxYear(keys).Some? ==> exists i :: 0 <= i < |keys| && YearOfKey(keys[i]) == MaxYear(keys)
  {
    if keys != [] {
      var init := keys[..|keys| - 1];
      RangeAttained(init);
      if MinYear(keys) == MinYear(init) && MinYear(init).Some? {
        var i :| 0 <= i < |init| && YearOfKey(init[i]) == MinYear(init);
        assert keys[i] == init[i];
      }
      if MaxYear(keys) == MaxYear(init) && MaxYear(init).Some? {
        var i :| 0 <= i < |init| && YearOfKey(init[i]) == MaxYear(init);
        assert keys[i] == init[i];
      }
    }
  }

  /** Both ends are set by the same keys, so they are set together. */
  lemma {:induction false} RangeSetTogether(keys: seq<string>)
    ensures MinYear(keys).Some? <==> MaxYear(keys).Some?
    ensures MinYear(keys).Some? ==> MinYear(keys).value <= MaxYear(keys).value
  {
    if keys != [] {
      RangeSetTogether(keys[..|keys| - 1]);
    }
  }

  /** The min/max loop over the date keys. */
  method YearRange(keys: seq<string>) returns (lo: Option<int>, hi: Option<int>)
    ensures lo == MinYear(keys) && hi == MaxYear(keys)
  {
    lo, hi := None, None;
    var i := 0;
    while i < |keys|
      invariant 0 <= i <= |keys|
      invariant lo == MinYear(keys[..i]) && hi == MaxYear(keys[..i])
    {
      assert keys[..i + 1][..i] == keys[..i];
      var y := YearOfKey(keys[i]);
      if y.Some? && (lo.None? || y.value < lo.value) { lo := y; }
      if y.Some? && (hi.None? || y.value > hi.value) { hi := y; }
      i := i + 1;
    }
    assert keys[..i] == keys;
  }

  /** `for (let y = minYear; y <= maxYear; y++) years.push(y)`. */
  method YearsBetween(lo: int, hi: int) returns (years: seq<int>)
    ensures |years| == if hi >= lo then hi - lo + 1 else 0
    ensures forall i :: 0 <= i < |years| ==> years[i] == lo + i
  {
    years := [];
    var y := lo;
    while y <= hi
      invariant lo <= y && (hi >= lo ==> y <= hi + 1) && (hi < lo ==> y == lo)
      invariant |years| == y - lo
      invariant forall i :: 0 <= i < |years| ==> years[i] == lo + i
    {
      years := years + [y];
      y := y + 1;
    }
  }

  /** The years of the result: minYear..maxYear, none without a numeric year. */
  function YearSpan(keys: seq<string>): (r: seq<int>)
  {
    if MinYear(keys).None? || MaxYear(keys).None? then []
    else
      var lo, hi := MinYear(keys).value, MaxYear(keys).value;
      seq(if hi >= lo then hi - lo + 1 else 0, i => lo + i)
  }

  /** Every numeric key year has its column, at its offset from minYear,
      and the span has no gaps. */
  lemma YearSpanCovers(keys: seq<string>, i: int)
    requires 0 <= i < |keys| && YearOfKey(keys[i]).Some?
    ensures MinYear(keys).Some?
    ensures 0 <= YearOfKey(keys[i]).value - MinYear(keys).value < |YearSpan(keys)|
    ensures YearSpan(keys)[YearOfKey(keys[i]).value - MinYear(keys).value] == YearOfKey(keys[i]).value
  {
    RangeBounds(keys, i);
  }

  // ---------------------------------------------------------------------
  // Filling the matrices
  // ---------------------------------------------------------------------

  /** What the fill loop does with one key: skip it (a `continue`), write
      at [doy][yi], or fail on a NaN index (a TypeError). */
  datatype Action = Skip | Place(doy: int, yi: int) | Broken

  /** A NaN year gives a NaN column, which passes the range test; a NaN
      month or day gives a NaN row, which passes its test too; either then
      indexes `undefined`. */
  function KeyAction(k: string, lo: int, nYears: int): (a: Action)
    ensures a.Place? ==> 0 <= a.doy < N_DAYS && 0 <= a.yi < nYears
  {
    var kd := ParseKey(k);
    if kd.year.None? then Broken
    else
      var yi := kd.year.value - lo;
      if yi < 0 || yi >= nYears then Skip
      else if kd.month.None? || kd.day.None? then Broken
      else
        var doy := Calendar.DayOfYearIndex(kd.year.value, kd.month.value, kd.day.value);
        if doy < 0 || doy >= N_DAYS then Skip else Place(doy, yi)
  }

  /** A service key for a real date in the year range lands on its
      day-of-year row and its year's column. */
  lemma CompactKeyPlaced(y: nat, m: nat, d: nat, lo: int, nYears: int)
    requires y < 10000 && 1 <= m <= 12 && 1 <= d <= Calendar.MonthLength(Calendar.FullYear(y), m)
    requires lo <= y < lo + nYears
    ensures KeyAction(CompactKey(y, m, d), lo, nYears) == Place(Calendar.DayOfYearIndex(y, m, d), y - lo)
  {
    ParseCompactKey(y, m, d);
    Calendar.DayOfYearIndexBounds(y, m, d);
  }
  /** An eight-character key "YYYY-M-D" is read as YYYYMMDD: the month and
      day slices are "-M" and "-D", read as negative numbers. */
  lemma ParseShortDashedKey(y: nat, m: nat, d: nat)
    requires y < 10000 && 1 <= m <= 9 && 1 <= d <= 9
    ensures ParseKey(Digits(y, 4) + "-" + Digits(m, 1) + "-" + Digits(d, 1)) == KeyDate(Some(y), Some(-(m as int)), Some(-(d as int)))
  {
    DigitsValue(y, 4);
    DigitsValue(m, 1);
    DigitsValue(d, 1);
    ParseDashedDigits(Digits(y, 4), Digits(m, 1), Digits(d, 1));
  }

  lemma ParseDashedDigits(ys: string, ms: string, ds: string)
    requires |ys| == 4 && |ms| == 1 && |ds| == 1
    requires Geo.AllDigits(ys) && Geo.AllDigits(ms) && Geo.AllDigits(ds)
    ensures ParseKey(ys + "-" + ms + "-" + ds)
      == KeyDate(Some(Geo.DecimalValue(ys)), Some(-(Geo.DecimalValue(ms) as int)), Some(-(Geo.DecimalValue(ds) as int)))
  {
    assert ys + "-" + ms + "-" + ds == ys + ("-" + ms) + ("-" + ds);
    ParseEightCharacters(ys, "-" + ms, "-" + ds);
    NumberOfDigits(ys);
    NumberOfNegative(ms);
    NumberOfNegative(ds);
  }

  /** An eight-character key is read in the slices 0..4, 4..6 and 6..8. */
  lemma ParseEightCharacters(a: string, b: string, c: string)
    requires |a| == 4 && |b| == 2 && |c| == 2
    ensures ParseKey(a + b + c) == KeyDate(NumberOf(a), NumberOf(b), NumberOf(c))
  {
    var k := a + b + c;
    assert k[0..4] == a && k[4..6] == b && k[6..8] == c;
  }

  /** Such a key's date falls before January 1, so the key is skipped
      rather than breaking the fill. */
  lemma ShortDashedKeySkipped(y: nat, m: nat, d: nat, lo: int, nYears: int)
    requires y < 10000 && 1 <= m <= 9 && 1 <= d <= 9
    requires lo <= y < lo + nYears
    ensures KeyAction(Digits(y, 4) + "-" + Digits(m, 1) + "-" + Digits(d, 1), lo, nYears) == Skip
  {
    ParseShortDashedKey(y, m, d);
    Calendar.BeforeJanuaryFirst(y, -(m as int), -(d as int));
  }



  /** Cell [doy][yi] of one parameter after a key: the key's value when
      the key lands there and the series has it, otherwise unchanged. */
  function Written(k: string, values: map<string, Cell>, lo: int, nYears: int, doy: int, yi: int, prev: Cell): Cell
  {
    if k in values && KeyAction(k, lo, nYears) == Place(doy, yi) then values[k] else prev
  }

  /** Cell [doy][yi] of one parameter after the given keys: null, then
      each key's write in turn. */
  function CellAt(keys: seq<string>, values: map<string, Cell>, lo: int, nYears: int, doy: int, yi: int): Cell
  {
    if keys == [] then None
    else Written(keys[|keys| - 1], values, lo, nYears, doy, yi,
                 CellAt(keys[..|keys| - 1], values, lo, nYears, doy, yi))
  }

  /** A cell no key lands on with a value stays null. */
  lemma {:induction false} CellStaysNull(keys: seq<string>, values: map<string, Cell>, lo: int, nYears: int, doy: int, yi: int)
    requires forall i :: 0 <= i < |keys| ==> keys[i] !in values || KeyAction(keys[i], lo, nYears) != Place(doy, yi)
    ensures CellAt(keys, values, lo, nYears, doy, yi) == None
  {
    if keys != [] {
      CellStaysNull(keys[..|keys| - 1], values, lo, nYears, doy, yi);
    }
  }

  /** The last key landing on a cell with a value decides it. */
  lemma {:induction false} LastWriteWins(keys: seq<string>, values: map<string, Cell>, lo: int, nYears: int, doy: int, yi: int, j: int)
    requires 0 <= j < |keys| && keys[j] in values && KeyAction(keys[j], lo, nYears) == Place(doy, yi)
    requires forall i :: j < i < |keys| ==> keys[i] !in values || KeyAction(keys[i], lo, nYears) != Place(doy, yi)
    ensures CellAt(keys, values, lo, nYears, doy, yi) == values[keys[j]]
  {
    if j < |keys| - 1 {
      LastWriteWins(keys[..|keys| - 1], values, lo, nYears, doy, yi, j);
    }
  }

  /** Some requested parameter's series has a value under k. */
  predicate HeldBy(k: string, p: Payload, names: seq<string>)
  {
    exists j :: 0 <= j < |names| && k in ValuesOf(p, names[j])
  }

  /** Some key fails on a NaN index for a parameter that has it. */
  predicate AnyBroken(keys: seq<string>, p: Payload, names: seq<string>, lo: int, nYears: int)
  {
    exists i :: 0 <= i < |keys| && KeyAction(keys[i], lo, nYears).Broken? && HeldBy(keys[i], p, names)
  }

  /** The inner loop over the requested parameters for one key. */
  method FillKey(k: string, p: Payload, names: seq<string>, lo: int, nYears: int, cells: array3<Cell>)
    returns (ok: bool)
    requires cells.Length0 == |names| && cells.Length1 == N_DAYS && cells.Length2 == nYears
    modifies cells
    ensures ok <==> !(KeyAction(k, lo, nYears).Broken? && HeldBy(k, p, names))
    ensures ok ==> forall i, d, y | 0 <= i < |names| && 0 <= d < N_DAYS && 0 <= y < nYears ::
      cells[i, d, y] == Written(k, ValuesOf(p, names[i]), lo, nYears, d, y, old(cells[i, d, y]))
  {
    var action := KeyAction(k, lo, nYears);
    var j := 0;
    while j < |names|
      invariant 0 <= j <= |names|
      invariant action.Broken? ==> forall i :: 0 <= i < j ==> k !in ValuesOf(p, names[i])
      invariant forall i, d, y | 0 <= i < |names| && 0 <= d < N_DAYS && 0 <= y < nYears ::
        cells[i, d, y] == if i < j then Written(k, ValuesOf(p, names[i]), lo, nYears, d, y, old(cells[i, d, y]))
                          else old(cells[i, d, y])
    {
      var values := ValuesOf(p, names[j]);
      if k in values {
        if action.Broken? {
          return false;
        }
        if action.Place? {
          cells[j, action.doy, action.yi] := values[k];
        }
      }
      j := j + 1;
    }
    return true;
  }

  /** The loop over the date keys. */
  method FillCells(keys: seq<string>, p: Payload, names: seq<string>, lo: int, nYears: int, cells: array3<Cell>)
    returns (ok: bool)
    requires cells.Length0 == |names| && cells.Length1 == N_DAYS && cells.Length2 == nYears
    requires forall i, d, y | 0 <= i < |names| && 0 <= d < N_DAYS && 0 <= y < nYears :: cells[i, d, y] == None
    modifies cells
    ensures ok <==> !AnyBroken(keys, p, names, lo, nYears)
    ensures ok ==> forall i, d, y | 0 <= i < |names| && 0 <= d < N_DAYS && 0 <= y < nYears ::
      cells[i, d, y] == CellAt(keys, ValuesOf(p, names[i]), lo, nYears, d, y)
  {
    var n := 0;
    while n < |keys|
      invariant 0 <= n <= |keys|
      invariant !AnyBroken(keys[..n], p, names, lo, nYears)
      invariant forall i, d, y | 0 <= i < |names| && 0 <= d < N_DAYS && 0 <= y < nYears ::
        cells[i, d, y] == CellAt(keys[..n], ValuesOf(p, names[i]), lo, nYears, d, y)
    {
      assert keys[..n + 1][..n] == keys[..n];
      ok := FillKey(keys[n], p, names, lo, nYears, cells);
      if !ok {
        assert keys[n] == keys[..n + 1][n];
        BrokenExtends(keys, p, names, lo, nYears, n + 1);
        return false;
      }
      NotBrokenExtends(keys, p, names, lo, nYears, n);
      n := n + 1;
    }
    assert keys[..n] == keys;
    return true;
  }

  lemma BrokenExtends(keys: seq<string>, p: Payload, names: seq<string>, lo: int, nYears: int, n: int)
    requires 0 < n <= |keys|
    requires KeyAction(keys[n - 1], lo, nYears).Broken? && HeldBy(keys[n - 1], p, names)
    ensures AnyBroken(keys, p, names, lo, nYears)
  {
  }

  lemma NotBrokenExtends(keys: seq<string>, p: Payload, names: seq<string>, lo: int, nYears: int, n: int)
    requires 0 <= n < |keys|
    requires !AnyBroken(keys[..n], p, names, lo, nYears)
    requires !(KeyAction(keys[n], lo, nYears).Broken? && HeldBy(keys[n], p, names))
    ensures !AnyBroken(keys[..n + 1], p, names, lo, nYears)
  {
    var ks := keys[..n + 1];
    forall i | 0 <= i < |ks|
      ensures !(KeyAction(ks[i], lo, nYears).Broken? && HeldBy(ks[i], p, names))
    {
      if i < n {
        assert ks[i] == keys[..n][i];
      }
    }
  }

  // ---------------------------------------------------------------------
  // The returned object
  // ---------------------------------------------------------------------

  /** What a property of the returned object holds: the years, the matrix
      of a requested parameter, or an empty list. */
  datatype Field = YearsField | MatrixOf(param: string) | EmptyList

  /** The well-known parameters and the names they are returned under. */
  predicate WellKnown(p: string)
  {
    p == "T2M" || p == "PRECTOTCORR" || p == "WS2M"
  }

  /** The closed form of the returned object's properties: a requested
      parameter that is not well-known is returned under its own name, last
      and so overriding; below that, T2M, PRECTOTCORR and WS2M are returned
      as temp, precip and wind, and `years` is always there. */
  function FieldOf(names: seq<string>, key: string): (r: Option<Field>)
  {
    if key in names && !WellKnown(key) then Some(MatrixOf(key))
    else if key == "temp" && "T2M" in names then Some(MatrixOf("T2M"))
    else if key == "precip" && "PRECTOTCORR" in names then Some(MatrixOf("PRECTOTCORR"))
    else if key == "wind" && "WS2M" in names then Some(MatrixOf("WS2M"))
    else if key == "years" then Some(YearsField)
    else None
  }

  /** The object has exactly the properties `FieldOf` gives. */
  ghost predicate NamedAs(out: map<string, Field>, names: seq<string>)
  {
    forall key :: (key in out <==> FieldOf(names, key).Some?) && (key in out ==> out[key] == FieldOf(names, key).value)
  }

  /** Building `out`: years, the three renamings, then the other
      parameters in request order. */
  method NameOutputs(names: seq<string>) returns (out: map<string, Field>)
    ensures NamedAs(out, names)
  {
    out := map["years" := YearsField];
    if "T2M" in names { out := out["temp" := MatrixOf("T2M")]; }
    if "PRECTOTCORR" in names { out := out["precip" := MatrixOf("PRECTOTCORR")]; }
    if "WS2M" in names { out := out["wind" := MatrixOf("WS2M")]; }
    ghost var base := out;
    var j := 0;
    while j < |names|
      invariant 0 <= j <= |names|
      invariant forall key :: key in out <==> key in base || (key in names[..j] && !WellKnown(key))
      invariant forall key :: key in out ==> out[key] == if key in names[..j] && !WellKnown(key) then MatrixOf(key) else base[key]
    {
      assert names[..j + 1] == names[..j] + [names[j]];
      if !WellKnown(names[j]) {
        out := out[names[j] := MatrixOf(names[j])];
      }
      j := j + 1;
    }
    assert names[..j] == names;
  }

  /** Under the closed form: every requested parameter is returned, the
      well-known ones renamed, and nothing else is there besides years. */
  lemma NamingExplained(names: seq<string>, out: map<string, Field>)
    requires NamedAs(out, names)
    ensures "years" in out
    ensures forall p :: p in names && !WellKnown(p) ==> p in out && out[p] == MatrixOf(p)
    ensures "T2M" in names && "temp" !in names ==> out["temp"] == MatrixOf("T2M")
    ensures "PRECTOTCORR" in names && "precip" !in names ==> out["precip"] == MatrixOf("PRECTOTCORR")
    ensures "WS2M" in names && "wind" !in names ==> out["wind"] == MatrixOf("WS2M")
  {
    assert FieldOf(names, "years").Some?;
  }

  /** Every property of the object comes from the request: each matrix is
      a requested parameter and each key is "years", a requested name or
      one of the three renamings. */
  lemma NamingComesFromRequest(names: seq<string>, out: map<string, Field>)
    requires NamedAs(out, names)
    ensures forall key :: key in out && out[key].MatrixOf? ==> out[key].param in names
    ensures forall key :: key in out ==> key == "years" || key in names || key in {"temp", "precip", "wind"}
  {
    forall key | key in out
      ensures key == "years" || key in names || key in {"temp", "precip", "wind"}
      ensures out[key].MatrixOf? ==> out[key].param in names
    {
      assert FieldOf(names, key).Some?;
    }
  }

  /** The properties of the object returned when there are no date keys. */
  const EMPTY_FIELDS: map<string, Field> := map["temp" := EmptyList, "precip" := EmptyList, "years" := YearsField]

  /** The assembled result: the years, one 366-by-years matrix per
      position of the request (`cells[i, doy, yi]`), and the properties. */
  datatype Assembled = Assembled(years: seq<int>, cells: array3<Cell>, fields: map<string, Field>)

  /** The result for a payload with date keys, cell by cell. */
  ghost predicate AssembledFrom(p: Payload, names: seq<string>, a: Assembled)
    requires |DateKeys(p)| > 0
    reads a.cells
  {
    var keys := DateKeys(p);
    var lo := if MinYear(keys).Some? then MinYear(keys).value else 0;
    && a.years == YearSpan(keys)
    && a.cells.Length0 == |names| && a.cells.Length1 == N_DAYS && a.cells.Length2 == |a.years|
    && (forall i, d, y | 0 <= i < |names| && 0 <= d < N_DAYS && 0 <= y < |a.years| ::
          a.cells[i, d, y] == CellAt(keys, ValuesOf(p, names[i]), lo, |a.years|, d, y))
    && NamedAs(a.fields, names)
  }

  /** Lines 130-183 of the client: date keys, year range, allocation,
      filling and naming. */
  method AssembleMatrices(p: Payload, names: seq<string>) returns (r: Result<Assembled>)
    ensures |DateKeys(p)| == 0 ==> r.Ok? && r.value.years == [] && r.value.fields == EMPTY_FIELDS
    ensures |DateKeys(p)| > 0 ==>
      var lo := if MinYear(DateKeys(p)).Some? then MinYear(DateKeys(p)).value else 0;
      && (r.Ok? <==> !AnyBroken(DateKeys(p), p, names, lo, |YearSpan(DateKeys(p))|))
      && (r.Err? ==> r.error == CellIndex)
      && (r.Ok? ==> AssembledFrom(p, names, r.value))
  {
    var keys := DateKeys(p);
    if |keys| == 0 {
      var none := new Cell[0, 0, 0];
      return Ok(Assembled([], none, EMPTY_FIELDS));
    }
    var lo, hi := YearRange(keys);
    RangeSetTogether(keys);
    var years: seq<int> := [];
    if lo.Some? {
      years := YearsBetween(lo.value, hi.value);
    }
    assert years == YearSpan(keys);
    var first := if lo.Some? then lo.value else 0;
    var cells := new Cell[|names|, N_DAYS, |years|]((i, d, y) => None);
    var ok := FillCells(keys, p, names, first, |years|, cells);
    if !ok {
      return Err(CellIndex);
    }
    var fields := NameOutputs(names);
    return Ok(Assembled(years, cells, fields));
  }

  // ---------------------------------------------------------------------
  // The retry loop
  // ---------------------------------------------------------------------

  /** One HTTP reply to an attempt. `Answer` is a 2xx reply with its parsed
      body (None when JSON.parse failed or gave a falsy value). `Rejected`
      carries the status and, when the body reports incorrect parameters,
      the names it lists (`Reject` reads them from the message). */
  datatype Reply = Answer(data: Option<Payload>) | Rejected(status: int, bad: Option<seq<string>>)

  /** `m[1].split(/[ ,]+/).map(s => s.trim()).filter(Boolean)`, where `m[1]`
      is the capture of `incorrect: ([A-Z0-9_,]+)`: the capture has no
      blanks, so this is its non-empty ','-pieces. */
  function BadNames(capture: string): seq<string>
  {
    Geo.Pieces(capture, ',')
  }

  /** A failed reply with the capture of the message, if the body says one
      of the parameters is incorrect and the pattern matched. */
  function Reject(status: int, capture: Option<string>): Reply
  {
    Rejected(status, if capture.Some? then Some(BadNames(capture.value)) else None)
  }

  /** A list written as the service writes it, "A,B,C", is read back; the
      names have no commas and no surrounding blanks. */
  lemma {:induction false} BadNamesOfList(names: seq<string>)
    requires |names| >= 1
    requires forall i :: 0 <= i < |names| ==> names[i] != "" && Geo.Trimmed(names[i]) && ',' !in names[i]
    ensures BadNames(Geo.Join(names, ",")) == names
  {
    Geo.PiecesOfJoin(names, ',');
  }

  /** `currentParams.filter(p => !bad.includes(p))`. */
  function RemoveBad(current: seq<string>, bad: seq<string>): (r: seq<string>)
    ensures |r| <= |current|
  {
    if current == [] then []
    else RemoveBad(current[..|current| - 1], bad)
         + (if current[|current| - 1] !in bad then [current[|current| - 1]] else [])
  }

  /** Exactly the reported names go. */
  lemma {:induction false} RemoveBadExact(current: seq<string>, bad: seq<string>, x: string)
    ensures x in RemoveBad(current, bad) <==> x in current && x !in bad
  {
    if current != [] {
      var init, last := current[..|current| - 1], current[|current| - 1];
      RemoveBadExact(init, bad, x);
      assert current == init + [last];
    }
  }

  /** The names that stay keep their order. */
  lemma {:induction false} RemoveBadKeepsOrder(current: seq<string>, bad: seq<string>)
    ensures IsSubsequence(RemoveBad(current, bad), current)
  {
    if current != [] {
      var init, last := current[..|current| - 1], current[|current| - 1];
      RemoveBadKeepsOrder(init, bad);
      assert current == init + [last];
      SubsequenceExtend(RemoveBad(init, bad), init, last);
      if last in bad {
        assert RemoveBad(current, bad) == RemoveBad(init, bad);
      } else {
        assert RemoveBad(current, bad) == RemoveBad(init, bad) + [last];
      }
    }
  }

  /** What the retry loop ends with: the payload or the error, and the
      parameter list it would request next. */
  datatype Fetched = Fetched(result: Result<Payload>, current: seq<string>)

  /** What one attempt leads to: the end of the loop, or another attempt
      with the given parameter list. */
  datatype Step = Stop(outcome: Fetched) | Again(next: seq<string>)

  /** One pass of the loop body on a reply. A 2xx reply with a body ends
      the loop; one without a body retries. A 422 naming incorrect
      parameters drops them and retries, unless none are left (the `break`,
      after which the missing body fails the call). Any other failure throws
      `POWER HTTP <status>`. */
  function Attempt(current: seq<string>, reply: Reply): Step
  {
    match reply
    case Answer(data) =>
      if data.Some? then Stop(Fetched(Ok(data.value), current)) else Again(current)
    case Rejected(status, bad) =>
      if status == 422 && bad.Some? then
        var next := RemoveBad(current, bad.value);
        if |next| == 0 then Stop(Fetched(Err(FetchFailed), next)) else Again(next)
      else Stop(Fetched(Err(PowerHttp(status)), current))
  }

  /** Attempts `attempts + 1` to 5 on the replies; after the fifth without
      a body the call fails. */
  function Retry(current: seq<string>, replies: seq<Reply>, attempts: nat): (o: Fetched)
    requires attempts <= MAX_ATTEMPTS <= |replies|
    decreases MAX_ATTEMPTS - attempts
  {
    if attempts == MAX_ATTEMPTS then Fetched(Err(FetchFailed), current)
    else match Attempt(current, replies[attempts])
      case Stop(o) => o
      case Again(next) => Retry(next, replies, attempts + 1)
  }

  /** The `while (attempts < 5)` loop. */
  method FetchWithRetry(names: seq<string>, replies: seq<Reply>) returns (r: Result<Payload>, current: seq<string>)
    requires |replies| >= MAX_ATTEMPTS
    ensures Fetched(r, current) == Retry(names, replies, 0)
  {
    var attempts: nat := 0;
    var data: Option<Payload> := None;
    current := names;
    while attempts < MAX_ATTEMPTS
      invariant attempts <= MAX_ATTEMPTS
      invariant data.None?
      invariant Retry(names, replies, 0) == Retry(current, replies, attempts)
    {
      ghost var step := Attempt(current, replies[attempts]);
      var reply := replies[attempts];
      attempts := attempts + 1;
      if reply.Rejected? {
        if reply.status == 422 && reply.bad.Some? {
          current := RemoveBad(current, reply.bad.value);
          if |current| == 0 {
            assert step == Stop(Fetched(Err(FetchFailed), current));
            break;
          }
          assert step == Again(current);
          continue;
        }
        assert step == Stop(Fetched(Err(PowerHttp(reply.status)), current));
        return Err(PowerHttp(reply.status)), current;
      }
      data := reply.data;
      if data.Some? {
        assert step == Stop(Fetched(Ok(data.value), current));
        return Ok(data.value), current;
      }
      assert step == Again(current);
    }
    return Err(FetchFailed), current;
  }

  /** The list the loop ends with is the request with reported names
      removed, in order. */
  lemma {:induction false} RetryKeepsOrder(current: seq<string>, replies: seq<Reply>, attempts: nat)
    requires attempts <= MAX_ATTEMPTS <= |replies|
    ensures IsSubsequence(Retry(current, replies, attempts).current, current)
    decreases MAX_ATTEMPTS - attempts
  {
    if attempts < MAX_ATTEMPTS {
      AttemptKeepsOrder(current, replies[attempts]);
      match Attempt(current, replies[attempts])
      case Stop(o) =>
      case Again(next) =>
        RetryKeepsOrder(next, replies, attempts + 1);
        SubsequenceTransitive(Retry(next, replies, attempts + 1).current, next, current);
    } else {
      SubsequenceReflexive(current);
    }
  }

  /** One attempt only ever removes names, keeping the order of the rest. */
  lemma AttemptKeepsOrder(current: seq<string>, reply: Reply)
    ensures Attempt(current, reply).Stop? ==> IsSubsequence(Attempt(current, reply).outcome.current, current)
    ensures Attempt(current, reply).Again? ==> IsSubsequence(Attempt(current, reply).next, current)
  {
    if reply.Rejected? && reply.status == 422 && reply.bad.Some? {
      RemoveBadKeepsOrder(current, reply.bad.value);
    } else {
      SubsequenceReflexive(current);
    }
  }

  /** The loop stops, failing, once no parameter is left to request. */
  lemma {:induction false} RetryStopsWhenEmpty(current: seq<string>, replies: seq<Reply>, attempts: nat)
    requires attempts <= MAX_ATTEMPTS <= |replies|
    requires current != []
    ensures Retry(current, replies, attempts).current == [] ==> Retry(current, replies, attempts).result == Err(FetchFailed)
    decreases MAX_ATTEMPTS - attempts
  {
    if attempts < MAX_ATTEMPTS {
      match Attempt(current, replies[attempts])
      case Stop(o) =>
      case Again(next) =>
        RetryStopsWhenEmpty(next, replies, attempts + 1);
    }
  }

  /** A payload comes from a 2xx reply, and `POWER HTTP s` from a reply
      with status s that is not a 422 naming parameters. */
  lemma {:induction false} RetryOutcomes(current: seq<string>, replies: seq<Reply>, attempts: nat)
    requires attempts <= MAX_ATTEMPTS <= |replies|
    ensures Retry(current, replies, attempts).result.Ok? ==>
              exists a :: attempts <= a < MAX_ATTEMPTS && replies[a] == Answer(Some(Retry(current, replies, attempts).result.value))
    ensures Retry(current, replies, attempts).result.Err? && Retry(current, replies, attempts).result.error.PowerHttp? ==>
              exists a :: attempts <= a < MAX_ATTEMPTS && replies[a].Rejected?
                && replies[a].status == Retry(current, replies, attempts).result.error.status
                && !(replies[a].status == 422 && replies[a].bad.Some?)
    decreases MAX_ATTEMPTS - attempts
  {
    if attempts < MAX_ATTEMPTS {
      match Attempt(current, replies[attempts])
      case Stop(o) =>
      case Again(next) =>
        RetryOutcomes(next, replies, attempts + 1);
    }
  }

  lemma SubsequenceReflexive<T>(a: seq<T>)
    ensures IsSubsequence(a, a)
    decreases |a|
  {
    if a != [] {
      SubsequenceReflexive(a[..|a| - 1]);
    }
  }

  lemma {:induction false} SubsequenceTransitive<T>(a: seq<T>, b: seq<T>, c: seq<T>)
    requires IsSubsequence(a, b) && IsSubsequence(b, c)
    ensures IsSubsequence(a, c)
    decreases |c|
  {
    if a != [] && c != [] {
      if b == [] {
      } else if b[|b| - 1] == c[|c| - 1] && IsSubsequence(b[..|b| - 1], c[..|c| - 1]) {
        if a[|a| - 1] == b[|b| - 1] && IsSubsequence(a[..|a| - 1], b[..|b| - 1]) {
          SubsequenceTransitive(a[..|a| - 1], b[..|b| - 1], c[..|c| - 1]);
        } else {
          SubsequenceTransitive(a, b[..|b| - 1], c[..|c| - 1]);
        }
      } else {
        SubsequenceTransitive(a, b, c[..|c| - 1]);
      }
    }
  }

  /** `fetchData` after the request is built: the retry loop, then the
      assembly from the originally requested parameters (not the filtered
      list, so a dropped parameter keeps an all-null matrix). */
  method FetchData(names: seq<string>, replies: seq<Reply>) returns (r: Result<Assembled>)
    requires |replies| >= MAX_ATTEMPTS
    ensures Retry(names, replies, 0).result.Err? ==> r == Err(Retry(names, replies, 0).result.error)
    ensures Retry(names, replies, 0).result.Ok? ==>
      var p := Retry(names, replies, 0).result.value;
      && (|DateKeys(p)| == 0 ==> r.Ok? && r.value.years == [] && r.value.fields == EMPTY_FIELDS)
      && (|DateKeys(p)| > 0 ==>
            var lo := if MinYear(DateKeys(p)).Some? then MinYear(DateKeys(p)).value else 0;
            && (r.Ok? <==> !AnyBroken(DateKeys(p), p, names, lo, |YearSpan(DateKeys(p))|))
            && (r.Ok? ==> AssembledFrom(p, names, r.value))
            && (r.Err? ==> r.error == CellIndex))
  {
    var fetched, current := FetchWithRetry(names, replies);
    if fetched.Err? {
      return Err(fetched.error);
    }
    r := AssembleMatrices(fetched.value, names);
  }
}
