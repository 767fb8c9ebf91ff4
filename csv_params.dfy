/**
 * The state objects of the CSV dialect engine (CsvIO.h): CsvDateTime,
 * which records which columns hold the date and time and handles the
 * fallback year, and CsvParameters, which the header parsing fills in and
 * the data reading consults. The date parsing is a function of a snapshot
 * of that state plus the auto-wrap flag it may switch off.
 */
module CsvParams {
  import opened Common
  import opened CsvSpecs

  // ---------------------------------------------------------------- date/time columns

  /** The column of each date/time component; None stands for npos. */
  datatype DateColumns = DateColumns(
    decimalDate: Option<nat>, dateStr: Option<nat>, timeStr: Option<nat>, year: Option<nat>,
    jdn: Option<nat>, month: Option<nat>, day: Option<nat>, time: Option<nat>,
    hours: Option<nat>, minutes: Option<nat>, seconds: Option<nat>)

  const NoColumns: DateColumns := DateColumns(None, None, None, None, None, None, None, None, None, None, None)

  /** The columns in the order updateMaxCol inspects them. */
  function ColumnList(c: DateColumns): seq<Option<nat>>
  {
    [c.decimalDate, c.dateStr, c.timeStr, c.year, c.jdn, c.month, c.day, c.time, c.hours, c.minutes, c.seconds]
  }

  /** updateMaxCol: the largest of `m` and of the set columns. */
  function MaxCol(m: nat, cs: seq<Option<nat>>): (r: nat)
    decreases |cs|
    ensures m <= r
    ensures forall i :: 0 <= i < |cs| && cs[i].Some? ==> cs[i].value <= r
    ensures r == m || exists i :: 0 <= i < |cs| && cs[i] == Some(r)
  {
    if cs == [] then m
    else
      var m1 := if cs[0].Some? && cs[0].value > m then cs[0].value else m;
      var r := MaxCol(m1, cs[1..]);
      assert forall i :: 1 <= i < |cs| ==> cs[i] == cs[1..][i - 1];
      if r == m1 then
        assert m1 == m || cs[0] == Some(r);
        r
      else
        var i :| 0 <= i < |cs[1..]| && cs[1..][i] == Some(r);
        assert cs[i + 1] == Some(r);
        r
  }

  /** isSet: date and time strings, a decimal date, or a complete set of components. */
  predicate LayoutComplete(c: DateColumns, yearCst: int)
  {
    (c.dateStr.Some? && c.timeStr.Some?) || c.decimalDate.Some? ||
    ((c.time.Some? || c.hours.Some?) && (c.year.Some? || yearCst != INodata) && (c.jdn.Some? || (c.month.Some? && c.day.Some?)))
  }

  /** A date string alone, or date components without a time, do not make a complete layout. */
  lemma IncompleteLayouts(i: nat, yearCst: int)
    ensures !LayoutComplete(NoColumns, yearCst)
    ensures !LayoutComplete(NoColumns.(dateStr := Some(i)), yearCst)
    ensures !LayoutComplete(NoColumns.(year := Some(i), month := Some(i + 1), day := Some(i + 2)), yearCst)
    ensures LayoutComplete(NoColumns.(jdn := Some(i), hours := Some(i + 1)), yearCst) <==> yearCst != INodata
  {
  }

  /**
   * getFixedYear: a value before October (a day of year below 273 or a
   * month below 10) switches the wrap off; while it is on, the fallback
   * year minus one is returned.
   */
  function FixedYear(yearCst: int, wrap: bool, beforeOctober: bool): (r: (int, bool))
    ensures r.1 ==> wrap
  {
    var w := wrap && !beforeOctober;
    (if w then yearCst - 1 else yearCst, w)
  }

  /** The years getFixedYear returns for months read one after the other. */
  function YearsOfMonths(yearCst: int, wrap: bool, months: seq<int>): (ys: seq<int>)
    ensures |ys| == |months|
  {
    if months == [] then []
    else
      var (y, w) := FixedYear(yearCst, wrap, months[0] < 10);
      [y] + YearsOfMonths(yearCst, w, months[1..])
  }

  /**
   * With auto-wrap on, the k-th date belongs to the previous year exactly
   * when it and every date before it are from October on: a single month
   * before October switches the wrap off for good.
   */
  lemma {:induction false} YearsOfMonthsWrap(yearCst: int, wrap: bool, months: seq<int>, k: nat)
    requires k < |months|
    ensures YearsOfMonths(yearCst, wrap, months)[k] ==
      (if wrap && forall j :: 0 <= j <= k ==> months[j] >= 10 then yearCst - 1 else yearCst)
  {
    var w := wrap && months[0] >= 10;
    if k > 0 {
      YearsOfMonthsWrap(yearCst, w, months[1..], k - 1);
      assert forall j :: 1 <= j <= k ==> months[j] == months[1..][j - 1];
      if w && forall j :: 0 <= j <= k - 1 ==> months[1..][j] >= 10 {
        assert forall j :: 0 <= j <= k ==> months[j] >= 10;
      }
    }
  }

  /** The state and defaults of CsvDateTime. */
  class CsvDateTime {
    var cols: DateColumns
    var maxDtCol: nat
    var yearCst: int
    var decimalDateType: DecimalKind
    /** When on, dates from October on belong to yearCst - 1 until a date before October is met. */
    var autoWrap: bool

    constructor()
      ensures cols == NoColumns && maxDtCol == 0 && yearCst == INodata
      ensures decimalDateType == Julian && autoWrap
    {
      cols := NoColumns;
      maxDtCol := 0;
      yearCst := INodata;
      decimalDateType := Julian;
      autoWrap := true;
    }

    method UpdateMaxCol()
      modifies this`maxDtCol
      ensures maxDtCol == MaxCol(old(maxDtCol), ColumnList(cols))
    {
      maxDtCol := MaxCol(maxDtCol, ColumnList(cols));
    }

    /** getFixedYear for a day of year. */
    method GetFixedYearJdn(jdn: real) returns (y: int)
      modifies this
      ensures (y, autoWrap) == FixedYear(yearCst, old(autoWrap), jdn < 273.0)
      ensures cols == old(cols) && maxDtCol == old(maxDtCol) && yearCst == old(yearCst) && decimalDateType == old(decimalDateType)
    {
      if jdn < 273.0 {
        autoWrap := false;
      }
      if autoWrap {
        return yearCst - 1;
      }
      return yearCst;
    }

    /** getFixedYear for a month. */
    method GetFixedYearMonth(month: int) returns (y: int)
      modifies this
      ensures (y, autoWrap) == FixedYear(yearCst, old(autoWrap), month < 10)
      ensures cols == old(cols) && maxDtCol == old(maxDtCol) && yearCst == old(yearCst) && decimalDateType == old(decimalDateType)
    {
      if month < 10 {
        autoWrap := false;
      }
      if autoWrap {
        return yearCst - 1;
      }
      return yearCst;
    }

    predicate IsSet()
      reads this
    {
      LayoutComplete(cols, yearCst)
    }
  }

  // ---------------------------------------------------------------- parsing a date from a row

  /**
   * The outcome of reading a date: a value, an undefined date (what the
   * source returns as Date()), or undefined behaviour (an index beyond the
   * row or an npos column read).
   */
  datatype Parsed<T> = Value(v: T) | Unparsed | Broken
  {
    predicate IsFailure() { !Value? }
    function PropagateFailure<U>(): Parsed<U>
      requires IsFailure()
    {
      if Unparsed? then Unparsed else Broken
    }
    function Extract(): T
      requires Value?
    {
      v
    }
  }

  /** Everything parseDate consults, as a value. */
  datatype DateConfig = DateConfig(
    cols: DateColumns, yearCst: int, decimalType: DecimalKind,
    datetimeIdx: seq<nat>, timeIdx: seq<nat>, datetimeFormat: string, timeFormat: string,
    hasTz: bool, tz: real, asComponents: bool, asYearAndJdn: bool, asDecimal: bool)

  /**
   * The IOUtils, sscanf and Date calls of date parsing. A %32s that is
   * reached matches at least one character, so an empty trailing string
   * means the scan never wrote its `rest` buffer.
   */
  datatype DateReaders = DateReaders(
    toInt: string -> Option<int>,                             // IOUtils::convertString to an integer
    toReal: string -> Option<real>,                           // IOUtils::convertString to a double
    scan: (string, string, nat) -> Option<(seq<real>, string)>, // sscanf: the values of n conversions and what its %32s matched ("" when not reached), or too few conversions
    timeZone: string -> real)                                 // Date::parseTimeZone

  /** The cell of a column; reading an npos column or one beyond the row is undefined behaviour. */
  function CellOf(fields: seq<string>, idx: Option<nat>): (r: Parsed<string>)
    ensures r.Value? <==> idx.Some? && idx.value < |fields|
    ensures r.Value? ==> r.v == fields[idx.value]
    ensures r.IsFailure() ==> r.Broken?
  {
    if idx.Some? && idx.value < |fields| then Value(fields[idx.value]) else Broken
  }

  /** parseDateComponent: an absent column reads as 0, a present one must convert. */
  function ComponentInt(fields: seq<string>, idx: Option<nat>, toInt: string -> Option<int>): (r: Parsed<int>)
    ensures idx.None? ==> r == Value(0)
    ensures idx.Some? && idx.value >= |fields| ==> r.Broken?
    ensures idx.Some? && idx.value < |fields| ==> (r.Value? <==> toInt(fields[idx.value]).Some?)
  {
    match idx
    case None => Value(0)
    case Some(i) => if i >= |fields| then Broken else match toInt(fields[i]) { case None => Unparsed case Some(x) => Value(x) }
  }

  function ComponentReal(fields: seq<string>, idx: Option<nat>, toReal: string -> Option<real>): (r: Parsed<real>)
    ensures idx.None? ==> r == Value(0.0)
    ensures idx.Some? && idx.value >= |fields| ==> r.Broken?
    ensures idx.Some? && idx.value < |fields| ==> (r.Value? <==> toReal(fields[idx.value]).Some?)
  {
    match idx
    case None => Value(0.0)
    case Some(i) => if i >= |fields| then Broken else match toReal(fields[i]) { case None => Unparsed case Some(x) => Value(x) }
  }

  /** A missing year (read as 0) is replaced by the fallback year when there is one. */
  function FixYear(yearCst: int, wrap: bool, year: int, beforeOctober: bool): (r: (int, bool))
    ensures year != 0 || yearCst == INodata ==> r == (year, wrap)
    ensures year == 0 && yearCst != INodata ==> r == FixedYear(yearCst, wrap, beforeOctober)
  {
    if year == 0 && yearCst != INodata then FixedYear(yearCst, wrap, beforeOctober) else (year, wrap)
  }

  /** The values scanned for the slots of `idx`, written in order at `slot + off`. */
  function Place(args: seq<real>, idx: seq<nat>, vals: seq<real>, off: nat): (r: Parsed<seq<real>>)
    requires |vals| == |idx|
    ensures r.Value? <==> forall k :: 0 <= k < |idx| ==> idx[k] + off < |args|
    ensures r.Value? ==> |r.v| == |args|
    ensures r.IsFailure() ==> r.Broken?
    decreases |idx|
  {
    if idx == [] then Value(args)
    else if idx[0] + off >= |args| then Broken
    else
      var rest := Place(args[idx[0] + off := vals[0]], idx[1..], vals[1..], off);
      assert forall k :: 1 <= k < |idx| ==> idx[k] == idx[1..][k - 1];
      rest
  }

  /** With distinct slots, each scanned value lands in its slot and the other arguments keep their value. */
  lemma {:induction false} PlaceDistinct(args: seq<real>, idx: seq<nat>, vals: seq<real>, off: nat)
    requires |vals| == |idx| && Place(args, idx, vals, off).Value?
    requires forall i, j :: 0 <= i < j < |idx| ==> idx[i] != idx[j]
    ensures forall k :: 0 <= k < |idx| ==> Place(args, idx, vals, off).v[idx[k] + off] == vals[k]
    ensures forall j :: 0 <= j < |args| && (forall k :: 0 <= k < |idx| ==> idx[k] + off != j) ==>
      Place(args, idx, vals, off).v[j] == args[j]
    decreases |idx|
  {
    if idx != [] {
      var a1 := args[idx[0] + off := vals[0]];
      assert forall k :: 1 <= k < |idx| ==> idx[k] == idx[1..][k - 1] && vals[k] == vals[1..][k - 1];
      PlaceDistinct(a1, idx[1..], vals[1..], off);
    }
  }

  /** The n values of one sscanf call, or an undefined date when it converts fewer. */
  function Scan(input: string, format: string, n: nat, rd: DateReaders): (r: Parsed<(seq<real>, string)>)
    ensures r.Value? ==> |r.v.0| == n
    ensures r.IsFailure() ==> r.Unparsed?
  {
    match rd.scan(input, format, n)
    case None => Unparsed
    case Some(res) => if |res.0| == n then Value(res) else Unparsed
  }

  /**
   * parseDate on a date string and a time string: the date part needs 3
   * to 6 conversions, the time part (when a time spec is set) 1 to 3,
   * written at slots 3..5; createDate then needs whole values up to the
   * minute.
   */
  function StringDate(cfg: DateConfig, fields: seq<string>, rd: DateReaders): (r: Parsed<DateValue>)
    ensures r.Value? ==> r.v.Components?
  {
    var dateText :- CellOf(fields, cfg.cols.dateStr);
    var timeText :- CellOf(fields, cfg.cols.timeStr);
    var n := |cfg.datetimeIdx|;
    if n < 3 || n > 6 then Unparsed
    else
      var d :- Scan(dateText, cfg.datetimeFormat, n, rd);
      var args :- Place([0.0, 0.0, 0.0, 0.0, 0.0, 0.0], cfg.datetimeIdx, d.0, 0);
      var m := |cfg.timeIdx|;
      var t :- if 1 <= m <= 3 then Scan(timeText, cfg.timeFormat, m, rd) else Value(([], d.1));
      var args2 :- if 1 <= m <= 3 then Place(args, cfg.timeIdx, t.0, 3) else Value(args);
      var tz := if cfg.hasTz then rd.timeZone(Rest(d.1, t.1)) else cfg.tz;
      var date := CreateDate(args2, tz);
      if date.Undef? then Unparsed else Value(date)
  }

  /**
   * The `rest` buffer after both sscanf calls of parseDate: they share it,
   * so a time scan that does not reach its %32s leaves the date scan's text.
   */
  function Rest(dateRest: string, timeRest: string): (r: string)
    ensures timeRest != "" ==> r == timeRest
    ensures timeRest == "" ==> r == dateRest
  {
    if timeRest != "" then timeRest else dateRest
  }

  /**
   * A time zone given at the end of the date string survives a time string
   * without one: DATE_SPEC `YYYY-MM-DD TZ` and TIME_SPEC `HH24:MI TZ` on the
   * cells `2020-01-01 +01` and `12:00` give 2020-01-01 12:00 in the zone of
   * `+01`.
   */
  lemma StringDateZoneCarried(cfg: DateConfig, fields: seq<string>, rd: DateReaders,
                              year: int, month: int, day: int, hour: int, minute: int, zone: string)
    requires cfg.hasTz && cfg.cols.dateStr == Some(0) && cfg.cols.timeStr == Some(1) && |fields| == 2
    requires cfg.datetimeIdx == [0, 1, 2] && cfg.timeIdx == [0, 1]
    requires rd.scan(fields[0], cfg.datetimeFormat, 3) == Some(([year as real, month as real, day as real], zone))
    requires rd.scan(fields[1], cfg.timeFormat, 2) == Some(([hour as real, minute as real], ""))
    ensures StringDate(cfg, fields, rd) == Value(Components(year, month, day, hour, minute, 0.0, rd.timeZone(zone)))
  {
    var whole := [year as real, month as real, day as real, hour as real, minute as real, 0.0];
    PlaceDate(year as real, month as real, day as real);
    PlaceTime(year as real, month as real, day as real, hour as real, minute as real);
    WholeDate(whole, rd.timeZone(zone));
  }

  /** The date scan's three values land in the first three slots. */
  lemma PlaceDate(y: real, m: real, d: real)
    ensures Place([0.0, 0.0, 0.0, 0.0, 0.0, 0.0], [0, 1, 2], [y, m, d], 0) == Value([y, m, d, 0.0, 0.0, 0.0])
  {
    var p := Place([0.0, 0.0, 0.0, 0.0, 0.0, 0.0], [0, 1, 2], [y, m, d], 0);
    PlaceDistinct([0.0, 0.0, 0.0, 0.0, 0.0, 0.0], [0, 1, 2], [y, m, d], 0);
    assert p.v == [y, m, d, 0.0, 0.0, 0.0];
  }

  /** The time scan's two values land in the hour and minute slots. */
  lemma PlaceTime(y: real, m: real, d: real, h: real, mi: real)
    ensures Place([y, m, d, 0.0, 0.0, 0.0], [0, 1], [h, mi], 3) == Value([y, m, d, h, mi, 0.0])
  {
    var p := Place([y, m, d, 0.0, 0.0, 0.0], [0, 1], [h, mi], 3);
    PlaceDistinct([y, m, d, 0.0, 0.0, 0.0], [0, 1], [h, mi], 3);
    assert p.v == [y, m, d, h, mi, 0.0];
  }

  /** createDate on whole year to minute arguments is that component date. */
  lemma WholeDate(args: seq<real>, tz: real)
    requires |args| == 6 && forall i :: 0 <= i < 5 ==> Integral(args[i])
    ensures CreateDate(args, tz) == Components(args[0].Floor, args[1].Floor, args[2].Floor, args[3].Floor, args[4].Floor, args[5], tz)
  {
  }

  /** parseDate on a decimal date of the configured kind. */
  function DecimalDate(cfg: DateConfig, fields: seq<string>, rd: DateReaders): (r: Parsed<DateValue>)
    ensures r.Value? ==> (r.v.UnixTime? <==> cfg.decimalType == Unix)
    ensures r.Value? && r.v.Decimal? ==> r.v.kind == cfg.decimalType && r.v.tz == cfg.tz
  {
    var text :- CellOf(fields, cfg.cols.decimalDate);
    if cfg.decimalType == Unix then
      match rd.toInt(text) { case None => Unparsed case Some(x) => Value(UnixTime(x)) }
    else
      match rd.toReal(text) { case None => Unparsed case Some(x) => Value(Decimal(cfg.decimalType, x, cfg.tz)) }
  }

  /** parseDate on year, month, day, hour, minute and second columns. */
  function ComponentsDate(cfg: DateConfig, wrap: bool, fields: seq<string>, rd: DateReaders): (r: (Parsed<DateValue>, bool))
    ensures r.1 ==> wrap
    ensures r.0.Value? ==> r.0.v.Components? && r.0.v.tz == cfg.tz
  {
    var month := ComponentInt(fields, cfg.cols.month, rd.toInt);
    var year := ComponentInt(fields, cfg.cols.year, rd.toInt);
    if month.IsFailure() then (month.PropagateFailure(), wrap)
    else if year.IsFailure() then (year.PropagateFailure(), wrap)
    else
      var (y, w) := FixYear(cfg.yearCst, wrap, year.v, month.v < 10);
      (ComponentsRest(cfg, fields, rd, y, month.v), w)
  }

  function ComponentsRest(cfg: DateConfig, fields: seq<string>, rd: DateReaders, year: int, month: int): (r: Parsed<DateValue>)
    ensures r.Value? ==> r.v.Components? && r.v.year == year && r.v.month == month && r.v.tz == cfg.tz
  {
    var day :- ComponentInt(fields, cfg.cols.day, rd.toInt);
    var hour :- ComponentInt(fields, cfg.cols.hours, rd.toInt);
    var minute :- ComponentInt(fields, cfg.cols.minutes, rd.toInt);
    var second :- ComponentReal(fields, cfg.cols.seconds, rd.toReal);
    Value(Components(year, month, day, hour, minute, second, cfg.tz))
  }

  /** An integer component read as a double. */
  function AsReal(p: Parsed<int>): (r: Parsed<real>)
    ensures p.Value? <==> r.Value?
    ensures p.Value? ==> r.v == p.v as real
    ensures p.IsFailure() ==> r == p.PropagateFailure()
  {
    match p
    case Value(x) => Value(x as real)
    case Unparsed => Unparsed
    case Broken => Broken
  }

  /**
   * parseJdnDate: a year and a day of year, with the time of day from a
   * time string, a numerical hhmm time, separate hour/minute/second
   * columns, or already in a decimal day of year. The day of year is an
   * integer in the hhmm and the hour-column cases.
   */
  function JdnDate(cfg: DateConfig, wrap: bool, fields: seq<string>, rd: DateReaders): (r: (Parsed<DateValue>, bool))
    ensures r.1 ==> wrap
    ensures r.0.Value? ==> r.0.v.YearAndJdn?
  {
    var intJdn := |cfg.timeIdx| == 0 && (cfg.cols.time.Some? || cfg.cols.hours.Some?);
    var jdn := if intJdn then AsReal(ComponentInt(fields, cfg.cols.jdn, rd.toInt)) else ComponentReal(fields, cfg.cols.jdn, rd.toReal);
    if jdn.IsFailure() then (jdn.PropagateFailure(), wrap)
    else
      var year := ComponentInt(fields, cfg.cols.year, rd.toInt);
      if year.IsFailure() then (year.PropagateFailure(), wrap)
      else
        var (y, w) := FixYear(cfg.yearCst, wrap, year.v, jdn.v < 273.0);
        if |cfg.timeIdx| > 0 then (JdnWithTimeString(cfg, fields, rd, y, jdn.v), w)
        else if cfg.cols.time.Some? then (JdnWithNumericTime(cfg, fields, rd, y, jdn.v), w)
        else if cfg.cols.hours.Some? then (JdnWithComponents(cfg, fields, rd, y, jdn.v), w)
        else (Value(YearAndJdn(y, jdn.v, cfg.tz)), w)
  }

  function JdnWithTimeString(cfg: DateConfig, fields: seq<string>, rd: DateReaders, year: int, jdn: real): (r: Parsed<DateValue>)
    ensures r.Value? ==> r.v.YearAndJdn? && r.v.year == year
  {
    var timeText :- CellOf(fields, cfg.cols.timeStr);
    var m := |cfg.timeIdx|;
    if m > 3 then Unparsed
    else
      var t :- Scan(timeText, cfg.timeFormat, m, rd);
      var args :- Place([0.0, 0.0, 0.0], cfg.timeIdx, t.0, 0);
      var tz := if cfg.hasTz then rd.timeZone(t.1) else cfg.tz;
      Value(YearAndJdn(year, jdn + (args[0] * 3600.0 + args[1] * 60.0 + args[2]) / (24.0 * 3600.0), tz))
  }

  /** A numerical time hhmm: the hours by truncating division by 100, the minutes the remainder. */
  function JdnWithNumericTime(cfg: DateConfig, fields: seq<string>, rd: DateReaders, year: int, jdn: real): (r: Parsed<DateValue>)
    ensures r.Value? ==> r.v.YearAndJdn? && r.v.year == year && r.v.tz == cfg.tz
  {
    var time :- ComponentInt(fields, cfg.cols.time, rd.toInt);
    var hours := TruncDiv(time, 100);
    var minutes := time - hours * 100;
    Value(YearAndJdn(year, jdn + (hours as real * 60.0 + minutes as real) / (24.0 * 60.0), cfg.tz))
  }

  function JdnWithComponents(cfg: DateConfig, fields: seq<string>, rd: DateReaders, year: int, jdn: real): (r: Parsed<DateValue>)
    ensures r.Value? ==> r.v.YearAndJdn? && r.v.year == year && r.v.tz == cfg.tz
  {
    var hours :- ComponentInt(fields, cfg.cols.hours, rd.toInt);
    var minutes :- ComponentInt(fields, cfg.cols.minutes, rd.toInt);
    var seconds :- ComponentReal(fields, cfg.cols.seconds, rd.toReal);
    Value(YearAndJdn(year, jdn + (hours as real * 3600.0 + minutes as real * 60.0 + seconds) / (24.0 * 3600.0), cfg.tz))
  }

  /** parseDate on a row: the layout flags choose the reading; the auto-wrap flag may be switched off. */
  function ParseDateOf(cfg: DateConfig, wrap: bool, fields: seq<string>, rd: DateReaders): (r: (Parsed<DateValue>, bool))
    ensures r.1 ==> wrap
    ensures !cfg.asComponents ==> r.1 == wrap
    ensures r.0.Value? && cfg.asComponents ==> (r.0.v.YearAndJdn? <==> cfg.asYearAndJdn)
    ensures r.0.Value? && !cfg.asComponents && !cfg.asDecimal ==> r.0.v.Components?
  {
    if cfg.asComponents then
      if cfg.asYearAndJdn then JdnDate(cfg, wrap, fields, rd) else ComponentsDate(cfg, wrap, fields, rd)
    else if cfg.asDecimal then (DecimalDate(cfg, fields, rd), wrap)
    else (StringDate(cfg, fields, rd), wrap)
  }

  /**
   * With date components and a fallback year but no year column, the date
   * takes yearCst - 1 exactly while the wrap stays on, and the wrap stays
   * on only for a month from October on.
   */
  lemma ComponentsFallbackYear(cfg: DateConfig, wrap: bool, fields: seq<string>, rd: DateReaders)
    requires cfg.asComponents && !cfg.asYearAndJdn && cfg.cols.year.None? && cfg.yearCst != INodata
    requires ParseDateOf(cfg, wrap, fields, rd).0.Value?
    ensures var (d, w) := ParseDateOf(cfg, wrap, fields, rd);
      w == (wrap && d.v.month >= 10) && d.v.year == (if w then cfg.yearCst - 1 else cfg.yearCst)
  {
  }

  // ---------------------------------------------------------------- column roles

  /** What parseFields derives from the column names. */
  datatype RoleState = RoleState(cols: DateColumns, skip: set<nat>, idCol: Option<nat>, components: bool, yearAndJdn: bool)

  /** The role of each cleaned column name. */
  function RolesOf(names: seq<string>): (r: seq<Role>)
    ensures |r| == |names| && forall i :: 0 <= i < |names| ==> r[i] == RoleOf(names[i])
  {
    seq(|names|, i requires 0 <= i < |names| => RoleOf(names[i]))
  }

  /** The role of the column at index ii recorded. */
  function ApplyRole(st: RoleState, ii: nat, role: Role, asDecimal: bool): (r: RoleState)
    ensures role == DataCol ==> r == st
    ensures role != DataCol ==> r.skip == st.skip + {ii}
    ensures r.components == (st.components || IsComponentRole(role))
    ensures r.yearAndJdn == (st.yearAndJdn || role == JdnCol)
    ensures r.idCol == (if role == IdCol then Some(ii) else st.idCol)
    ensures r.cols.dateStr == (if role == DateStr || (role == Timestamp && !asDecimal) then Some(ii) else st.cols.dateStr)
  {
    var c := st.cols;
    var s := st.(skip := st.skip + {ii});
    match role
    case Timestamp =>
      if asDecimal then s.(cols := c.(decimalDate := Some(ii))) else s.(cols := c.(dateStr := Some(ii), timeStr := Some(ii)))
    case DateStr => s.(cols := c.(dateStr := Some(ii)))
    case TimeStr => s.(cols := c.(timeStr := Some(ii)))
    case SkipCol => s
    case YearCol => s.(cols := c.(year := Some(ii)), components := true)
    case JdnCol => s.(cols := c.(jdn := Some(ii)), yearAndJdn := true)
    case MonthCol => s.(cols := c.(month := Some(ii)), components := true)
    case DayCol => s.(cols := c.(day := Some(ii)), components := true)
    case NTimeCol => s.(cols := c.(time := Some(ii)), components := true)
    case HoursCol => s.(cols := c.(hours := Some(ii)), components := true)
    case MinutesCol => s.(cols := c.(minutes := Some(ii)), components := true)
    case SecondsCol => s.(cols := c.(seconds := Some(ii)), components := true)
    case IdCol => s.(idCol := Some(ii))
    case DataCol => st
  }

  /** The roles of the first n columns recorded in turn. */
  function RolesUpTo(st: RoleState, roles: seq<Role>, n: nat, asDecimal: bool): (r: RoleState)
    requires n <= |roles|
  {
    if n == 0 then st else ApplyRole(RolesUpTo(st, roles, n - 1, asDecimal), n - 1, roles[n - 1], asDecimal)
  }

  /** Exactly the role-keyword columns join the skipped fields. */
  lemma {:induction false} RolesSkipped(st: RoleState, roles: seq<Role>, n: nat, asDecimal: bool)
    requires n <= |roles|
    ensures forall i :: 0 <= i < n ==> (i in RolesUpTo(st, roles, n, asDecimal).skip <==> i in st.skip || roles[i] != DataCol)
    ensures forall i :: i in RolesUpTo(st, roles, n, asDecimal).skip ==> i in st.skip || (i < n && roles[i] != DataCol)
    ensures st.skip <= RolesUpTo(st, roles, n, asDecimal).skip
  {
    if n > 0 {
      RolesSkipped(st, roles, n - 1, asDecimal);
    }
  }

  /** The last column named for a role is the one recorded: a DATE column sets the date string column. */
  lemma {:induction false} LastDateColumn(st: RoleState, roles: seq<Role>, n: nat, asDecimal: bool, i: nat)
    requires i < n <= |roles| && roles[i] == DateStr
    requires forall j :: i < j < n ==> roles[j] != DateStr && roles[j] != Timestamp
    ensures RolesUpTo(st, roles, n, asDecimal).cols.dateStr == Some(i)
  {
    if n > i + 1 {
      LastDateColumn(st, roles, n - 1, asDecimal, i);
    }
  }

  /** IOUtils::removeDuplicateWhitespaces then replaceWhitespaces with '_': each run of blanks becomes one underscore. */
  function UnderscoreBlanks(s: string): (r: string)
    ensures forall i :: 0 <= i < |r| ==> !IsSpace(r[i])
    decreases |s|
  {
    if s == [] then []
    else if IsSpace(s[0]) then ['_'] + UnderscoreBlanks(DropBlanks(s[1..]))
    else [s[0]] + UnderscoreBlanks(s[1..])
  }

  function DropBlanks(s: string): (r: string)
    ensures |r| <= |s| && (r == [] || !IsSpace(r[0]))
  {
    if s != [] && IsSpace(s[0]) then DropBlanks(s[1..]) else s
  }

  /** The cleaning parseFields applies to a column name. */
  function NormalizeName(s: string): (r: string)
    ensures forall i :: 0 <= i < |r| ==> !IsSpace(r[i])
  {
    UnderscoreBlanks(Upper(Trim(s)))
  }

  /** getStation: the coordinates, id and name, and the slope when it is flat or both angles are known. */
  datatype Station = Station(pos: Position, altitude: real, id: string, name: string, slope: Option<(real, real)>)

  // ---------------------------------------------------------------- CsvParameters

  /**
   * The loop of setUnits: each unit, upper-cased and unquoted, sets its
   * column's offset and multiplier; the unknown ones are collected.
   */
  method ClassifyUnits(units: seq<string>, removeQuotes: string -> string, offs: seq<real>, mults: seq<real>)
    returns (newOffs: seq<real>, newMults: seq<real>, unknown: seq<string>)
    requires |offs| == |units| && |mults| == |units|
    ensures |newOffs| == |units| && |newMults| == |units|
    ensures forall i :: 0 <= i < |units| ==> newOffs[i] == OffsetOf(UnitActionOf(removeQuotes(Upper(units[i]))), offs[i])
    ensures forall i :: 0 <= i < |units| ==> newMults[i] == MultiplierOf(UnitActionOf(removeQuotes(Upper(units[i]))), mults[i])
    ensures forall u :: u in unknown <==> exists i :: 0 <= i < |units| && u == removeQuotes(Upper(units[i])) && UnitActionOf(u) == Unrecognised
  {
    newOffs, newMults := offs, mults;
    unknown := [];
    var ii := 0;
    while ii < |units|
      invariant ii <= |units|
      invariant |newOffs| == |units| && |newMults| == |units|
      invariant forall i :: 0 <= i < ii ==> newOffs[i] == OffsetOf(UnitActionOf(removeQuotes(Upper(units[i]))), offs[i])
      invariant forall i :: ii <= i < |units| ==> newOffs[i] == offs[i]
      invariant forall i :: 0 <= i < ii ==> newMults[i] == MultiplierOf(UnitActionOf(removeQuotes(Upper(units[i]))), mults[i])
      invariant forall i :: ii <= i < |units| ==> newMults[i] == mults[i]
      invariant forall u :: u in unknown <==> exists i :: 0 <= i < ii && u == removeQuotes(Upper(units[i])) && UnitActionOf(u) == Unrecognised
    {
      var tmp := removeQuotes(Upper(units[ii]));
      var a := UnitActionOf(tmp);
      newOffs := newOffs[ii := OffsetOf(a, newOffs[ii])];
      newMults := newMults[ii := MultiplierOf(a, newMults[ii])];
      if a == Unrecognised {
        unknown := unknown + [tmp];
      }
      ii := ii + 1;
    }
  }

  /** The date and time spec slots of CsvParameters, which parseDate reads. */
  datatype SpecState = SpecState(datetimeIdx: seq<nat>, datetimeFormat: string, timeIdx: seq<nat>, timeFormat: string, hasTz: bool)

  /**
   * setDateTimeSpec on values: the slots appended and the raw spec kept
   * even when a misplaced TZ rejects it; otherwise the scanf format and
   * the zone flag set, and the format checked against the slot count.
   */
  function DateSpecApplied(s: SpecState, spec: string): (SpecState, Result<()>)
  {
    var idx := s.datetimeIdx + SlotOrder(spec, DateKeys);
    match TzReplaced(spec)
    case Err(_) => (s.(datetimeIdx := idx, datetimeFormat := spec), Err(InvalidFormat))
    case Ok(t) =>
      var tz := s.hasTz || t.1;
      var fmt := DateFormatOf(t.0);
      (s.(datetimeIdx := idx, datetimeFormat := fmt, hasTz := tz),
       if SpecStringValid(fmt, if tz then |idx| + 1 else |idx|) then Ok(()) else Err(InvalidFormat))
  }

  /** setTimeSpec on values: nothing for an empty spec, otherwise as setDateTimeSpec on the time slots. */
  function TimeSpecApplied(s: SpecState, spec: string): (SpecState, Result<()>)
  {
    if spec == "" then (s, Ok(()))
    else
      var idx := s.timeIdx + SlotOrder(spec, TimeKeys);
      match TzReplaced(spec)
      case Err(_) => (s.(timeIdx := idx, timeFormat := spec), Err(InvalidFormat))
      case Ok(t) =>
        var tz := s.hasTz || t.1;
        var fmt := TimeFormatOf(t.0);
        (s.(timeIdx := idx, timeFormat := fmt, hasTz := tz),
         if SpecStringValid(fmt, if tz then |idx| + 1 else |idx|) then Ok(()) else Err(InvalidFormat))
  }

  /** The default of one column holding both date and time: the ISO spec unless a spec was given. */
  function CombinedDefault(s: SpecState): (SpecState, Result<()>)
  {
    if s.datetimeIdx == [] then DateSpecApplied(s, DefaultDateTimeSpec) else (s, Ok(()))
  }

  /** The defaults of separate columns: the date default, then, unless it threw, the time default. */
  function SeparateDefaults(s: SpecState, cols: DateColumns): (SpecState, Result<()>)
  {
    var d := if cols.dateStr.Some? && s.datetimeIdx == [] then DateSpecApplied(s, "YYYY-MM-DD") else (s, Ok(()));
    if d.1.Ok? && cols.timeStr.Some? && d.0.timeIdx == [] then TimeSpecApplied(d.0, DefaultTimeSpec) else d
  }

  /** The default specs of parseFields: none for a decimal date, else by whether date and time share a column. */
  function DefaultSpecs(s: SpecState, cols: DateColumns, asDecimal: bool): (SpecState, Result<()>)
  {
    if asDecimal then (s, Ok(()))
    else if cols.dateStr == cols.timeStr then CombinedDefault(s)
    else SeparateDefaults(s, cols)
  }

  /**
   * What the defaults promise: nothing for a decimal date; a given date
   * or time spec is kept; a missing one gets the ISO default (shared
   * column), `YYYY-MM-DD` (separate date column) or the time default; only
   * a failing spec check is an error, and always InvalidFormat.
   */
  lemma DefaultSpecsSlots(s: SpecState, cols: DateColumns, asDecimal: bool)
    ensures var (t, r) := DefaultSpecs(s, cols, asDecimal);
      (r.Err? ==> r.kind == InvalidFormat) &&
      (asDecimal ==> t == s && r.Ok?) &&
      (s.datetimeIdx != [] ==> t.datetimeIdx == s.datetimeIdx && t.datetimeFormat == s.datetimeFormat) &&
      (s.timeIdx != [] ==> t.timeIdx == s.timeIdx && t.timeFormat == s.timeFormat) &&
      (!asDecimal && cols.dateStr == cols.timeStr ==> t.timeIdx == s.timeIdx && t.timeFormat == s.timeFormat) &&
      (!asDecimal && cols.dateStr == cols.timeStr && s.datetimeIdx == [] ==> t.datetimeIdx == SlotOrder(DefaultDateTimeSpec, DateKeys)) &&
      (!asDecimal && cols.dateStr != cols.timeStr && cols.dateStr.Some? && s.datetimeIdx == [] ==>
        t.datetimeIdx == SlotOrder("YYYY-MM-DD", DateKeys)) &&
      (!asDecimal && cols.dateStr != cols.timeStr && cols.timeStr.Some? && s.timeIdx == [] && r.Ok? ==>
        t.timeIdx == SlotOrder(DefaultTimeSpec, TimeKeys))
  {
    if !asDecimal {
      if cols.dateStr == cols.timeStr {
        DateSpecSlots(s, DefaultDateTimeSpec);
      } else {
        DateSpecSlots(s, "YYYY-MM-DD");
        var d := if cols.dateStr.Some? && s.datetimeIdx == [] then DateSpecApplied(s, "YYYY-MM-DD") else (s, Ok(()));
        TimeSpecSlots(d.0, DefaultTimeSpec);
      }
    }
  }

  /** setDateTimeSpec appends the spec's slots and leaves the time slots alone; it fails only with InvalidFormat. */
  lemma DateSpecSlots(s: SpecState, spec: string)
    ensures var (t, r) := DateSpecApplied(s, spec);
      t.datetimeIdx == s.datetimeIdx + SlotOrder(spec, DateKeys) && t.timeIdx == s.timeIdx && t.timeFormat == s.timeFormat &&
      (r.Err? ==> r.kind == InvalidFormat)
  {
  }

  /** setTimeSpec appends the spec's slots, if any, and leaves the date slots alone; it fails only with InvalidFormat. */
  lemma TimeSpecSlots(s: SpecState, spec: string)
    ensures var (t, r) := TimeSpecApplied(s, spec);
      t.timeIdx == s.timeIdx + SlotOrder(spec, TimeKeys) && t.datetimeIdx == s.datetimeIdx &&
      t.datetimeFormat == s.datetimeFormat && (r.Err? ==> r.kind == InvalidFormat) &&
      (spec == "" ==> t == s && r.Ok?)
  {
  }

  /**
   * The CsvParameters fields the model touches. The header parsing fills
   * `meta` (id, name, nodata marker, single parameter, altitude, slope,
   * azimuth) and `pos` (the coordinates setFile collects).
   */
  class CsvParameters {
    var csvFields: seq<string>
    var unitsOffset: seq<real>
    var unitsMultiplier: seq<real>
    var skipFields: set<nat>
    var idCol: Option<nat>
    var csvDelim: char
    var headerDelim: char
    var meta: HeaderMeta
    var pos: Position
    var datetimeIdx: seq<nat>
    var timeIdx: seq<nat>
    var datetimeFormat: string
    var timeFormat: string
    var singleParamIdx: Option<nat>
    var csvTz: real
    var hasTz: bool
    var dtAsComponents: bool
    var dtAsYearAndJdn: bool
    var dtAsDecimal: bool
    var ascOrder: bool
    var headerRepeatMk: string
    var headerLines: nat
    var filterId: string
    const dateCols: CsvDateTime

    /** The constructor's body is not part of this model's sources: empty lists, npos columns and cleared flags are assumed. */
    constructor(tz: real)
      ensures csvTz == tz && csvFields == [] && unitsOffset == [] && unitsMultiplier == [] && skipFields == {}
      ensures idCol.None? && datetimeIdx == [] && timeIdx == [] && !hasTz && ascOrder
      ensures !dtAsComponents && !dtAsYearAndJdn && !dtAsDecimal && singleParamIdx.None?
      ensures meta == HeaderMeta("", "", "", "", Nodata, Nodata, Nodata) && pos == Position(Nodata, Nodata, Nodata, Nodata)
      ensures fresh(dateCols) && dateCols.cols == NoColumns && dateCols.autoWrap && dateCols.yearCst == INodata
    {
      csvFields := [];
      unitsOffset := [];
      unitsMultiplier := [];
      skipFields := {};
      idCol := None;
      csvDelim := ',';
      headerDelim := ',';
      meta := HeaderMeta("", "", "", "", Nodata, Nodata, Nodata);
      pos := Position(Nodata, Nodata, Nodata, Nodata);
      datetimeIdx := [];
      timeIdx := [];
      datetimeFormat := "";
      timeFormat := "";
      singleParamIdx := None;
      csvTz := tz;
      hasTz := false;
      dtAsComponents := false;
      dtAsYearAndJdn := false;
      dtAsDecimal := false;
      ascOrder := true;
      headerRepeatMk := "";
      headerLines := 1;
      filterId := "";
      dateCols := new CsvDateTime();
    }

    /** The snapshot of the state parseDate reads. */
    function Config(): DateConfig
      reads this, dateCols
    {
      DateConfig(dateCols.cols, dateCols.yearCst, dateCols.decimalDateType, datetimeIdx, timeIdx,
                 datetimeFormat, timeFormat, hasTz, csvTz, dtAsComponents, dtAsYearAndJdn, dtAsDecimal)
    }

    /** The date and time spec slots. */
    function Specs(): SpecState
      reads this`datetimeIdx, this`datetimeFormat, this`timeIdx, this`timeFormat, this`hasTz
    {
      SpecState(datetimeIdx, datetimeFormat, timeIdx, timeFormat, hasTz)
    }

    /** The roles parseFields records: date columns, skipped columns, ID column and component flags. */
    function Roles(): RoleState
      reads this`skipFields, this`idCol, this`dtAsComponents, this`dtAsYearAndJdn, dateCols`cols
    {
      RoleState(dateCols.cols, skipFields, idCol, dtAsComponents, dtAsYearAndJdn)
    }

    method SetDelimiter(delim: string) returns (r: Result<char>)
      modifies this`csvDelim
      ensures r == DelimiterOf(delim)
      ensures csvDelim == (if r.Ok? then r.value else old(csvDelim))
    {
      r := DelimiterOf(delim);
      if r.Ok? {
        csvDelim := r.value;
      }
    }

    method SetHeaderDelimiter(delim: string) returns (r: Result<char>)
      modifies this`headerDelim
      ensures r == DelimiterOf(delim)
      ensures headerDelim == (if r.Ok? then r.value else old(headerDelim))
    {
      r := DelimiterOf(delim);
      if r.Ok? {
        headerDelim := r.value;
      }
    }

    /** setSkipFields: the 1-based entries are recorded 0-based until a 0, which is rejected. */
    method SetSkipFields(v: seq<nat>) returns (r: Result<()>)
      modifies this`skipFields
      ensures r.Err? <==> SkipPrefix(v) < |v|
      ensures r.Err? ==> r.kind == InvalidArgument
      ensures skipFields == old(skipFields) + SkipColumns(v, SkipPrefix(v))
    {
      var k := SkipPrefix(v);
      var ii := 0;
      while ii < |v|
        invariant ii <= k && k <= |v|
        invariant skipFields == old(skipFields) + SkipColumns(v, ii)
      {
        if v[ii] == 0 {
          return Err(InvalidArgument);
        }
        skipFields := skipFields + {(v[ii] - 1) as nat};
        ii := ii + 1;
      }
      return Ok(());
    }

    /**
     * setUnits: both lists resized to the number of units (kept entries
     * keep their value, new ones start at offset 0 and multiplier 1),
     * then each recognised unit sets its conversion; the unrecognised ones
     * are returned, as the source reports them on stderr.
     */
    method SetUnits(units: seq<string>, removeQuotes: string -> string) returns (unknown: seq<string>)
      modifies this`unitsOffset, this`unitsMultiplier
      ensures |unitsOffset| == |units| && |unitsMultiplier| == |units|
      ensures forall i :: 0 <= i < |units| ==>
        unitsOffset[i] == OffsetOf(UnitActionOf(removeQuotes(Upper(units[i]))), Resize(old(unitsOffset), |units|, 0.0)[i])
      ensures forall i :: 0 <= i < |units| ==>
        unitsMultiplier[i] == MultiplierOf(UnitActionOf(removeQuotes(Upper(units[i]))), Resize(old(unitsMultiplier), |units|, 1.0)[i])
      ensures forall u :: u in unknown <==> exists i :: 0 <= i < |units| && u == removeQuotes(Upper(units[i])) && UnitActionOf(u) == Unrecognised
    {
      var offs := Resize(unitsOffset, |units|, 0.0);
      var mults := Resize(unitsMultiplier, |units|, 1.0);
      var newOffs, newMults;
      newOffs, newMults, unknown := ClassifyUnits(units, removeQuotes, offs, mults);
      unitsOffset, unitsMultiplier := newOffs, newMults;
    }

    /**
     * setDateTimeSpec: the slots of the keys found are appended in order of
     * appearance, the format recorded, a final TZ turned into a string
     * conversion, the keys into scanf conversions, and the result checked.
     */
    method SetDateTimeSpec(spec: string) returns (r: Result<()>)
      modifies this`datetimeIdx, this`datetimeFormat, this`hasTz
      ensures (Specs(), r) == DateSpecApplied(old(Specs()), spec)
      ensures datetimeIdx == old(datetimeIdx) + SlotOrder(spec, DateKeys)
      ensures TzReplaced(spec).Err? ==> r == Err(InvalidFormat) && datetimeFormat == spec && hasTz == old(hasTz)
      ensures TzReplaced(spec).Ok? ==>
        hasTz == (old(hasTz) || TzReplaced(spec).value.1) &&
        datetimeFormat == DateFormatOf(TzReplaced(spec).value.0) &&
        (r.Ok? <==> SpecStringValid(datetimeFormat, if hasTz then |datetimeIdx| + 1 else |datetimeIdx|))
      ensures r.Err? ==> r.kind == InvalidFormat
    {
      datetimeIdx := datetimeIdx + SlotOrder(spec, DateKeys);
      datetimeFormat := spec;
      var tz := TzReplaced(spec);
      if tz.Err? {
        return Err(InvalidFormat);
      }
      if tz.value.1 {
        hasTz := true;
      }
      datetimeFormat := DateFormatOf(tz.value.0);
      var n := if hasTz then |datetimeIdx| + 1 else |datetimeIdx|;
      if !SpecStringValid(datetimeFormat, n) {
        return Err(InvalidFormat);
      }
      return Ok(());
    }

    /** setTimeSpec: the same for a separate time column, nothing for an empty spec. */
    method SetTimeSpec(spec: string) returns (r: Result<()>)
      modifies this`timeIdx, this`timeFormat, this`hasTz
      ensures (Specs(), r) == TimeSpecApplied(old(Specs()), spec)
      ensures spec == "" ==> r == Ok(()) && timeIdx == old(timeIdx) && timeFormat == old(timeFormat) && hasTz == old(hasTz)
      ensures spec != "" ==> timeIdx == old(timeIdx) + SlotOrder(spec, TimeKeys)
      ensures spec != "" && TzReplaced(spec).Err? ==> r == Err(InvalidFormat) && timeFormat == spec && hasTz == old(hasTz)
      ensures spec != "" && TzReplaced(spec).Ok? ==>
        hasTz == (old(hasTz) || TzReplaced(spec).value.1) &&
        timeFormat == TimeFormatOf(TzReplaced(spec).value.0) &&
        (r.Ok? <==> SpecStringValid(timeFormat, if hasTz then |timeIdx| + 1 else |timeIdx|))
      ensures r.Err? ==> r.kind == InvalidFormat
    {
      if spec == "" {
        return Ok(());
      }
      timeIdx := timeIdx + SlotOrder(spec, TimeKeys);
      timeFormat := spec;
      var tz := TzReplaced(spec);
      if tz.Err? {
        return Err(InvalidFormat);
      }
      if tz.value.1 {
        hasTz := true;
      }
      timeFormat := TimeFormatOf(tz.value.0);
      var n := if hasTz then |timeIdx| + 1 else |timeIdx|;
      if !SpecStringValid(timeFormat, n) {
        return Err(InvalidFormat);
      }
      return Ok(());
    }

    /** setDecimalDateType: a known kind turns the decimal layout on; anything else is rejected. */
    method SetDecimalDateType(s: string) returns (r: Result<DecimalKind>)
      modifies this`dtAsDecimal, dateCols`decimalDateType
      ensures r == DecimalKindOf(s)
      ensures r.Ok? ==> dateCols.decimalDateType == r.value && dtAsDecimal
      ensures r.Err? ==> dateCols.decimalDateType == old(dateCols.decimalDateType) && dtAsDecimal == old(dtAsDecimal)
    {
      r := DecimalKindOf(s);
      if r.Ok? {
        dateCols.decimalDateType := r.value;
        dtAsDecimal := true;
      }
    }

    method SetFixedYear(year: int, autoWrap: bool)
      modifies dateCols`yearCst, dateCols`autoWrap
      ensures dateCols.yearCst == year && dateCols.autoWrap == autoWrap
    {
      dateCols.yearCst := year;
      dateCols.autoWrap := autoWrap;
    }

    /**
     * parseSpecialHeaders for one header line already split into cells:
     * the specifications of that line in order; ID and NAME values append
     * with dashes unless the user set them.
     */
    method ParseSpecialHeaders(cells: seq<string>, linenr: nat, specs: seq<HeaderSpec>,
                               removeQuotes: string -> string, conv: MetaConversions) returns (r: Result<()>)
      modifies this`meta, this`pos
      ensures var res := SpecialHeaders(Assigned(old(meta), old(pos), "", ""), cells, linenr, specs, removeQuotes,
                                        old(meta.id) == "", old(meta.name) == "", conv);
        (r.Err? <==> res.Err?) && (r.Err? ==> r.kind == res.kind) && (res.Ok? ==> meta == res.value.m && pos == res.value.p)
      ensures r.Err? ==> meta == old(meta) && pos == old(pos)
    {
      var res := SpecialHeaders(Assigned(meta, pos, "", ""), cells, linenr, specs, removeQuotes,
                                meta.id == "", meta.name == "", conv);
      match res
      case Err(k) =>
        return Err(k);
      case Ok(st) =>
        meta := st.m;
        pos := st.p;
        return Ok(());
    }

    /** parseFileName on the file name without directory and extension. */
    method ParseFileName(filename: string, spec: string, conv: MetaConversions) returns (r: Result<()>)
      modifies this`meta, this`pos
      ensures var res := ApplyWalk(Assigned(old(meta), old(pos), "", ""), FileNameEntries(filename, spec),
                                   old(meta.id) == "", old(meta.name) == "", conv);
        (r.Err? <==> res.Err?) && (r.Err? ==> r.kind == res.kind) && (res.Ok? ==> meta == res.value.m && pos == res.value.p)
      ensures r.Err? ==> meta == old(meta) && pos == old(pos)
    {
      var res := ApplyWalk(Assigned(meta, pos, "", ""), FileNameEntries(filename, spec), meta.id == "", meta.name == "", conv);
      match res
      case Err(k) =>
        return Err(k);
      case Ok(st) =>
        meta := st.m;
        pos := st.p;
        return Ok(());
    }

    /** parseDate on a row; reading a fallback year may switch the auto-wrap off. */
    method ParseDate(fields: seq<string>, rd: DateReaders) returns (d: Parsed<DateValue>)
      modifies dateCols`autoWrap
      ensures (d, dateCols.autoWrap) == ParseDateOf(old(Config()), old(dateCols.autoWrap), fields, rd)
    {
      var res := ParseDateOf(Config(), dateCols.autoWrap, fields, rd);
      dateCols.autoWrap := res.1;
      d := res.0;
    }

    function GetStation(): (s: Station)
      reads this
      ensures s.id == meta.id && s.name == meta.name && s.pos == pos && s.altitude == meta.altitude
      ensures s.slope.Some? <==> meta.slope == 0.0 || (meta.slope != Nodata && meta.azi != Nodata)
      ensures s.slope.Some? ==> s.slope.value == (meta.slope, meta.azi)
    {
      Station(pos, meta.altitude, meta.id, meta.name,
              if meta.slope == 0.0 || (meta.slope != Nodata && meta.azi != Nodata) then Some((meta.slope, meta.azi)) else None)
    }

    /**
     * parseFields: the user's field names, or else the header's, cleaned;
     * each role keyword recorded and its column skipped; the layout
     * checked; default specs set; and a single parameter placed.
     */
    method ParseFields(headerFields: seq<string>) returns (r: Result<()>)
      modifies this`csvFields, this`skipFields, this`idCol, this`dtAsComponents, this`dtAsYearAndJdn, dateCols`cols, dateCols`maxDtCol
      modifies this`datetimeIdx, this`datetimeFormat, this`timeIdx, this`timeFormat, this`hasTz
      ensures old(csvFields) == [] && headerFields == [] ==> r == Err(InvalidArgument) && unchanged(this, dateCols)
      ensures var names := if old(csvFields) != [] then old(csvFields) else headerFields;
        var roles := RolesUpTo(old(Roles()), RolesOf(NormalizedAll(names)), |names|, dtAsDecimal);
        var recorded := LayoutComplete(roles.cols, dateCols.yearCst) && !(roles.components && meta.singleField != "");
        var d := DefaultSpecs(old(Specs()), roles.cols, dtAsDecimal);
        names != [] ==>
          Roles() == roles && dateCols.maxDtCol == MaxCol(old(dateCols.maxDtCol), ColumnList(roles.cols)) &&
          r == (if !LayoutComplete(roles.cols, dateCols.yearCst) then Err(UnknownValue)
                else if roles.components && meta.singleField != "" then Err(InvalidArgument)
                else if d.1.Err? then d.1
                else if meta.singleField != "" && old(csvFields) == [] && roles.idCol.Some? then Err(InvalidArgument)
                else Ok(())) &&
          Specs() == (if recorded then d.0 else old(Specs())) &&
          |csvFields| == |names| &&
          (forall i :: 0 <= i < |names| ==> csvFields[i] == NormalizeName(names[i]) || csvFields[i] == meta.singleField) &&
          (old(csvFields) != [] || r.Err? || meta.singleField == "" ==> csvFields == NormalizedAll(names))
      ensures r.Ok? && old(csvFields) == [] && meta.singleField != "" && singleParamIdx.Some? && singleParamIdx.value < |csvFields| ==>
        csvFields[singleParamIdx.value] == meta.singleField
    {
      var user := csvFields != [];
      if headerFields == [] && !user {
        return Err(InvalidArgument);
      }
      var names := if user then csvFields else headerFields;
      r := ParseNames(names, user);
    }

    /** parseFields once the names are known: their roles recorded, then the fields completed. */
    method ParseNames(names: seq<string>, user: bool) returns (r: Result<()>)
      modifies this`csvFields, this`skipFields, this`idCol, this`dtAsComponents, this`dtAsYearAndJdn, dateCols`cols, dateCols`maxDtCol
      modifies this`datetimeIdx, this`datetimeFormat, this`timeIdx, this`timeFormat, this`hasTz
      ensures var roles := RolesUpTo(old(Roles()), RolesOf(NormalizedAll(names)), |names|, dtAsDecimal);
        var recorded := LayoutComplete(roles.cols, dateCols.yearCst) && !(roles.components && meta.singleField != "");
        var d := DefaultSpecs(old(Specs()), roles.cols, dtAsDecimal);
        Roles() == roles && dateCols.maxDtCol == MaxCol(old(dateCols.maxDtCol), ColumnList(roles.cols)) &&
        r == (if !LayoutComplete(roles.cols, dateCols.yearCst) then Err(UnknownValue)
              else if roles.components && meta.singleField != "" then Err(InvalidArgument)
              else if d.1.Err? then d.1
              else if meta.singleField != "" && !user && roles.idCol.Some? then Err(InvalidArgument)
              else Ok(())) &&
        Specs() == (if recorded then d.0 else old(Specs()))
      ensures |csvFields| == |names|
      ensures forall i :: 0 <= i < |names| ==> csvFields[i] == NormalizeName(names[i]) || csvFields[i] == meta.singleField
      ensures user || r.Err? || meta.singleField == "" ==> csvFields == NormalizedAll(names)
      ensures r.Ok? && !user && meta.singleField != "" && singleParamIdx.Some? && singleParamIdx.value < |csvFields| ==>
        csvFields[singleParamIdx.value] == meta.singleField
    {
      ghost var specs0 := Specs();
      r := RecordFields(names);
      assert Specs() == specs0;
      if r.Err? {
        return r;
      }
      ghost var roles := Roles();
      r := CompleteFields(user);
      assert Roles() == roles;
    }

    /** The steps of parseFields after the roles: default specs, then a single parameter placed into header names. */
    method CompleteFields(user: bool) returns (r: Result<()>)
      modifies this`datetimeIdx, this`datetimeFormat, this`timeIdx, this`timeFormat, this`hasTz, this`csvFields
      ensures var d := DefaultSpecs(old(Specs()), dateCols.cols, dtAsDecimal);
        Specs() == d.0 &&
        r == (if d.1.Err? then d.1 else if meta.singleField != "" && !user && idCol.Some? then Err(InvalidArgument) else Ok(()))
      ensures |csvFields| == |old(csvFields)|
      ensures forall i :: 0 <= i < |csvFields| ==> csvFields[i] == old(csvFields)[i] || csvFields[i] == meta.singleField
      ensures user || r.Err? || meta.singleField == "" ==> csvFields == old(csvFields)
      ensures r.Ok? && !user && meta.singleField != "" && singleParamIdx.Some? && singleParamIdx.value < |csvFields| ==>
        csvFields[singleParamIdx.value] == meta.singleField
    {
      r := SetDefaultSpecs();
      if r.Err? {
        return r;
      }
      if meta.singleField != "" && !user {
        if idCol.Some? {
          return Err(InvalidArgument);
        }
        PlaceSingleField();
      }
      return Ok(());
    }

    /** The names cleaned and their roles recorded; the layout must be complete and not mix components with a single parameter. */
    method RecordFields(names: seq<string>) returns (r: Result<()>)
      modifies this`csvFields, this`skipFields, this`idCol, this`dtAsComponents, this`dtAsYearAndJdn, dateCols`cols, dateCols`maxDtCol
      ensures var roles := RolesUpTo(old(Roles()), RolesOf(NormalizedAll(names)), |names|, dtAsDecimal);
        Roles() == roles && csvFields == NormalizedAll(names) &&
        dateCols.maxDtCol == MaxCol(old(dateCols.maxDtCol), ColumnList(roles.cols)) &&
        r == (if !LayoutComplete(roles.cols, dateCols.yearCst) then Err(UnknownValue)
              else if roles.components && meta.singleField != "" then Err(InvalidArgument)
              else Ok(()))
    {
      var cleaned, st := ClassifyFields(names, Roles(), dtAsDecimal);
      SetRoles(cleaned, st);
      if !dateCols.IsSet() {
        return Err(UnknownValue);
      }
      if dtAsComponents && meta.singleField != "" {
        return Err(InvalidArgument);
      }
      return Ok(());
    }

    /** The cleaned names and their roles stored, and the right-most date or time column found again. */
    method SetRoles(cleaned: seq<string>, st: RoleState)
      modifies this`csvFields, this`skipFields, this`idCol, this`dtAsComponents, this`dtAsYearAndJdn, dateCols`cols, dateCols`maxDtCol
      ensures csvFields == cleaned && Roles() == st
      ensures dateCols.maxDtCol == MaxCol(old(dateCols.maxDtCol), ColumnList(st.cols))
    {
      csvFields := cleaned;
      dateCols.cols := st.cols;
      skipFields := st.skip;
      idCol := st.idCol;
      dtAsComponents := st.components;
      dtAsYearAndJdn := st.yearAndJdn;
      dateCols.UpdateMaxCol();
    }

    /** The parseFields loop: each name cleaned, then its role recorded. */
    static method ClassifyFields(names: seq<string>, st0: RoleState, asDecimal: bool) returns (cleaned: seq<string>, st: RoleState)
      ensures cleaned == NormalizedAll(names)
      ensures st == RolesUpTo(st0, RolesOf(cleaned), |names|, asDecimal)
    {
      st := st0;
      cleaned := [];
      var ii := 0;
      while ii < |names|
        invariant ii <= |names|
        invariant cleaned == NormalizedAll(names[..ii])
        invariant st == RolesUpTo(st0, RolesOf(NormalizedAll(names)), ii, asDecimal)
      {
        NormalizedAllPrefix(names, ii);
        var tmp := NormalizeName(names[ii]);
        cleaned := cleaned + [tmp];
        st := ApplyRole(st, ii, RoleOf(tmp), asDecimal);
        ii := ii + 1;
      }
      assert names[..ii] == names;
    }

    /**
     * The default specs of parseFields: unless the date is decimal, one
     * column for both gets the combined default when no spec was given,
     * and separate columns get the date and the time defaults.
     */
    method SetDefaultSpecs() returns (r: Result<()>)
      modifies this`datetimeIdx, this`datetimeFormat, this`timeIdx, this`timeFormat, this`hasTz
      ensures (Specs(), r) == DefaultSpecs(old(Specs()), dateCols.cols, dtAsDecimal)
    {
      r := Ok(());
      if dtAsDecimal {
        return;
      }
      var c := dateCols.cols;
      if c.dateStr == c.timeStr {
        r := SetCombinedDefault();
      } else {
        r := SetSeparateDefaults();
      }
    }

    /** The default spec of parseFields for one column holding both date and time. */
    method SetCombinedDefault() returns (r: Result<()>)
      modifies this`datetimeIdx, this`datetimeFormat, this`hasTz
      ensures (Specs(), r) == CombinedDefault(old(Specs()))
    {
      r := Ok(());
      if datetimeIdx == [] {
        r := SetDateTimeSpec(DefaultDateTimeSpec);
      }
    }

    /** The default specs of setFile for a date column apart from the time column. */
    method SetSeparateDefaults() returns (r: Result<()>)
      modifies this`datetimeIdx, this`datetimeFormat, this`timeIdx, this`timeFormat, this`hasTz
      ensures (Specs(), r) == SeparateDefaults(old(Specs()), dateCols.cols)
    {
      r := Ok(());
      var c := dateCols.cols;
      if c.dateStr.Some? && datetimeIdx == [] {
        r := SetDateTimeSpec("YYYY-MM-DD");
        if r.Err? {
          return;
        }
      }
      if c.timeStr.Some? && timeIdx == [] {
        r := SetTimeSpec(DefaultTimeSpec);
      }
    }

    /**
     * The single parameter of the header or file name replaces the column
     * the user indexed, or else the only column that is neither date nor
     * time.
     */
    method PlaceSingleField()
      modifies this`csvFields
      ensures |csvFields| == |old(csvFields)|
      ensures forall i :: 0 <= i < |csvFields| ==> csvFields[i] == old(csvFields)[i] || csvFields[i] == meta.singleField
      ensures singleParamIdx.Some? && singleParamIdx.value < |csvFields| ==> csvFields[singleParamIdx.value] == meta.singleField
    {
      var c := dateCols.cols;
      if singleParamIdx.Some? && singleParamIdx.value < |csvFields| {
        csvFields := csvFields[singleParamIdx.value := meta.singleField];
      } else if c.dateStr == c.timeStr && |csvFields| == 2 {
        var pidx := if c.dateStr == Some(0) then 1 else 0;
        csvFields := csvFields[pidx := meta.singleField];
      } else if c.dateStr != c.timeStr && |csvFields| == 3 {
        var pidx := if Some(0) != c.dateStr && Some(0) != c.timeStr then 0
                    else if Some(1) != c.dateStr && Some(1) != c.timeStr then 1 else 2;
        csvFields := csvFields[pidx := meta.singleField];
      }
    }
  }

  /** The cleaned names, in order. */
  function NormalizedAll(names: seq<string>): (r: seq<string>)
    ensures |r| == |names| && forall i :: 0 <= i < |names| ==> r[i] == NormalizeName(names[i])
  {
    seq(|names|, i requires 0 <= i < |names| => NormalizeName(names[i]))
  }

  lemma NormalizedAllPrefix(names: seq<string>, ii: nat)
    requires ii < |names|
    ensures NormalizedAll(names[..ii + 1]) == NormalizedAll(names[..ii]) + [NormalizeName(names[ii])]
    ensures NormalizedAll(names)[ii] == NormalizeName(names[ii])
  {
  }
}
