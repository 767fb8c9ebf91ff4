/**
 * CsvIO::readCSVFile: the data lines of one CSV file read into MeteoData
 * records, within a date window, with unit conversions applied. The file
 * is given as its lines after the header; the per-line cleaning, the
 * splitting into cells, the number conversion and the date arithmetic are
 * parameters.
 */
module CsvRead {
  import opened Common
  import opened CsvSpecs
  import opened CsvParams

  /** One MeteoData record: its date and the value of each parameter. */
  datatype Record = Record(date: DateValue, values: map<string, real>)

  /** What readCSVFile takes from CsvParameters and from the plugin's options. */
  datatype ReadConfig = ReadConfig(
    fields: seq<string>, skip: set<nat>, mult: seq<real>, offs: seq<real>,
    idCol: Option<nat>, filterId: string, headerRepeatMk: string, headerLines: nat,
    nodataMk: string, asc: bool, silent: bool, errorsToNodata: bool, start: real, end: real)

  /** The calls into IOUtils and Date that the reading makes. */
  datatype ReadHooks = ReadHooks(
    clean: string -> string,        // stripComments and, when configured, removeQuotes
    split: string -> seq<string>,   // readLineToVec on the delimiter, or on whitespace
    toReal: string -> Option<real>, // IOUtils::convertString to a double
    stamp: DateValue -> real,       // the date as a Julian date, for the comparisons with the window
    dates: DateReaders)

  /** How one cell is read. */
  datatype Cell = Missing | NanCell | Number(v: real) | Unreadable

  /** Empty cells and the nodata marker (bare, double- or single-quoted) are left unset; NAN and NULL set nodata. */
  function ClassifyCell(s: string, mk: string, toReal: string -> Option<real>): (c: Cell)
    ensures c.Missing? <==> s == "" || s == mk || s == "\"" + mk + "\"" || s == "'" + mk + "'"
    ensures c.NanCell? <==> !c.Missing? && (s == "NAN" || s == "NULL")
    ensures c.Number? <==> !c.Missing? && !c.NanCell? && toReal(s).Some?
    ensures c.Number? ==> c.v == toReal(s).value
  {
    if s == "" || s == mk || s == "\"" + mk + "\"" || s == "'" + mk + "'" then Missing
    else if s == "NAN" || s == "NULL" then NanCell
    else match toReal(s) { case None => Unreadable case Some(v) => Number(v) }
  }

  /** The multiplier, then the offset, each applied only to a value that is not nodata. */
  function Scaled(tmp: real, useMult: bool, m: real, useOff: bool, o: real): (r: real)
    ensures tmp == Nodata ==> r == Nodata
    ensures !useMult && !useOff ==> r == tmp
    ensures useMult && useOff && tmp != Nodata && tmp * m != Nodata ==> r == tmp * m + o
  {
    var t1 := if useMult && tmp != Nodata then tmp * m else tmp;
    if useOff && t1 != Nodata then t1 + o else t1
  }

  /** createTemplate: every field that is not skipped, at nodata. */
  function Template(fields: seq<string>, skip: set<nat>, n: nat): (t: map<string, real>)
    requires n <= |fields|
    ensures forall i :: 0 <= i < n && i !in skip ==> fields[i] in t && t[fields[i]] == Nodata
    ensures forall f :: f in t ==> t[f] == Nodata && exists i :: 0 <= i < n && i !in skip && fields[i] == f
  {
    if n == 0 then map[]
    else
      var t := Template(fields, skip, n - 1);
      if n - 1 in skip then t else t[fields[n - 1] := Nodata]
  }

  /** The parameters of the records: the template's keys. */
  function Parameters(rc: ReadConfig): set<string>
  {
    Template(rc.fields, rc.skip, |rc.fields|).Keys
  }

  /**
   * The cell loop from cell ii: the record so far and whether every cell
   * read; an unreadable cell is dropped with the record in silent mode,
   * set to nodata with errors_to_nodata, and an error otherwise. A record
   * only ever holds the template's parameters, and in silent or
   * errors_to_nodata mode only undefined behaviour fails.
   */
  function FillFrom(rc: ReadConfig, toReal: string -> Option<real>, cells: seq<string>,
                    m: map<string, real>, ok: bool, ii: nat): (r: Result<Option<map<string, real>>>)
    ensures m.Keys == Parameters(rc) && r.Ok? && r.value.Some? ==> r.value.value.Keys == Parameters(rc)
    ensures (rc.silent || rc.errorsToNodata) && r.Err? ==> r.kind == Undefined
    ensures r.Ok? && r.value.None? ==> rc.silent || !ok
    decreases |cells| - ii, 1
  {
    if ii >= |cells| then Ok(if ok then Some(m) else None)
    else if ii in rc.skip then FillFrom(rc, toReal, cells, m, ok, ii + 1)
    else match ClassifyCell(cells[ii], rc.nodataMk, toReal)
      case Missing => FillFrom(rc, toReal, cells, m, ok, ii + 1)
      case NanCell =>
        if ii >= |rc.fields| then Err(Undefined)
        else
          assert rc.fields[ii] in Template(rc.fields, rc.skip, |rc.fields|);
          FillFrom(rc, toReal, cells, m[rc.fields[ii] := Nodata], ok, ii + 1)
      case Unreadable =>
        if rc.silent then FillFrom(rc, toReal, cells, m, false, ii + 1)
        else if rc.errorsToNodata then AssignCell(rc, toReal, cells, m, ok, ii, Nodata)
        else Err(InvalidFormat)
      case Number(v) => AssignCell(rc, toReal, cells, m, ok, ii, v)
  }

  /** A value converted and stored under the column's field name. */
  function AssignCell(rc: ReadConfig, toReal: string -> Option<real>, cells: seq<string>,
                      m: map<string, real>, ok: bool, ii: nat, tmp: real): (r: Result<Option<map<string, real>>>)
    requires ii < |cells| && ii !in rc.skip
    ensures m.Keys == Parameters(rc) && r.Ok? && r.value.Some? ==> r.value.value.Keys == Parameters(rc)
    ensures (rc.silent || rc.errorsToNodata) && r.Err? ==> r.kind == Undefined
    ensures r.Ok? && r.value.None? ==> rc.silent || !ok
    decreases |cells| - ii, 0
  {
    var useMult := |rc.mult| > 0;
    var useOff := |rc.offs| > 0;
    if ii >= |rc.fields| || (useMult && ii >= |rc.mult|) || (useOff && ii >= |rc.offs|) then Err(Undefined)
    else
      var v := Scaled(tmp, useMult, if useMult then rc.mult[ii] else 1.0, useOff, if useOff then rc.offs[ii] else 0.0);
      assert rc.fields[ii] in Template(rc.fields, rc.skip, |rc.fields|);
      FillFrom(rc, toReal, cells, m[rc.fields[ii] := v], ok, ii + 1)
  }

  /** The cell loop of readCSVFile, proved against FillFrom. */
  method FillRecord(rc: ReadConfig, toReal: string -> Option<real>, cells: seq<string>) returns (r: Result<Option<map<string, real>>>)
    ensures r == FillFrom(rc, toReal, cells, Template(rc.fields, rc.skip, |rc.fields|), true, 0)
  {
    ghost var spec := FillFrom(rc, toReal, cells, Template(rc.fields, rc.skip, |rc.fields|), true, 0);
    var md := Template(rc.fields, rc.skip, |rc.fields|);
    var noErrors := true;
    var ii := 0;
    while ii < |cells|
      invariant ii <= |cells|
      invariant spec == FillFrom(rc, toReal, cells, md, noErrors, ii)
    {
      var stop;
      stop, md, noErrors := FillCell(rc, toReal, cells, md, noErrors, ii);
      if stop.Some? {
        return stop.value;
      }
      ii := ii + 1;
    }
    return Ok(if noErrors then Some(md) else None);
  }

  /**
   * The body of the cell loop for cell ii: either the read of the record
   * ends here with its result, or the loop goes on to the next cell with
   * the record and the flag updated.
   */
  method FillCell(rc: ReadConfig, toReal: string -> Option<real>, cells: seq<string>,
                  md: map<string, real>, noErrors: bool, ii: nat)
    returns (stop: Option<Result<Option<map<string, real>>>>, md': map<string, real>, noErrors': bool)
    requires ii < |cells|
    ensures stop.Some? ==> stop.value == FillFrom(rc, toReal, cells, md, noErrors, ii)
    ensures stop.None? ==> FillFrom(rc, toReal, cells, md', noErrors', ii + 1) == FillFrom(rc, toReal, cells, md, noErrors, ii)
  {
    stop, md', noErrors' := None, md, noErrors;
    if ii in rc.skip {
      return;
    }
    var c := ClassifyCell(cells[ii], rc.nodataMk, toReal);
    if c.Missing? {
      return;
    }
    if c.NanCell? {
      if ii >= |rc.fields| {
        return Some(Err(Undefined)), md, noErrors;
      }
      md' := md[rc.fields[ii] := Nodata];
      return;
    }
    var tmp: real;
    if c.Unreadable? {
      if rc.silent {
        noErrors' := false;
        return;
      } else if rc.errorsToNodata {
        tmp := Nodata;
      } else {
        return Some(Err(InvalidFormat)), md, noErrors;
      }
    } else {
      tmp := c.v;
    }
    var useMult := |rc.mult| > 0;
    var useOff := |rc.offs| > 0;
    if ii >= |rc.fields| || (useMult && ii >= |rc.mult|) || (useOff && ii >= |rc.offs|) {
      return Some(Err(Undefined)), md, noErrors;
    }
    ghost var v := Scaled(tmp, useMult, if useMult then rc.mult[ii] else 1.0, useOff, if useOff then rc.offs[ii] else 0.0);
    if useMult && tmp != Nodata {
      tmp := tmp * rc.mult[ii];
    }
    if useOff && tmp != Nodata {
      tmp := tmp + rc.offs[ii];
    }
    assert tmp == v;
    md' := md[rc.fields[ii] := tmp];
  }

  /** What one data line does to the read. */
  datatype StepKind = Continue(rec: Option<Record>) | Stop | Fail(err: ErrorKind)

  /** The effect of a line, how many lines it consumes, and the auto-wrap flag and cell count after it. */
  datatype Step = Step(kind: StepKind, advance: nat, wrap: bool, n: nat)

  predicate InWindow(rc: ReadConfig, hooks: ReadHooks, r: Record)
  {
    rc.start <= hooks.stamp(r.date) <= rc.end
  }

  /**
   * One line of readCSVFile, with the expected number of cells `n` (0
   * until the first data line sets it). An empty line is ignored; a line
   * holding the header-repeat marker also skips the header lines after
   * it; a line of another station is skipped; in ascending order a date
   * before the window is skipped and one after it ends the read, and the
   * reverse in descending order.
   */
  function LineStep(rc: ReadConfig, dc: DateConfig, hooks: ReadHooks, raw: string, wrap: bool, n: nat): (s: Step)
    ensures s.advance >= 1 && (s.wrap ==> wrap)
    ensures s.kind.Continue? && s.kind.rec.Some? ==>
      InWindow(rc, hooks, s.kind.rec.value) && s.kind.rec.value.values.Keys == Parameters(rc)
    ensures s.kind.Fail? && rc.silent && rc.idCol.None? ==> s.kind.err == Undefined
  {
    var line := Trim(hooks.clean(raw));
    if line == "" then Step(Continue(None), 1, wrap, n)
    else if rc.headerRepeatMk != "" && Find(line, rc.headerRepeatMk, 0).Some? then Step(Continue(None), 1 + rc.headerLines, wrap, n)
    else CellsStep(rc, dc, hooks, hooks.split(line), wrap, n)
  }

  /** A data line split into cells: the station filter, the cell count, then the date. */
  function CellsStep(rc: ReadConfig, dc: DateConfig, hooks: ReadHooks, cells: seq<string>, wrap: bool, n: nat): (s: Step)
    ensures s.advance == 1 && (s.wrap ==> wrap)
    ensures s.kind.Continue? && s.kind.rec.Some? ==>
      InWindow(rc, hooks, s.kind.rec.value) && s.kind.rec.value.values.Keys == Parameters(rc)
    ensures s.kind.Fail? && rc.silent && rc.idCol.None? ==> s.kind.err == Undefined
  {
    var n1 := if n == 0 then |cells| else n;
    if rc.idCol.Some? && |cells| <= rc.idCol.value then Step(Fail(InvalidFormat), 1, wrap, n1)
    else if rc.idCol.Some? && cells[rc.idCol.value] != rc.filterId then Step(Continue(None), 1, wrap, n1)
    else if |cells| != n1 then
      if rc.silent then Step(Continue(None), 1, wrap, n1) else Step(Fail(InvalidFormat), 1, wrap, n1)
    else
      var (d, w) := ParseDateOf(dc, wrap, cells, hooks.dates);
      match d
      case Broken => Step(Fail(Undefined), 1, w, n1)
      case Unparsed => if rc.silent then Step(Continue(None), 1, w, n1) else Step(Fail(InvalidFormat), 1, w, n1)
      case Value(dt) => Step(DatedStep(rc, hooks, cells, dt), 1, w, n1)
  }

  /**
   * A dated line: in ascending order a date before the window is skipped
   * and one after it ends the read, in descending order the reverse;
   * inside the window the cells make the record.
   */
  function DatedStep(rc: ReadConfig, hooks: ReadHooks, cells: seq<string>, dt: DateValue): (k: StepKind)
    ensures k.Continue? && k.rec.Some? ==> k.rec.value.date == dt && InWindow(rc, hooks, k.rec.value) && k.rec.value.values.Keys == Parameters(rc)
    ensures k.Fail? && rc.silent ==> k.err == Undefined
  {
    var t := hooks.stamp(dt);
    if rc.asc && t < rc.start then Continue(None)
    else if rc.asc && t > rc.end then Stop
    else if !rc.asc && t < rc.start then Stop
    else if !rc.asc && t > rc.end then Continue(None)
    else
      match FillFrom(rc, hooks.toReal, cells, Template(rc.fields, rc.skip, |rc.fields|), true, 0)
      case Err(k) => Fail(k)
      case Ok(None) => Continue(None)
      case Ok(Some(m)) => Continue(Some(Record(dt, m)))
  }

  /** The outcome of reading: the records or an error, and the auto-wrap flag the date parsing left. */
  datatype Outcome = Outcome(result: Result<seq<Record>>, wrap: bool)

  /** The line loop from line i, with the records read so far in `acc`. */
  function ReadFrom(rc: ReadConfig, dc: DateConfig, hooks: ReadHooks, lines: seq<string>,
                    i: nat, wrap: bool, n: nat, acc: seq<Record>): (o: Outcome)
    decreases |lines| - i
  {
    if i >= |lines| then Outcome(Ok(acc), wrap)
    else
      var s := LineStep(rc, dc, hooks, lines[i], wrap, n);
      match s.kind
      case Fail(k) => Outcome(Err(k), s.wrap)
      case Stop => Outcome(Ok(acc), s.wrap)
      case Continue(rec) =>
        ReadFrom(rc, dc, hooks, lines, i + s.advance, s.wrap, s.n, if rec.Some? then acc + [rec.value] else acc)
  }

  /** Every record lies within the requested window and holds exactly the template's parameters. */
  predicate AllInWindow(rc: ReadConfig, hooks: ReadHooks, recs: seq<Record>)
  {
    forall k :: 0 <= k < |recs| ==> InWindow(rc, hooks, recs[k]) && recs[k].values.Keys == Parameters(rc)
  }

  /**
   * Every record read lies within the requested window and holds exactly
   * the template's parameters, and the records read before are kept, in
   * order, ahead of the new ones.
   */
  lemma {:induction false} ReadRecords(rc: ReadConfig, dc: DateConfig, hooks: ReadHooks, lines: seq<string>,
                                       i: nat, wrap: bool, n: nat, acc: seq<Record>)
    requires AllInWindow(rc, hooks, acc)
    ensures var o := ReadFrom(rc, dc, hooks, lines, i, wrap, n, acc);
      o.result.Ok? ==> |acc| <= |o.result.value| && o.result.value[..|acc|] == acc && AllInWindow(rc, hooks, o.result.value)
    decreases |lines| - i
  {
    if i < |lines| {
      var s := LineStep(rc, dc, hooks, lines[i], wrap, n);
      ReadFromStep(rc, dc, hooks, lines, i, wrap, n, acc, s);
      if s.kind.Continue? {
        var acc1 := if s.kind.rec.Some? then acc + [s.kind.rec.value] else acc;
        assert AllInWindow(rc, hooks, acc1) by {
          assert forall k :: 0 <= k < |acc| ==> acc1[k] == acc[k];
        }
        ReadRecords(rc, dc, hooks, lines, i + s.advance, s.wrap, s.n, acc1);
        var o := ReadFrom(rc, dc, hooks, lines, i + s.advance, s.wrap, s.n, acc1);
        if o.result.Ok? {
          assert o.result.value[..|acc|] == o.result.value[..|acc1|][..|acc|];
        }
      }
    }
  }

  /** With silent errors and no station ID column, only undefined behaviour stops a read. */
  lemma {:induction false} SilentReadErrors(rc: ReadConfig, dc: DateConfig, hooks: ReadHooks, lines: seq<string>,
                                            i: nat, wrap: bool, n: nat, acc: seq<Record>)
    requires rc.silent && rc.idCol.None?
    ensures var o := ReadFrom(rc, dc, hooks, lines, i, wrap, n, acc);
      o.result.Err? ==> o.result.kind == Undefined
    decreases |lines| - i
  {
    if i < |lines| {
      var s := LineStep(rc, dc, hooks, lines[i], wrap, n);
      ReadFromStep(rc, dc, hooks, lines, i, wrap, n, acc, s);
      if s.kind.Continue? {
        SilentReadErrors(rc, dc, hooks, lines, i + s.advance, s.wrap, s.n, if s.kind.rec.Some? then acc + [s.kind.rec.value] else acc);
      }
    }
  }

  /** Reading never turns the auto-wrap back on. */
  lemma {:induction false} ReadWrapMonotone(rc: ReadConfig, dc: DateConfig, hooks: ReadHooks, lines: seq<string>,
                                            i: nat, wrap: bool, n: nat, acc: seq<Record>)
    ensures ReadFrom(rc, dc, hooks, lines, i, wrap, n, acc).wrap ==> wrap
    decreases |lines| - i
  {
    if i < |lines| {
      var s := LineStep(rc, dc, hooks, lines[i], wrap, n);
      if s.kind.Continue? {
        ReadWrapMonotone(rc, dc, hooks, lines, i + s.advance, s.wrap, s.n, if s.kind.rec.Some? then acc + [s.kind.rec.value] else acc);
      }
    }
  }

  /** ReadFrom after one line whose step is known. */
  lemma ReadFromStep(rc: ReadConfig, dc: DateConfig, hooks: ReadHooks, lines: seq<string>,
                     i: nat, wrap: bool, n: nat, acc: seq<Record>, s: Step)
    requires i < |lines| && s == LineStep(rc, dc, hooks, lines[i], wrap, n)
    ensures s.kind.Fail? ==> ReadFrom(rc, dc, hooks, lines, i, wrap, n, acc) == Outcome(Err(s.kind.err), s.wrap)
    ensures s.kind.Stop? ==> ReadFrom(rc, dc, hooks, lines, i, wrap, n, acc) == Outcome(Ok(acc), s.wrap)
    ensures s.kind.Continue? ==>
      ReadFrom(rc, dc, hooks, lines, i, wrap, n, acc) == ReadFrom(rc, dc, hooks, lines, i + s.advance, s.wrap, s.n, if s.kind.rec.Some? then acc + [s.kind.rec.value] else acc)
  {
  }

  function Reverse<T>(s: seq<T>): (r: seq<T>)
    ensures |r| == |s| && forall k :: 0 <= k < |s| ==> r[k] == s[|s| - 1 - k]
  {
    if s == [] then [] else Reverse(s[1..]) + [s[0]]
  }

  /** The units lists must be empty or match the number of fields. */
  predicate UnitsMatch(rc: ReadConfig)
  {
    (|rc.offs| == 0 || |rc.offs| == |rc.fields|) && (|rc.mult| == 0 || |rc.mult| == |rc.fields|)
  }

  /** The read settings of a file's parameters; an empty ID filter means the station's own ID. */
  function ConfigOf(params: CsvParameters, silent: bool, errorsToNodata: bool, start: real, end: real): (rc: ReadConfig)
    reads params
    ensures rc.filterId == (if params.filterId == "" then params.meta.id else params.filterId)
    ensures rc.fields == params.csvFields && rc.skip == params.skipFields && rc.asc == params.ascOrder
  {
    ReadConfig(params.csvFields, params.skipFields, params.unitsMultiplier, params.unitsOffset,
               params.idCol, if params.filterId == "" then params.meta.id else params.filterId,
               params.headerRepeatMk, params.headerLines, params.meta.nodata, params.ascOrder,
               silent, errorsToNodata, start, end)
  }

  /** One line of the read loop, proved against LineStep. */
  method ReadLine(params: CsvParameters, rc: ReadConfig, hooks: ReadHooks, raw: string, n: nat) returns (s: Step)
    modifies params.dateCols
    ensures s == LineStep(rc, old(params.Config()), hooks, raw, old(params.dateCols.autoWrap), n)
    ensures params.dateCols.autoWrap == s.wrap && params.Config() == old(params.Config())
    ensures params.dateCols.cols == old(params.dateCols.cols) && params.dateCols.yearCst == old(params.dateCols.yearCst)
    ensures params.dateCols.decimalDateType == old(params.dateCols.decimalDateType)
  {
    var line := Trim(hooks.clean(raw));
    if line == "" {
      return Step(Continue(None), 1, params.dateCols.autoWrap, n);
    }
    if rc.headerRepeatMk != "" && Find(line, rc.headerRepeatMk, 0).Some? {
      return Step(Continue(None), 1 + rc.headerLines, params.dateCols.autoWrap, n);
    }
    s := ReadCells(params, rc, hooks, hooks.split(line), n);
  }

  method ReadCells(params: CsvParameters, rc: ReadConfig, hooks: ReadHooks, cells: seq<string>, n: nat) returns (s: Step)
    modifies params.dateCols
    ensures s == CellsStep(rc, old(params.Config()), hooks, cells, old(params.dateCols.autoWrap), n)
    ensures params.dateCols.autoWrap == s.wrap
    ensures params.dateCols.cols == old(params.dateCols.cols) && params.dateCols.yearCst == old(params.dateCols.yearCst)
    ensures params.dateCols.decimalDateType == old(params.dateCols.decimalDateType)
  {
    var wrap := params.dateCols.autoWrap;
    var n1 := n;
    if n1 == 0 {
      n1 := |cells|;
    }
    if rc.idCol.Some? {
      if |cells| <= rc.idCol.value {
        return Step(Fail(InvalidFormat), 1, wrap, n1);
      }
      if cells[rc.idCol.value] != rc.filterId {
        return Step(Continue(None), 1, wrap, n1);
      }
    }
    if |cells| != n1 {
      if rc.silent {
        return Step(Continue(None), 1, wrap, n1);
      }
      return Step(Fail(InvalidFormat), 1, wrap, n1);
    }
    var d := params.ParseDate(cells, hooks.dates);
    var w := params.dateCols.autoWrap;
    if d.Broken? {
      return Step(Fail(Undefined), 1, w, n1);
    }
    if d.Unparsed? {
      if rc.silent {
        return Step(Continue(None), 1, w, n1);
      }
      return Step(Fail(InvalidFormat), 1, w, n1);
    }
    var k := ReadDated(rc, hooks, cells, d.v);
    return Step(k, 1, w, n1);
  }

  method ReadDated(rc: ReadConfig, hooks: ReadHooks, cells: seq<string>, dt: DateValue) returns (k: StepKind)
    ensures k == DatedStep(rc, hooks, cells, dt)
  {
    var t := hooks.stamp(dt);
    if rc.asc {
      if t < rc.start {
        return Continue(None);
      }
      if t > rc.end {
        return Stop;
      }
    } else {
      if t < rc.start {
        return Stop;
      }
      if t > rc.end {
        return Continue(None);
      }
    }
    var rec := FillRecord(rc, hooks.toReal, cells);
    if rec.Err? {
      return Fail(rec.kind);
    }
    if rec.value.None? {
      return Continue(None);
    }
    return Continue(Some(Record(dt, rec.value.value)));
  }

  /**
   * readCSVFile on the lines after the header: the records of the window
   * in line order, reversed for a file in descending order.
   */
  method ReadCsvFile(params: CsvParameters, lines: seq<string>, hooks: ReadHooks,
                     silent: bool, errorsToNodata: bool, start: real, end: real) returns (r: Result<seq<Record>>)
    modifies params.dateCols
    ensures var rc := ConfigOf(params, silent, errorsToNodata, start, end);
      var o := ReadFrom(rc, old(params.Config()), hooks, lines, 0, old(params.dateCols.autoWrap), |rc.fields|, []);
      if !UnitsMatch(rc) then r == Err(InvalidFormat)
      else (params.dateCols.autoWrap == o.wrap &&
            r == (if o.result.Ok? && !rc.asc then Ok(Reverse(o.result.value)) else o.result))
  {
    var rc := ConfigOf(params, silent, errorsToNodata, start, end);
    if !UnitsMatch(rc) {
      return Err(InvalidFormat);
    }
    r := ReadLines(params, rc, hooks, lines);
    if r.Ok? && !rc.asc {
      r := Ok(Reverse(r.value));
    }
  }

  /** One iteration of the line loop: the outcome from line `i` in terms of the outcome after it. */
  method ReadNext(params: CsvParameters, rc: ReadConfig, hooks: ReadHooks, lines: seq<string>, i: nat, n: nat,
                  ghost acc: seq<Record>) returns (s: Step)
    requires i < |lines|
    modifies params.dateCols
    ensures params.dateCols.autoWrap == s.wrap && params.Config() == old(params.Config())
    ensures var o := ReadFrom(rc, old(params.Config()), hooks, lines, i, old(params.dateCols.autoWrap), n, acc);
      (s.kind.Fail? ==> o == Outcome(Err(s.kind.err), s.wrap)) &&
      (s.kind.Stop? ==> o == Outcome(Ok(acc), s.wrap)) &&
      (s.kind.Continue? ==>
         o == ReadFrom(rc, old(params.Config()), hooks, lines, i + s.advance, s.wrap, s.n,
                       if s.kind.rec.Some? then acc + [s.kind.rec.value] else acc))
    ensures s.advance >= 1
  {
    ghost var dc := params.Config();
    ghost var wrap := params.dateCols.autoWrap;
    s := ReadLine(params, rc, hooks, lines[i], n);
    ReadFromStep(rc, dc, hooks, lines, i, wrap, n, acc, s);
  }

  /** The line loop of readCSVFile, proved against ReadFrom. */
  method ReadLines(params: CsvParameters, rc: ReadConfig, hooks: ReadHooks, lines: seq<string>) returns (r: Result<seq<Record>>)
    modifies params.dateCols
    ensures var o := ReadFrom(rc, old(params.Config()), hooks, lines, 0, old(params.dateCols.autoWrap), |rc.fields|, []);
      params.dateCols.autoWrap == o.wrap && r == o.result
  {
    ghost var dc := params.Config();
    ghost var spec := ReadFrom(rc, dc, hooks, lines, 0, params.dateCols.autoWrap, |rc.fields|, []);
    var acc: seq<Record> := [];
    var n: nat := |rc.fields|;
    var i: nat := 0;
    while i < |lines|
      invariant params.Config() == dc
      invariant spec == ReadFrom(rc, dc, hooks, lines, i, params.dateCols.autoWrap, n, acc)
      decreases |lines| - i
    {
      var s := ReadNext(params, rc, hooks, lines, i, n, acc);
      if s.kind.Fail? {
        return Err(s.kind.err);
      }
      if s.kind.Stop? {
        break;
      }
      acc := if s.kind.rec.Some? then acc + [s.kind.rec.value] else acc;
      i, n := i + s.advance, s.n;
    }
    return Ok(acc);
  }
}
