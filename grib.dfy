/**
 * GRIBTable and the bookkeeping side of GRIBFile: the parameter table that
 * maps MeteoIO parameter names to GRIB parameter IDs and levels (the
 * built-in default, or one read from a ':'-separated table file), and the
 * validity checks a GRIB file's messages must pass. The messages are given
 * as the values ecCodes would report for them; the file and ecCodes
 * themselves are not part of this model.
 */
module Grib {
  import opened Common
  import Codes

  /** GRIBTable::PARAM_TYPE: the type in which parameter IDs are given. */
  datatype ParamType = Double | Str | Long

  /** static_cast<long>(IOUtils::npos) and static_cast<double>(IOUtils::npos) for a 64-bit size_t. */
  const NposLong: int := -1
  const NposReal: real := 18446744073709551616.0

  /** The NOPARAMID marker of the default table. */
  const NoParamId: int := -1

  /** GRIB_DEFAULT_PARAM_TABLE: the default parameter IDs (all LONG). */
  const DefaultParamTable: map<string, int> := map[
    "DEM" := 129, "P" := 134, "TA" := 167, "TSS" := 228, "TSG" := 235, "RH" := 157, "PSUM" := 228,
    "HS" := 3066, "RSNO" := 33, "SWE" := 141, "ISWR" := 169, "ILWR" := 175, "VW_MAX" := 201187, "DW" := 3031,
    "VW" := 10, "TAU_CLD" := 164, "ROT" := 205, "ALB" := 243, "SLOP" := 163, "AZI" := 162, "W" := 135,
    "V" := 166, "U" := 165, "TD" := 3017, "RSWR" := NoParamId, "PSUM_PH" := NoParamId]

  /** GRIB_DEFAULT_LEVELTYPE_TABLE. */
  const DefaultLevelTypeTable: map<string, string> := map[
    "DEM" := "surface", "P" := "surface", "TA" := "surface", "TSS" := "surface", "TSG" := "surface",
    "RH" := "heightAboveGround", "PSUM" := "surface", "HS" := "surface", "RSNO" := "surface",
    "SWE" := "surface", "ISWR" := "surface", "ILWR" := "surface", "VW_MAX" := "heightAboveGround",
    "DW" := "heightAboveGround", "VW" := "heightAboveGround", "TAU_CLD" := "surface", "ROT" := "surface",
    "ALB" := "surface", "SLOP" := "surface", "AZI" := "surface", "W" := "hybrid", "V" := "surface",
    "U" := "surface", "TD" := "heightAboveGround", "RSWR" := "", "PSUM_PH" := ""]

  /** GRIB_DEFAULT_LEVELNO_TABLE. */
  const DefaultLevelNoTable: map<string, int> := map[
    "DEM" := 0, "P" := 0, "TA" := 0, "TSS" := 0, "TSG" := 0, "RH" := 2, "PSUM" := 0, "HS" := 3066, "RSNO" := 0,
    "SWE" := 0, "ISWR" := 0, "ILWR" := 0, "VW_MAX" := 10, "DW" := 10, "VW" := 10, "TAU_CLD" := 0, "ROT" := 0, "ALB" := 0,
    "SLOP" := 0, "AZI" := 0, "W" := 10, "V" := 0, "U" := 0, "TD" := 2, "RSWR" := 0, "PSUM_PH" := 0]

  /** The contents of a GRIBTable, as a value. */
  datatype Table = Table(
    paramKey: string, levelKey: string,
    ids: map<string, string>, idsDouble: map<string, real>, idsLong: map<string, int>,
    levelTypes: map<string, string>, levelNos: map<string, int>,
    idType: ParamType, known: set<string>)

  /** The conversions readTable makes with IOUtils::convertString. */
  datatype TableHooks = TableHooks(
    toInt: string -> Option<int>,
    toReal: string -> Option<real>)

  /** The output parameters of getParamId: the string, double and long forms of the ID. */
  datatype ParamIds = ParamIds(id: string, num: real, lng: int)

  /** The table the default constructor builds. */
  function DefaultTable(): (t: Table)
    ensures t.known == DefaultParamTable.Keys == DefaultLevelTypeTable.Keys == DefaultLevelNoTable.Keys
    ensures t.idType == Long && t.paramKey == "paramId" && t.levelKey == "typeOfLevel"
  {
    Table("paramId", "typeOfLevel", map[], map[], DefaultParamTable,
          DefaultLevelTypeTable, DefaultLevelNoTable, Long, DefaultParamTable.Keys)
  }

  /** The table the file constructor starts from, before init_known_params. */
  function EmptyTable(): Table
  {
    Table("", "", map[], map[], map[], map[], map[], Long, {})
  }

  /** One parameter made known by init_known_params, with empty or npos entries in every table. */
  function AddKnown(t: Table, name: string): (r: Table)
    ensures r.known == t.known + {name}
  {
    t.(known := t.known + {name}, ids := t.ids[name := ""], idsDouble := t.idsDouble[name := NposReal],
       idsLong := t.idsLong[name := NposLong], levelTypes := t.levelTypes[name := ""],
       levelNos := t.levelNos[name := NposLong])
  }

  /** Every table of `t` has exactly the known parameters as its keys. */
  predicate Exact(t: Table)
  {
    t.ids.Keys == t.known && t.idsDouble.Keys == t.known && t.idsLong.Keys == t.known &&
    t.levelTypes.Keys == t.known && t.levelNos.Keys == t.known
  }

  /** A parameter as init_known_params leaves it: present in every table, with no ID and no level. */
  predicate Blank(t: Table, n: string)
  {
    n in t.ids && t.ids[n] == "" && n in t.idsDouble && t.idsDouble[n] == NposReal &&
    n in t.idsLong && t.idsLong[n] == NposLong && n in t.levelTypes && t.levelTypes[n] == "" &&
    n in t.levelNos && t.levelNos[n] == NposLong
  }

  /** One added parameter is blank, the others keep their entries, and no table gains any other key. */
  lemma AddKnownFacts(t: Table, name: string)
    ensures Exact(t) ==> Exact(AddKnown(t, name))
    ensures Blank(AddKnown(t, name), name)
    ensures forall n :: n != name && Blank(t, n) ==> Blank(AddKnown(t, name), n)
    ensures AddKnown(t, name).paramKey == t.paramKey && AddKnown(t, name).levelKey == t.levelKey
    ensures AddKnown(t, name).idType == t.idType
  {
  }

  /** init_known_params over the names of MeteoData and MeteoGrids, in that order. */
  function InitKnown(t: Table, names: seq<string>): (r: Table)
    ensures r.known == t.known + set n | n in names
    decreases |names|
  {
    if names == [] then t
    else
      var init := names[..|names| - 1];
      assert forall n :: n in names <==> n in init || n == names[|names| - 1];
      AddKnown(InitKnown(t, init), names[|names| - 1])
  }

  /** After init_known_params every name is blank in every table, and no other key was added. */
  lemma {:induction false} InitKnownFacts(t: Table, names: seq<string>)
    ensures Exact(t) ==> Exact(InitKnown(t, names))
    ensures forall n :: n in names ==> Blank(InitKnown(t, names), n)
    ensures InitKnown(t, names).paramKey == t.paramKey && InitKnown(t, names).levelKey == t.levelKey
    ensures InitKnown(t, names).idType == t.idType
    decreases |names|
  {
    if names != [] {
      var init := names[..|names| - 1];
      var last := names[|names| - 1];
      assert forall n :: n in names <==> n in init || n == last;
      InitKnownFacts(t, init);
      AddKnownFacts(InitKnown(t, init), last);
    }
  }

  /** init_known_params one name further. */
  lemma InitKnownSnoc(t: Table, names: seq<string>, i: nat)
    requires i < |names|
    ensures InitKnown(t, names[..i + 1]) == AddKnown(InitKnown(t, names[..i]), names[i])
  {
    assert names[..i + 1][..i] == names[..i];
  }

  /** init_known_params over two lists is init_known_params over the first, then the second. */
  lemma {:induction false} InitKnownAppend(t: Table, a: seq<string>, b: seq<string>)
    ensures InitKnown(t, a + b) == InitKnown(InitKnown(t, a), b)
    decreases |b|
  {
    if b == [] {
      assert a + b == a;
    } else {
      var ab := a + b;
      assert ab[..|ab| - 1] == a + b[..|b| - 1];
      assert ab[|ab| - 1] == b[|b| - 1];
      InitKnownAppend(t, a, b[..|b| - 1]);
    }
  }

  /** A line readTable skips: empty, a comment, or starting with a space. */
  predicate Ignored(line: string)
  {
    line == "" || line[0] == '#' || line[0] == ' '
  }

  /** parseIndexing: None when the line is not an `index` line. */
  function IndexLine(t: Table, vals: seq<string>): (r: Option<Result<Table>>)
    requires |vals| > 0
    ensures r.None? <==> vals[0] != "index"
    ensures r.Some? && r.value.Err? ==> |vals| != 3 && r.value.kind == InvalidFormat
    ensures r.Some? && r.value.Ok? ==> |vals| == 3 && IndexesOf(r.value.value) == vals[1..]
  {
    if vals[0] != "index" then None
    else if |vals| != 3 then Some(Err(InvalidFormat))
    else Some(Ok(t.(paramKey := vals[1], levelKey := vals[2])))
  }

  /** The spelling of a parameter type in a `paramIdType` line. */
  function TypeOf(s: string): (r: Option<ParamType>)
    ensures r == Some(Double) <==> s == "double"
    ensures r == Some(Str) <==> s == "string"
    ensures r == Some(Long) <==> s == "long"
  {
    if s == "double" then Some(Double) else if s == "string" then Some(Str)
    else if s == "long" then Some(Long) else None
  }

  /** parseParamType: None when the line is not a `paramIdType` line. */
  function TypeLine(t: Table, vals: seq<string>): (r: Option<Result<Table>>)
    requires |vals| > 0
    ensures r.None? <==> vals[0] != "paramIdType"
    ensures r.Some? && r.value.Err? ==> r.value.kind == InvalidFormat && (|vals| != 2 || TypeOf(vals[1]).None?)
    ensures r.Some? && r.value.Ok? ==> |vals| == 2 && Some(r.value.value.idType) == TypeOf(vals[1])
  {
    if vals[0] != "paramIdType" then None
    else if |vals| != 2 then Some(Err(InvalidFormat))
    else match TypeOf(vals[1])
      case None => Some(Err(InvalidFormat))
      case Some(ty) => Some(Ok(t.(idType := ty)))
  }

  /** The parameter ID of a parameter line, stored in the table of the current type only. */
  function StoreId(t: Table, key: string, id: string, h: TableHooks): (r: Result<Table>)
    ensures r.Err? ==> r.kind == InvalidArgument
    ensures r.Ok? ==> r.value.known == t.known && r.value.idType == t.idType &&
                      r.value.levelTypes == t.levelTypes && r.value.levelNos == t.levelNos
  {
    match t.idType
    case Double =>
      (match h.toReal(id)
       case None => Err(InvalidArgument)
       case Some(x) => Ok(t.(idsDouble := t.idsDouble[key := x])))
    case Str => Ok(t.(ids := t.ids[key := id]))
    case Long =>
      (match h.toInt(id)
       case None => Err(InvalidArgument)
       case Some(x) => Ok(t.(idsLong := t.idsLong[key := x])))
  }

  /** fillParameterTables: a `paramName:paramID:levelType:levelNo` line. */
  function ParamLine(t: Table, vals: seq<string>, h: TableHooks): (r: Result<Table>)
    ensures |vals| != 4 ==> r == Err(InvalidFormat)
    ensures |vals| == 4 && (h.toInt(vals[3]).None? || vals[0] !in t.known) ==> r == Err(InvalidArgument)
    ensures r.Ok? ==> |vals| == 4 && vals[0] in t.known && r.value.known == t.known && r.value.idType == t.idType
  {
    if |vals| != 4 then Err(InvalidFormat)
    else
      match h.toInt(vals[3])
      case None => Err(InvalidArgument)
      case Some(levelNo) =>
        if vals[0] !in t.known then Err(InvalidArgument)
        else
          var key := vals[0];
          match StoreId(t, key, vals[1], h)
          case Err(e) => Err(e)
          case Ok(t') => Ok(t'.(levelTypes := t'.levelTypes[key := vals[2]], levelNos := t'.levelNos[key := levelNo]))
  }

  /** One line of the table file, split on ':'. */
  function ApplyLine(t: Table, line: string, h: TableHooks): (r: Result<Table>)
    ensures Ignored(line) ==> r == Ok(t)
    ensures r.Ok? ==> r.value.known == t.known
  {
    if Ignored(line) then Ok(t)
    else
      var vals := Split(line, ':');
      match IndexLine(t, vals)
        case Some(res) => res
        case None =>
          match TypeLine(t, vals)
          case Some(res) => res
          case None => ParamLine(t, vals, h)
  }

  /** readTable: the lines applied one after the other, stopping at the first error. */
  function ReadLines(t: Table, lines: seq<string>, h: TableHooks): (r: Result<Table>)
    ensures r.Ok? ==> r.value.known == t.known
    decreases |lines|
  {
    if lines == [] then Ok(t)
    else match ApplyLine(t, lines[0], h)
      case Err(e) => Err(e)
      case Ok(t') => ReadLines(t', lines[1..], h)
  }

  /** GRIBTable(filename): the known parameters initialised, then the file read. */
  function FileTable(names: seq<string>, lines: seq<string>, h: TableHooks): (r: Result<Table>)
  {
    ReadLines(InitKnown(EmptyTable(), names), lines, h)
  }

  /** getIndexes, getParamKey and getLevelKey. */
  function IndexesOf(t: Table): (r: seq<string>)
    ensures |r| == 2 && r[0] == t.paramKey && r[1] == t.levelKey
  {
    [t.paramKey, t.levelKey]
  }

  /** getParamId: the output of the current type is read with `at`, the other two are "" and npos. */
  function ParamIdOf(t: Table, name: string): (r: Result<ParamIds>)
    ensures r.Err? ==> r.kind == OutOfRange
  {
    match t.idType
    case Double =>
      if name in t.idsDouble then Ok(ParamIds("", t.idsDouble[name], NposLong)) else Err(OutOfRange)
    case Str =>
      if name in t.ids then Ok(ParamIds(t.ids[name], NposReal, NposLong)) else Err(OutOfRange)
    case Long =>
      if name in t.idsLong then Ok(ParamIds("", NposReal, t.idsLong[name])) else Err(OutOfRange)
  }

  /** getLevelType. */
  function LevelTypeOf(t: Table, name: string): (r: Result<string>)
    ensures r.Ok? <==> name in t.levelTypes
    ensures r.Err? ==> r.kind == OutOfRange
  {
    if name in t.levelTypes then Ok(t.levelTypes[name]) else Err(OutOfRange)
  }

  /** getLevelNo. */
  function LevelNoOf(t: Table, name: string): (r: Result<int>)
    ensures r.Ok? <==> name in t.levelNos
    ensures r.Err? ==> r.kind == OutOfRange
  {
    if name in t.levelNos then Ok(t.levelNos[name]) else Err(OutOfRange)
  }

  /** getParamId fills exactly one of its outputs, the one of the table's current type. */
  lemma ParamIdSlots(t: Table, name: string)
    requires ParamIdOf(t, name).Ok?
    ensures var p := ParamIdOf(t, name).value;
      (t.idType == Double ==> p.id == "" && p.lng == NposLong && p.num == t.idsDouble[name]) &&
      (t.idType == Str ==> p.num == NposReal && p.lng == NposLong && p.id == t.ids[name]) &&
      (t.idType == Long ==> p.id == "" && p.num == NposReal && p.lng == t.idsLong[name])
  {
  }

  /** The default table answers getParamId, getLevelType and getLevelNo exactly for its own parameters. */
  lemma DefaultTableQueries(name: string)
    ensures ParamIdOf(DefaultTable(), name).Ok? <==> name in DefaultParamTable
    ensures LevelTypeOf(DefaultTable(), name).Ok? <==> name in DefaultParamTable
    ensures LevelNoOf(DefaultTable(), name).Ok? <==> name in DefaultParamTable
    ensures name in DefaultParamTable ==>
      ParamIdOf(DefaultTable(), name) == Ok(ParamIds("", NposReal, DefaultParamTable[name]))
  {
  }

  /** A line never adds a parameter that is not known, and never removes one. */
  lemma {:induction false} ApplyLineExact(t: Table, line: string, h: TableHooks)
    requires Exact(t)
    ensures ApplyLine(t, line, h).Ok? ==> Exact(ApplyLine(t, line, h).value)
  {
    if !Ignored(line) {
      var vals := Split(line, ':');
      if IndexLine(t, vals).None? && TypeLine(t, vals).None? {
        var r := ParamLine(t, vals, h);
        if r.Ok? {
          assert vals[0] in t.known;
          var s := StoreId(t, vals[0], vals[1], h);
          assert s.Ok?;
          assert s.value.ids.Keys == t.known && s.value.idsDouble.Keys == t.known && s.value.idsLong.Keys == t.known;
        }
      }
    }
  }

  /** Reading any table file keeps every table's keys exactly the known parameters. */
  lemma {:induction false} ReadLinesExact(t: Table, lines: seq<string>, h: TableHooks)
    requires Exact(t)
    ensures ReadLines(t, lines, h).Ok? ==> Exact(ReadLines(t, lines, h).value)
    decreases |lines|
  {
    if lines != [] {
      ApplyLineExact(t, lines[0], h);
      var a := ApplyLine(t, lines[0], h);
      if a.Ok? {
        ReadLinesExact(a.value, lines[1..], h);
      }
    }
  }

  /** A table read from a file has exactly the MeteoData and MeteoGrids names as the keys of every table. */
  lemma FileTableExact(names: seq<string>, lines: seq<string>, h: TableHooks)
    requires FileTable(names, lines, h).Ok?
    ensures Exact(FileTable(names, lines, h).value)
    ensures FileTable(names, lines, h).value.known == set n | n in names
  {
    var t0 := InitKnown(EmptyTable(), names);
    assert Exact(EmptyTable());
    InitKnownFacts(EmptyTable(), names);
    ReadLinesExact(t0, lines, h);
  }

  /**
   * A table read from a file answers getParamId, getLevelType and getLevelNo for
   * exactly the MeteoData and MeteoGrids parameter names, whatever its lines say.
   */
  lemma FileTableQueries(names: seq<string>, lines: seq<string>, h: TableHooks, name: string)
    requires FileTable(names, lines, h).Ok?
    ensures var t := FileTable(names, lines, h).value;
      (ParamIdOf(t, name).Ok? <==> name in names) &&
      (LevelTypeOf(t, name).Ok? <==> name in names) &&
      (LevelNoOf(t, name).Ok? <==> name in names)
  {
    FileTableExact(names, lines, h);
    var t := FileTable(names, lines, h).value;
    assert name in t.known <==> name in names;
    ExactQueries(t, name);
  }

  /** A table whose every table has exactly the known keys answers the getters exactly for the known parameters. */
  lemma ExactQueries(t: Table, name: string)
    requires Exact(t)
    ensures ParamIdOf(t, name).Ok? <==> name in t.known
    ensures LevelTypeOf(t, name).Ok? <==> name in t.known
    ensures LevelNoOf(t, name).Ok? <==> name in t.known
  {
  }

  /** What a parameter line stores is what the getters then return for it; the other parameters are untouched. */
  lemma ParamLineQueries(t: Table, vals: seq<string>, h: TableHooks, other: string)
    requires ParamLine(t, vals, h).Ok?
    ensures var t' := ParamLine(t, vals, h).value;
      LevelTypeOf(t', vals[0]) == Ok(vals[2]) &&
      LevelNoOf(t', vals[0]) == Ok(h.toInt(vals[3]).value) &&
      (t.idType == Str ==> ParamIdOf(t', vals[0]) == Ok(ParamIds(vals[1], NposReal, NposLong))) &&
      (t.idType == Long ==> ParamIdOf(t', vals[0]) == Ok(ParamIds("", NposReal, h.toInt(vals[1]).value))) &&
      (t.idType == Double ==> ParamIdOf(t', vals[0]) == Ok(ParamIds("", h.toReal(vals[1]).value, NposLong))) &&
      (other != vals[0] ==>
         (ParamIdOf(t', other) == ParamIdOf(t, other) &&
          LevelTypeOf(t', other) == LevelTypeOf(t, other) &&
          LevelNoOf(t', other) == LevelNoOf(t, other)))
  {
  }

  /** An `index` line sets what getIndexes returns and changes nothing else. */
  lemma IndexLineQueries(t: Table, line: string, h: TableHooks, name: string)
    requires !Ignored(line) && |Split(line, ':')| == 3 && Split(line, ':')[0] == "index"
    ensures ApplyLine(t, line, h).Ok?
    ensures IndexesOf(ApplyLine(t, line, h).value) == Split(line, ':')[1..]
    ensures ParamIdOf(ApplyLine(t, line, h).value, name) == ParamIdOf(t, name)
    ensures LevelNoOf(ApplyLine(t, line, h).value, name) == LevelNoOf(t, name)
  {
  }

  /** A type line that names an unknown type, or an index line of the wrong size, rejects the table. */
  lemma MalformedLines(t: Table, line: string, h: TableHooks)
    requires !Ignored(line)
    ensures var v := Split(line, ':');
      (v[0] == "index" && |v| != 3 ==> ApplyLine(t, line, h) == Err(InvalidFormat)) &&
      (v[0] == "paramIdType" && (|v| != 2 || TypeOf(v[1]).None?) ==> ApplyLine(t, line, h) == Err(InvalidFormat)) &&
      (v[0] != "index" && v[0] != "paramIdType" && |v| == 4 && v[0] !in t.known ==>
         ApplyLine(t, line, h) == Err(InvalidArgument))
  {
  }

  /** Going on reading `b` after a result, unless it is an error. */
  function ReadAfter(r: Result<Table>, b: seq<string>, h: TableHooks): (r': Result<Table>)
    ensures r.Err? ==> r' == r
  {
    match r
    case Err(e) => Err(e)
    case Ok(t) => ReadLines(t, b, h)
  }

  /** Reading a file in two parts is reading it at once: the table is a left fold over the lines. */
  lemma {:induction false} ReadLinesAppend(t: Table, a: seq<string>, b: seq<string>, h: TableHooks)
    ensures ReadLines(t, a + b, h) == ReadAfter(ReadLines(t, a, h), b, h)
    decreases |a|
  {
    if a != [] {
      assert (a + b)[0] == a[0];
      assert (a + b)[1..] == a[1..] + b;
      match ApplyLine(t, a[0], h)
      case Err(e) =>
      case Ok(t') =>
        assert ReadLines(t, a, h) == ReadLines(t', a[1..], h);
        assert ReadLines(t, a + b, h) == ReadLines(t', a[1..] + b, h);
        ReadLinesAppend(t', a[1..], b, h);
    } else {
      assert a + b == b;
    }
  }

  /** One step of readTable, as the loop takes it. */
  lemma ReadLinesStep(t: Table, lines: seq<string>, i: nat, h: TableHooks)
    requires i < |lines|
    ensures ReadLines(t, lines[i..], h) ==
      match ApplyLine(t, lines[i], h) case Err(e) => Err(e) case Ok(t') => ReadLines(t', lines[i + 1..], h)
  {
    assert lines[i..][0] == lines[i];
    assert lines[i..][1..] == lines[i + 1..];
  }

  /** A GRIBTable object. */
  class GribTable {
    var paramKey: string
    var levelKey: string
    var ids: map<string, string>
    var idsDouble: map<string, real>
    var idsLong: map<string, int>
    var levelTypes: map<string, string>
    var levelNos: map<string, int>
    var idType: ParamType
    var known: set<string>

    function State(): Table
      reads this
    {
      Table(paramKey, levelKey, ids, idsDouble, idsLong, levelTypes, levelNos, idType, known)
    }

    /** GRIBTable(): the built-in default table. */
    constructor ()
      ensures State() == DefaultTable()
    {
      paramKey, levelKey := "paramId", "typeOfLevel";
      ids, idsDouble, idsLong := map[], map[], DefaultParamTable;
      levelTypes, levelNos := DefaultLevelTypeTable, DefaultLevelNoTable;
      idType := Long;
      known := DefaultParamTable.Keys;
    }

    /** GRIBTable(filename), up to the reading of the file: the known parameters initialised. */
    constructor FromNames(meteoNames: seq<string>, gridNames: seq<string>)
      ensures State() == InitKnown(EmptyTable(), meteoNames + gridNames)
    {
      paramKey, levelKey := "", "";
      ids, idsDouble, idsLong := map[], map[], map[];
      levelTypes, levelNos := map[], map[];
      idType := Long;
      known := {};
      new;
      InitKnownParams(meteoNames, gridNames);
    }

    /** init_known_params: the MeteoData names, then the MeteoGrids names. */
    method InitKnownParams(meteoNames: seq<string>, gridNames: seq<string>)
      modifies this
      ensures State() == InitKnown(old(State()), meteoNames + gridNames)
    {
      ghost var t0 := State();
      AddKnownParams(meteoNames);
      AddKnownParams(gridNames);
      InitKnownAppend(t0, meteoNames, gridNames);
    }

    /** One of the two loops of init_known_params. */
    method AddKnownParams(names: seq<string>)
      modifies this
      ensures State() == InitKnown(old(State()), names)
    {
      ghost var t0 := State();
      for i := 0 to |names|
        invariant State() == InitKnown(t0, names[..i])
      {
        InitKnownSnoc(t0, names, i);
        AddKnownParam(names[i]);
      }
      assert names[..|names|] == names;
    }

    /** One iteration of init_known_params. */
    method AddKnownParam(name: string)
      modifies this
      ensures State() == AddKnown(old(State()), name)
    {
      known := known + {name};
      ids := ids[name := ""];
      idsDouble := idsDouble[name := NposReal];
      idsLong := idsLong[name := NposLong];
      levelTypes := levelTypes[name := ""];
      levelNos := levelNos[name := NposLong];
    }

    /** parseIndexing: true when the line was an `index` line. */
    method ParseIndexing(vals: seq<string>) returns (r: Result<bool>)
      requires |vals| > 0
      modifies this
      ensures r.Ok? <==> IndexLine(old(State()), vals) != Some(Err(InvalidFormat))
      ensures r.Err? ==> r.kind == InvalidFormat
      ensures r == Ok(true) ==> IndexLine(old(State()), vals) == Some(Ok(State()))
      ensures r != Ok(true) ==> vals[0] != "index" || r.Err?
      ensures r == Ok(false) ==> State() == old(State())
    {
      if vals[0] == "index" {
        if |vals| != 3 {
          return Err(InvalidFormat);
        }
        paramKey := vals[1];
        levelKey := vals[2];
        return Ok(true);
      }
      return Ok(false);
    }

    /** parseParamType: true when the line was a `paramIdType` line. */
    method ParseParamType(vals: seq<string>) returns (r: Result<bool>)
      requires |vals| > 0
      modifies this
      ensures r.Err? <==> TypeLine(old(State()), vals).Some? && TypeLine(old(State()), vals).value.Err?
      ensures r.Err? ==> r.kind == InvalidFormat
      ensures r == Ok(true) ==> TypeLine(old(State()), vals) == Some(Ok(State()))
      ensures r == Ok(false) ==> TypeLine(old(State()), vals).None? && State() == old(State())
    {
      if vals[0] == "paramIdType" {
        if |vals| != 2 {
          return Err(InvalidFormat);
        }
        if vals[1] == "double" {
          idType := Double;
        } else if vals[1] == "string" {
          idType := Str;
        } else if vals[1] == "long" {
          idType := Long;
        } else {
          return Err(InvalidFormat);
        }
        return Ok(true);
      }
      return Ok(false);
    }

    /** fillParameterTables. */
    method FillParameterTables(vals: seq<string>, h: TableHooks) returns (r: Result<()>)
      modifies this
      ensures r.Err? <==> ParamLine(old(State()), vals, h).Err?
      ensures r.Err? ==> r.kind == ParamLine(old(State()), vals, h).kind
      ensures r.Ok? ==> State() == ParamLine(old(State()), vals, h).value
    {
      if |vals| != 4 {
        return Err(InvalidFormat);
      }
      var key, paramId, levelType := vals[0], vals[1], vals[2];
      var levelNo := h.toInt(vals[3]);
      if levelNo.None? {
        return Err(InvalidArgument);
      }
      if key !in known {
        return Err(InvalidArgument);
      }
      match idType {
        case Double =>
          var x := h.toReal(paramId);
          if x.None? {
            return Err(InvalidArgument);
          }
          idsDouble := idsDouble[key := x.value];
        case Str =>
          ids := ids[key := paramId];
        case Long =>
          var x := h.toInt(paramId);
          if x.None? {
            return Err(InvalidArgument);
          }
          idsLong := idsLong[key := x.value];
      }
      levelTypes := levelTypes[key := levelType];
      levelNos := levelNos[key := levelNo.value];
      return Ok(());
    }

    /** readTable over the lines of the table file. */
    method ReadTable(lines: seq<string>, h: TableHooks) returns (r: Result<()>)
      modifies this
      ensures r.Err? <==> ReadLines(old(State()), lines, h).Err?
      ensures r.Err? ==> r.kind == ReadLines(old(State()), lines, h).kind
      ensures r.Ok? ==> State() == ReadLines(old(State()), lines, h).value
    {
      ghost var spec := ReadLines(State(), lines, h);
      var i := 0;
      while i < |lines|
        invariant 0 <= i <= |lines|
        invariant spec == ReadLines(State(), lines[i..], h)
      {
        ReadLinesStep(State(), lines, i, h);
        var line := lines[i];
        i := i + 1;
        if line == "" || line[0] == '#' || line[0] == ' ' {
          continue;
        }
        var vals := Split(line, ':');
        var isIndex := ParseIndexing(vals);
        if isIndex.Err? {
          return Err(isIndex.kind);
        }
        if isIndex.value {
          continue;
        }
        var isType := ParseParamType(vals);
        if isType.Err? {
          return Err(isType.kind);
        }
        if isType.value {
          continue;
        }
        var filled := FillParameterTables(vals, h);
        if filled.Err? {
          return Err(filled.kind);
        }
      }
      assert lines[i..] == [];
      return Ok(());
    }

    /** getIndexes. */
    function GetIndexes(): (r: seq<string>)
      reads this
      ensures r == IndexesOf(State())
    {
      [paramKey, levelKey]
    }

    /** getParamId. */
    function GetParamId(name: string): (r: Result<ParamIds>)
      reads this
      ensures r == ParamIdOf(State(), name)
    {
      ParamIdOf(State(), name)
    }

    /** getLevelType. */
    function GetLevelType(name: string): (r: Result<string>)
      reads this
      ensures r == LevelTypeOf(State(), name)
    {
      LevelTypeOf(State(), name)
    }

    /** getLevelNo. */
    function GetLevelNo(name: string): (r: Result<int>)
      reads this
      ensures r == LevelNoOf(State(), name)
    {
      LevelNoOf(State(), name)
    }
  }

  // ------------------------- GRIBFile -------------------------

  /** What checkValidity reads from one message: its grid parameters, its validity date (as a Julian date) and its paramId. */
  datatype Message = Message(grid: map<string, real>, date: real, paramId: int)

  /** A std::set<Date> is an increasing sequence without repetitions. */
  predicate Increasing(s: seq<real>)
  {
    forall i, j :: 0 <= i < j < |s| ==> s[i] < s[j]
  }

  /** std::set::insert on that representation. */
  function InsertDate(s: seq<real>, x: real): (r: seq<real>)
    requires Increasing(s)
    ensures Increasing(r)
    ensures forall y :: y in r <==> y in s || y == x
    decreases |s|
  {
    if s == [] then [x]
    else if x < s[0] then [x] + s
    else if x == s[0] then s
    else
      var rest := InsertDate(s[1..], x);
      assert forall k :: 0 <= k < |rest| ==> rest[k] in s[1..] || rest[k] == x;
      [s[0]] + rest
  }

  /** The (date, paramId) pairs of the messages are pairwise different. */
  predicate PairsDistinct(msgs: seq<Message>)
  {
    forall i, j :: 0 <= i < j < |msgs| ==> (msgs[i].date, msgs[i].paramId) != (msgs[j].date, msgs[j].paramId)
  }

  /** The grid parameters checkValidity keeps: those of the first message that has any. */
  function FirstGrid(msgs: seq<Message>): (g: map<string, real>)
    ensures g != map[] <==> exists i :: 0 <= i < |msgs| && msgs[i].grid != map[]
    decreases |msgs|
  {
    if msgs == [] then map[]
    else if msgs[0].grid != map[] then msgs[0].grid
    else
      var g := FirstGrid(msgs[1..]);
      assert forall i :: 1 <= i < |msgs| ==> msgs[i] == msgs[1..][i - 1];
      g
  }

  /** The loop of checkValidity from message i on, with the grid parameters, timepoints and pairs seen so far. */
  function ValidityFrom(msgs: seq<Message>, i: nat, grid: map<string, real>, tps: seq<real>,
                        seen: set<(real, int)>): (r: Result<(map<string, real>, seq<real>)>)
    requires i <= |msgs| && Increasing(tps)
    ensures r.Err? ==> r.kind == InvalidFormat
    ensures r.Ok? ==> Increasing(r.value.1)
    decreases |msgs| - i
  {
    if i == |msgs| then
      if grid == map[] then Err(InvalidFormat)
      else if tps == [] then Err(InvalidFormat)
      else Ok((grid, tps))
    else
      var m := msgs[i];
      var grid' := if grid == map[] then m.grid else grid;
      var tps' := InsertDate(tps, m.date);
      if (m.date, m.paramId) in seen then Err(InvalidFormat)
      else ValidityFrom(msgs, i + 1, grid', tps', seen + {(m.date, m.paramId)})
  }

  /** checkValidity over the messages of a file: the grid parameters and timepoints it keeps, or the error. */
  function Validity(msgs: seq<Message>): (r: Result<(map<string, real>, seq<real>)>)
  {
    if msgs == [] then Err(AccessError) else ValidityFrom(msgs, 0, map[], [], {})
  }

  /** The invariant of checkValidity's loop, as a characterisation of ValidityFrom. */
  lemma {:induction false} ValidityFromMeaning(msgs: seq<Message>, i: nat, grid: map<string, real>,
                                               tps: seq<real>, seen: set<(real, int)>)
    requires i <= |msgs| && Increasing(tps)
    requires grid == FirstGrid(msgs[..i])
    requires seen == set k | 0 <= k < i :: (msgs[k].date, msgs[k].paramId)
    requires forall d :: d in tps <==> exists k :: 0 <= k < i && msgs[k].date == d
    requires PairsDistinct(msgs[..i])
    ensures ValidityFrom(msgs, i, grid, tps, seen).Ok? <==>
              PairsDistinct(msgs) && FirstGrid(msgs) != map[] && |msgs| > 0
    ensures ValidityFrom(msgs, i, grid, tps, seen).Ok? ==>
              ValidityFrom(msgs, i, grid, tps, seen).value.0 == FirstGrid(msgs) &&
              forall d :: d in ValidityFrom(msgs, i, grid, tps, seen).value.1 <==>
                          exists k :: 0 <= k < |msgs| && msgs[k].date == d
    decreases |msgs| - i
  {
    assert msgs[..|msgs|] == msgs;
    if i < |msgs| {
      var m := msgs[i];
      var key := (m.date, m.paramId);
      FirstGridAppend(msgs[..i], m);
      assert msgs[..i + 1] == msgs[..i] + [m];
      if key in seen {
        var k :| 0 <= k < i && (msgs[k].date, msgs[k].paramId) == key;
        assert !PairsDistinct(msgs);
      } else {
        var tps' := InsertDate(tps, m.date);
        var seen' := seen + {key};
        assert seen' == set k | 0 <= k < i + 1 :: (msgs[k].date, msgs[k].paramId);
        forall d
          ensures d in tps' <==> exists k :: 0 <= k < i + 1 && msgs[k].date == d
        {
          if d in tps' && d != m.date {
            assert d in tps;
          }
        }
        assert PairsDistinct(msgs[..i + 1]);
        ValidityFromMeaning(msgs, i + 1, if grid == map[] then m.grid else grid, tps', seen');
      }
    } else {
      assert i > 0 ==> msgs[0].date in tps;
    }
  }

  /** FirstGrid of a sequence extended by one message. */
  lemma {:induction false} FirstGridAppend(msgs: seq<Message>, m: Message)
    ensures FirstGrid(msgs + [m]) == if FirstGrid(msgs) == map[] then m.grid else FirstGrid(msgs)
    decreases |msgs|
  {
    if msgs != [] {
      assert (msgs + [m])[0] == msgs[0];
      assert (msgs + [m])[1..] == msgs[1..] + [m];
      FirstGridAppend(msgs[1..], m);
    }
  }

  /**
   * checkValidity accepts a file exactly when it has messages, no two of them share
   * a (date, paramId) pair, and some message has grid parameters; it then keeps the
   * first non-empty grid parameters and every message date, in increasing order.
   */
  lemma ValidityMeaning(msgs: seq<Message>)
    ensures Validity(msgs).Ok? <==> |msgs| > 0 && PairsDistinct(msgs) && FirstGrid(msgs) != map[]
    ensures msgs == [] ==> Validity(msgs) == Err(AccessError)
    ensures msgs != [] && !PairsDistinct(msgs) ==> Validity(msgs) == Err(InvalidFormat)
    ensures msgs != [] && FirstGrid(msgs) == map[] ==> Validity(msgs) == Err(InvalidFormat)
    ensures Validity(msgs).Ok? ==>
              Validity(msgs).value.0 == FirstGrid(msgs) && Increasing(Validity(msgs).value.1) &&
              forall d :: d in Validity(msgs).value.1 <==> exists k :: 0 <= k < |msgs| && msgs[k].date == d
  {
    if msgs != [] {
      assert msgs[..0] == [];
      ValidityFromMeaning(msgs, 0, map[], [], {});
    }
  }

  /**
   * Grid parameters as getGridParameters returns them are never empty, so for
   * such messages the "no grid parameters" error cannot happen: the file is
   * accepted exactly when it has messages and no (date, paramId) pair repeats.
   */
  lemma ValidityOfDecodedGrids(msgs: seq<Message>)
    requires forall i :: 0 <= i < |msgs| ==> msgs[i].grid.Keys == Codes.GridKeys
    ensures Validity(msgs).Ok? <==> |msgs| > 0 && PairsDistinct(msgs)
  {
    ValidityMeaning(msgs);
    if |msgs| > 0 {
      assert "Ni" in msgs[0].grid;
    }
  }

  /** A GRIBFile object, as far as its validity bookkeeping goes. */
  class GribFile {
    var gridParams: map<string, real>
    var timepoints: seq<real>

    ghost predicate Valid()
      reads this
    {
      Increasing(timepoints)
    }

    constructor ()
      ensures Valid() && gridParams == map[] && timepoints == []
    {
      gridParams := map[];
      timepoints := [];
    }

    /**
     * checkValidity over the file's messages. After an error the source's
     * constructor has thrown and the object does not exist, so only the
     * successful state is stated.
     */
    method CheckValidity(msgs: seq<Message>) returns (r: Result<()>)
      requires Valid() && gridParams == map[] && timepoints == []
      modifies this
      ensures r.Err? <==> Validity(msgs).Err?
      ensures r.Err? ==> r.kind == Validity(msgs).kind
      ensures r.Ok? ==> Valid() && (gridParams, timepoints) == Validity(msgs).value
    {
      if |msgs| == 0 {
        return Err(AccessError);
      }
      var seen: set<(real, int)> := {};
      var i := 0;
      while i < |msgs|
        invariant 0 <= i <= |msgs| && Valid()
        invariant Validity(msgs) == ValidityFrom(msgs, i, gridParams, timepoints, seen)
      {
        var m := msgs[i];
        if gridParams == map[] {
          gridParams := m.grid;
        }
        var key := (m.date, m.paramId);
        timepoints := InsertDate(timepoints, m.date);
        if key in seen {
          return Err(InvalidFormat);
        }
        seen := seen + {key};
        i := i + 1;
      }
      if gridParams == map[] {
        return Err(InvalidFormat);
      }
      if timepoints == [] {
        return Err(InvalidFormat);
      }
      return Ok(());
    }

    /** isValidDate. */
    function IsValidDate(d: real): (b: bool)
      reads this
      ensures b <==> d in timepoints
    {
      d in timepoints
    }

    /** getDates: the ordered set of timepoints. */
    function GetDates(): (s: seq<real>)
      reads this
      ensures s == timepoints
    {
      timepoints
    }

    /** getStartDate: the first timepoint; dereferencing begin() of an empty set is undefined. */
    function GetStartDate(): (r: Result<real>)
      reads this
      requires Valid()
      ensures r.Err? <==> timepoints == []
      ensures r.Ok? ==> r.value in timepoints && forall d :: d in timepoints ==> r.value <= d
    {
      if timepoints == [] then Err(Undefined) else Ok(timepoints[0])
    }
  }
}
