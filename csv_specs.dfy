/**
 * The value-level pieces of the CSV dialect engine of CsvIO.cc: the
 * delimiter and skip-field settings, the special-header and filename
 * metadata extraction, the column-name heuristics, the unit table and
 * the compilation of date/time spec strings into scanf formats and ISO
 * slot orders. The objects that hold this state are in CsvParams.
 */
module CsvSpecs {
  import opened Common

  // ---------------------------------------------------------------- delimiters and skipped columns

  /** setDelimiter / setHeaderDelimiter: one character as is, SPACE or TAB as a blank, anything else rejected. */
  function DelimiterOf(delim: string): (r: Result<char>)
    ensures r.Ok? <==> |delim| == 1 || delim == "SPACE" || delim == "TAB"
    ensures r.Ok? && |delim| == 1 ==> r.value == delim[0]
    ensures r.Ok? && |delim| != 1 ==> r.value == ' '
    ensures r.Err? ==> r.kind == InvalidArgument
  {
    if |delim| == 1 then Ok(delim[0])
    else if delim == "SPACE" || delim == "TAB" then Ok(' ')
    else Err(InvalidArgument)
  }

  /** How many leading entries setSkipFields records before it meets a 0. */
  function SkipPrefix(v: seq<nat>): (k: nat)
    ensures k <= |v| && forall i :: 0 <= i < k ==> v[i] != 0
    ensures k < |v| ==> v[k] == 0
  {
    if v == [] || v[0] == 0 then 0 else 1 + SkipPrefix(v[1..])
  }

  /** The 0-based columns of the first `k` (1-based, non-zero) entries. */
  function SkipColumns(v: seq<nat>, k: nat): (s: set<nat>)
    requires k <= |v| && forall i :: 0 <= i < k ==> v[i] != 0
    ensures forall i :: 0 <= i < k ==> (v[i] - 1) as nat in s
  {
    if k == 0 then {} else SkipColumns(v, k - 1) + {(v[k - 1] - 1) as nat}
  }

  /** Only the columns of the entries are skipped. */
  lemma {:induction false} SkipColumnsOnly(v: seq<nat>, k: nat, c: nat)
    requires k <= |v| && forall i :: 0 <= i < k ==> v[i] != 0
    requires c in SkipColumns(v, k)
    ensures exists i :: 0 <= i < k && c + 1 == v[i]
  {
    if c != (v[k - 1] - 1) as nat {
      SkipColumnsOnly(v, k - 1, c);
    }
  }

  // ---------------------------------------------------------------- special header specifications

  /** One `type:line:column` specification of CSV_SPECIAL_HEADERS. */
  datatype HeaderSpec = HeaderSpec(line: nat, column: nat, fieldType: string)

  /**
   * One specification as parseHeadersSpecs reads it: three `:`-separated
   * parts (split by IOUtils::readLineToVec, here `split`) whose line and
   * column, read by atoi, are positive.
   */
  function HeaderSpecOf(spec: string, split: (string, char) -> seq<string>, atoi: string -> int): (r: Result<HeaderSpec>)
    ensures r.Err? ==> r.kind == InvalidFormat
    ensures r.Ok? <==> |split(spec, ':')| == 3 && atoi(split(spec, ':')[1]) > 0 && atoi(split(spec, ':')[2]) > 0
    ensures r.Ok? ==> r.value == HeaderSpec(atoi(split(spec, ':')[1]), atoi(split(spec, ':')[2]), split(spec, ':')[0])
  {
    var parts := split(spec, ':');
    if |parts| != 3 then Err(InvalidFormat)
    else
      var line := atoi(parts[1]);
      var col := atoi(parts[2]);
      if line <= 0 || col <= 0 then Err(InvalidFormat)
      else Ok(HeaderSpec(line, col, parts[0]))
  }

  /** parseHeadersSpecs: every specification read, in declaration order, or the format error. */
  function HeadersSpecs(specs: seq<string>, split: (string, char) -> seq<string>, atoi: string -> int): (r: Result<seq<HeaderSpec>>)
    ensures r.Err? ==> r.kind == InvalidFormat
    ensures r.Ok? <==> forall i :: 0 <= i < |specs| ==> HeaderSpecOf(specs[i], split, atoi).Ok?
    ensures r.Ok? ==> (|r.value| == |specs| &&
      forall i :: 0 <= i < |specs| ==> r.value[i] == HeaderSpecOf(specs[i], split, atoi).value)
  {
    if specs == [] then Ok([])
    else
      var n := |specs| - 1;
      var prev := HeadersSpecs(specs[..n], split, atoi);
      var last := HeaderSpecOf(specs[n], split, atoi);
      assert forall i :: 0 <= i < n ==> specs[..n][i] == specs[i];
      if prev.Err? then prev
      else if last.Err? then Err(last.kind)
      else Ok(prev.value + [last.value])
  }

  /** The loop of parseHeadersSpecs. */
  method ParseHeadersSpecs(specs: seq<string>, split: (string, char) -> seq<string>, atoi: string -> int)
    returns (r: Result<seq<HeaderSpec>>)
    ensures r == HeadersSpecs(specs, split, atoi)
  {
    var acc: seq<HeaderSpec> := [];
    var ii := 0;
    while ii < |specs|
      invariant ii <= |specs|
      invariant HeadersSpecs(specs[..ii], split, atoi) == Ok(acc)
    {
      assert specs[..ii + 1][..ii] == specs[..ii];
      var one := HeaderSpecOf(specs[ii], split, atoi);
      if one.Err? {
        HeadersSpecsErrExtends(specs, split, atoi, ii + 1);
        return Err(one.kind);
      }
      acc := acc + [one.value];
      ii := ii + 1;
    }
    assert specs[..ii] == specs;
    return Ok(acc);
  }

  /** Once a specification fails, the whole list fails. */
  lemma {:induction false} HeadersSpecsErrExtends(specs: seq<string>, split: (string, char) -> seq<string>, atoi: string -> int, k: nat)
    requires 0 < k <= |specs| && HeaderSpecOf(specs[k - 1], split, atoi).Err?
    ensures HeadersSpecs(specs, split, atoi).Err?
  {
  }

  /** equal_range on the multimap: the specifications of one line, in insertion order. */
  function OnLine(specs: seq<HeaderSpec>, line: nat): (r: seq<HeaderSpec>)
    ensures |r| <= |specs|
  {
    if specs == [] then []
    else
      var rest := OnLine(specs[1..], line);
      if specs[0].line == line then [specs[0]] + rest else rest
  }

  /** The specifications of the line, and only those. */
  lemma {:induction false} OnLineSelects(specs: seq<HeaderSpec>, line: nat)
    ensures forall h :: h in OnLine(specs, line) <==> h in specs && h.line == line
  {
    if specs != [] {
      OnLineSelects(specs[1..], line);
      assert forall h :: h in specs <==> h == specs[0] || h in specs[1..];
    }
  }

  // ---------------------------------------------------------------- column-name heuristics

  /** A rule of identifyField: names starting with one of the prefixes map to a MeteoIO parameter. */
  datatype NameRule = NameRule(prefixes: seq<string>, name: string)

  predicate RuleMatches(r: NameRule, f: string)
  {
    exists p :: p in r.prefixes && StartsWith(f, p)
  }

  /** The name given by the first matching rule, or the field name itself. */
  function FirstRule(rules: seq<NameRule>, f: string): (n: string)
    ensures (forall i :: 0 <= i < |rules| ==> !RuleMatches(rules[i], f)) ==> n == f
    ensures n != f ==> exists i :: 0 <= i < |rules| && RuleMatches(rules[i], f) && n == rules[i].name &&
                                  forall j :: 0 <= j < i ==> !RuleMatches(rules[j], f)
  {
    if rules == [] then f
    else if RuleMatches(rules[0], f) then rules[0].name
    else
      var n := FirstRule(rules[1..], f);
      if n != f then
        var i :| 0 <= i < |rules[1..]| && RuleMatches(rules[1..][i], f) && n == rules[1..][i].name &&
                 forall j :: 0 <= j < i ==> !RuleMatches(rules[1..][j], f);
        assert RuleMatches(rules[i + 1], f) && forall j :: 0 <= j < i + 1 ==> !RuleMatches(rules[j], f);
        n
      else n
  }

  const RuleTA := NameRule(["TEMPERATURE_AIR", "AIRTEMP", "TEMPERATURA_ARIA"], "TA")
  const RuleTSG := NameRule(["SOIL_TEMPERATURE", "SOILTEMP"], "TSG")
  const RulePSUM := NameRule(["PRECIPITATION", "PREC", "PRECIPITAZIONE"], "PSUM")
  const RuleReflected := NameRule(["REFLECTED_RADIATION", "RADIAZIONE_SOLARE_RIFLESSA"], "RSWR")
  const IncomingPrefixes: seq<string> := ["INCOMING_RADIATION", "INCOMINGSHORTWAVERADIATION", "RADIAZIONE_SOLARE_INCIDENTE"]
  const RuleDW := NameRule(["WIND_DIRECTION", "WD", "DIREZIONE_VENTO"], "DW")
  const RuleRH := NameRule(["RELATIVE_HUMIDITY", "RELATIVEHUMIDITY", "UMIDIT_RELATIVA"], "RH")
  const RuleVW := NameRule(["WIND_VELOCITY", "WS", "VELOCIT_VENTO"], "VW")
  const RuleP := NameRule(["PRESSURE", "STATIONPRESSURE"], "P")
  const RuleILWR := NameRule(["INCOMING_LONGWAVE", "INCOMINGLONGWAVERADIATION"], "ILWR")
  const RuleTSS := NameRule(["SNOWSURFACETEMPERATURE"], "TSS")
  const RuleVWMax := NameRule(["WS_MAX"], "VW_MAX")

  /** identifyField as written: incoming short wave maps to RSWR, and WS_MAX comes after the WS prefix. */
  const RulesAsWritten: seq<NameRule> := [RuleTA, RuleTSG, RulePSUM, RuleReflected, NameRule(IncomingPrefixes, "RSWR"),
                                          RuleDW, RuleRH, RuleVW, RuleP, RuleILWR, RuleTSS, RuleVWMax]

  /** identifyField as intended: incoming short wave is ISWR and WS_MAX is tested before WS. */
  const Rules: seq<NameRule> := [RuleTA, RuleTSG, RulePSUM, RuleReflected, NameRule(IncomingPrefixes, "ISWR"),
                                 RuleDW, RuleRH, RuleVWMax, RuleVW, RuleP, RuleILWR, RuleTSS]

  function IdentifyFieldAsWritten(f: string): (n: string)
    ensures n == FirstRule(RulesAsWritten, f)
  {
    FirstRule(RulesAsWritten, f)
  }

  /** The MeteoIO names identifyField can produce. */
  const KnownNames: set<string> := {"TA", "TSG", "PSUM", "RSWR", "ISWR", "DW", "RH", "VW", "P", "ILWR", "TSS", "VW_MAX"}

  /** identifyField: a MeteoIO name for a known column-name prefix, the name unchanged otherwise. */
  function IdentifyField(f: string): (n: string)
    ensures n == f || n in KnownNames
  {
    FirstRule(Rules, f)
  }

  /** The first matching rule decides. */
  lemma {:induction false} FirstRuleIs(rules: seq<NameRule>, f: string, k: nat)
    requires k < |rules| && RuleMatches(rules[k], f)
    requires forall j :: 0 <= j < k ==> !RuleMatches(rules[j], f)
    ensures FirstRule(rules, f) == rules[k].name
  {
    if k > 0 {
      assert !RuleMatches(rules[0], f);
      assert forall j :: 0 <= j < k - 1 ==> rules[1..][j] == rules[j + 1];
      FirstRuleIs(rules[1..], f, k - 1);
    }
  }

  /** A prefix that differs from the field at some index does not match. */
  lemma NotPrefix(f: string, p: string, i: nat)
    requires i < |p| && (i >= |f| || f[i] != p[i])
    ensures !StartsWith(f, p)
  {
    if |p| <= |f| {
      assert f[..|p|][i] == f[i];
    }
  }

  /** The seven rules before the wind-velocity rules, which a name starting with `WS` never matches. */
  lemma NoEarlyRuleForWs(f: string, rules: seq<NameRule>)
    requires |f| >= 2 && f[0] == 'W' && f[1] == 'S'
    requires |rules| >= 7 && forall j :: 0 <= j < 7 ==> rules[j].prefixes == RulesAsWritten[j].prefixes
    ensures forall j :: 0 <= j < 7 ==> !RuleMatches(rules[j], f)
  {
    forall j, p | 0 <= j < 7 && p in rules[j].prefixes
      ensures !StartsWith(f, p)
    {
      assert p in RulesAsWritten[j].prefixes;
      if p == "WIND_DIRECTION" || p == "WD" { NotPrefix(f, p, 1); } else { NotPrefix(f, p, 0); }
    }
  }

  /**
   * As written, a column whose name starts with WS_MAX (a gust) is read
   * as wind velocity, since the WS prefix is tested first; ordered as
   * intended it is the maximum wind velocity.
   */
  lemma WsMaxReadAsWind(f: string)
    requires StartsWith(f, "WS_MAX")
    ensures IdentifyFieldAsWritten(f) == "VW"
    ensures IdentifyField(f) == "VW_MAX"
  {
    assert f[..6] == "WS_MAX";
    assert f[0] == 'W' && f[1] == 'S';
    assert StartsWith(f, "WS") by { assert f[..2] == f[..6][..2]; }
    assert RuleMatches(RulesAsWritten[7], f) by { assert "WS" in RuleVW.prefixes; }
    assert RuleMatches(Rules[7], f) by { assert "WS_MAX" in RuleVWMax.prefixes; }
    NoEarlyRuleForWs(f, RulesAsWritten);
    NoEarlyRuleForWs(f, Rules);
    FirstRuleIs(RulesAsWritten, f, 7);
    FirstRuleIs(Rules, f, 7);
  }

  /** As written, an INCOMING_RADIATION column is taken for reflected short wave radiation; as intended it is incoming. */
  lemma IncomingRadiationRead(f: string)
    requires StartsWith(f, "INCOMING_RADIATION")
    ensures IdentifyFieldAsWritten(f) == "RSWR"
    ensures IdentifyField(f) == "ISWR"
  {
    assert f[0] == 'I' by { assert f[..18][0] == f[0]; }
    forall j, p | 0 <= j < 4 && p in Rules[j].prefixes
      ensures !StartsWith(f, p)
    {
      NotPrefix(f, p, 0);
    }
    assert RuleMatches(Rules[4], f) by { assert IncomingPrefixes[0] in Rules[4].prefixes; }
    assert RuleMatches(RulesAsWritten[4], f) by { assert IncomingPrefixes[0] in RulesAsWritten[4].prefixes; }
    FirstRuleIs(RulesAsWritten, f, 4);
    FirstRuleIs(Rules, f, 4);
  }

  // ---------------------------------------------------------------- metadata from headers and file names

  /** The station metadata that header and filename parsing assign. */
  datatype HeaderMeta = HeaderMeta(id: string, name: string, nodata: string, singleField: string,
                                   altitude: real, slope: real, azi: real)

  /** The coordinates setFile collects before building the location. */
  datatype Position = Position(lat: real, lon: real, easting: real, northing: real)

  /** The functions standing for IOUtils and MeteoData calls of the metadata parsing. */
  datatype MetaConversions = MetaConversions(
    toReal: string -> Option<real>,         // IOUtils::convertString to double
    isStaticParam: string -> bool,          // MeteoData::getStaticParameterIndex != npos
    replaceInvalidChars: string -> string)  // IOUtils::replaceInvalidChars

  const NumericKeys: set<string> := {"ALT", "LON", "LAT", "SLOPE", "AZI", "EASTING", "NORTHING"}
  const TextKeys: set<string> := {"ID", "NAME", "NODATA", "SKIP", "PARAM"}

  /** The parameter named by a PARAM field: a MeteoIO name as it is, anything else cleaned and identified. */
  function ParamName(v: string, conv: MetaConversions): (p: string)
    ensures conv.isStaticParam(Upper(v)) ==> p == Upper(v)
    ensures !conv.isStaticParam(Upper(v)) ==> p == IdentifyField(conv.replaceInvalidChars(Upper(v)))
  {
    var u := Upper(v);
    if conv.isStaticParam(u) then u else IdentifyField(conv.replaceInvalidChars(u))
  }

  function SetNumeric(m: HeaderMeta, p: Position, key: string, x: real): (r: (HeaderMeta, Position))
    requires key in NumericKeys
  {
    if key == "ALT" then (m.(altitude := x), p)
    else if key == "LON" then (m, p.(lon := x))
    else if key == "LAT" then (m, p.(lat := x))
    else if key == "SLOPE" then (m.(slope := x), p)
    else if key == "AZI" then (m.(azi := x), p)
    else if key == "EASTING" then (m, p.(easting := x))
    else (m, p.(northing := x))
  }

  /**
   * assignMetadataVariable: ID and NAME are kept when already set, NODATA
   * and PARAM replace, SKIP does nothing, the numeric keys need a number,
   * and an unknown key is a format error.
   */
  function AssignMetadata(m: HeaderMeta, p: Position, fieldType: string, fieldVal: string,
                          conv: MetaConversions): (r: Result<(HeaderMeta, Position)>)
    ensures r.Err? <==> fieldType !in TextKeys && (fieldType !in NumericKeys || conv.toReal(fieldVal).None?)
    ensures r.Err? ==> r.kind == (if fieldType in NumericKeys then InvalidArgument else InvalidFormat)
    ensures fieldType == "ID" ==> r == Ok((if m.id == "" then m.(id := fieldVal) else m, p))
    ensures fieldType == "NAME" ==> r == Ok((if m.name == "" then m.(name := fieldVal) else m, p))
    ensures fieldType == "NODATA" ==> r == Ok((m.(nodata := fieldVal), p))
    ensures fieldType == "SKIP" ==> r == Ok((m, p))
    ensures fieldType == "PARAM" ==> r == Ok((m.(singleField := ParamName(fieldVal, conv)), p))
    ensures r.Ok? && fieldType in NumericKeys ==> r.value == SetNumeric(m, p, fieldType, conv.toReal(fieldVal).value)
    ensures r.Ok? ==> r.value.0.id == (if fieldType == "ID" && m.id == "" then fieldVal else m.id)
    ensures r.Ok? ==> r.value.0.name == (if fieldType == "NAME" && m.name == "" then fieldVal else m.name)
  {
    if fieldType == "ID" then Ok((if m.id == "" then m.(id := fieldVal) else m, p))
    else if fieldType == "NAME" then Ok((if m.name == "" then m.(name := fieldVal) else m, p))
    else if fieldType == "NODATA" then Ok((m.(nodata := fieldVal), p))
    else if fieldType == "SKIP" then Ok((m, p))
    else if fieldType == "PARAM" then Ok((m.(singleField := ParamName(fieldVal, conv)), p))
    else if fieldType in NumericKeys then
      match conv.toReal(fieldVal)
      case None => Err(InvalidArgument)
      case Some(x) => Ok(SetNumeric(m, p, fieldType, x))
    else Err(InvalidFormat)
  }

  /** A (type, value) pair read from a header cell or a filename variable. */
  datatype Entry = Entry(fieldType: string, value: string)

  /** The running state of parseSpecialHeaders / parseFileName: metadata, coordinates and the ID/NAME prefixes. */
  datatype Assigned = Assigned(m: HeaderMeta, p: Position, prevId: string, prevName: string)

  /** One entry: ID and NAME append to what this run read before (when the user set neither), the rest is assigned. */
  function AssignEntry(st: Assigned, e: Entry, readId: bool, readName: bool, conv: MetaConversions): (r: Result<Assigned>)
  {
    if e.fieldType == "ID" && readId then
      var id := st.prevId + e.value;
      Ok(st.(m := st.m.(id := id), prevId := id + "-"))
    else if e.fieldType == "NAME" && readName then
      var name := st.prevName + e.value;
      Ok(st.(m := st.m.(name := name), prevName := name + "-"))
    else
      match AssignMetadata(st.m, st.p, e.fieldType, e.value, conv)
      case Err(k) => Err(k)
      case Ok(mp) => Ok(st.(m := mp.0, p := mp.1))
  }

  /** The entries applied in order; the first failure ends the run. */
  function AssignEntries(st: Assigned, es: seq<Entry>, readId: bool, readName: bool, conv: MetaConversions): (r: Result<Assigned>)
  {
    if es == [] then Ok(st)
    else
      var n := |es| - 1;
      match AssignEntries(st, es[..n], readId, readName, conv)
      case Err(k) => Err(k)
      case Ok(s1) => AssignEntry(s1, es[n], readId, readName, conv)
  }

  /** The values of the ID entries, in order. */
  function IdValues(es: seq<Entry>): (vs: seq<string>)
    ensures |vs| <= |es|
  {
    if es == [] then []
    else
      var n := |es| - 1;
      IdValues(es[..n]) + (if es[n].fieldType == "ID" then [es[n].value] else [])
  }

  /** Values joined with `-`. */
  function JoinDash(vs: seq<string>): (s: string)
  {
    if vs == [] then "" else if |vs| == 1 then vs[0] else JoinDash(vs[..|vs| - 1]) + "-" + vs[|vs| - 1]
  }

  /**
   * When the user set no ID, repeated ID values are joined with `-`: the
   * resulting ID is all ID values read, in order, separated by dashes.
   */
  lemma {:induction false} IdsJoined(st: Assigned, es: seq<Entry>, readName: bool, conv: MetaConversions)
    requires st.prevId == "" && st.m.id == ""
    requires AssignEntries(st, es, true, readName, conv).Ok?
    ensures var r := AssignEntries(st, es, true, readName, conv).value;
      r.m.id == JoinDash(IdValues(es)) && (IdValues(es) == [] ==> r.prevId == "") &&
      (IdValues(es) != [] ==> r.prevId == r.m.id + "-")
  {
    if es != [] {
      var n := |es| - 1;
      var s1 := AssignEntries(st, es[..n], true, readName, conv);
      IdsJoined(st, es[..n], readName, conv);
      var vs := IdValues(es[..n]);
      if es[n].fieldType == "ID" {
        assert IdValues(es) == vs + [es[n].value];
        if vs != [] {
          assert (vs + [es[n].value])[..|vs|] == vs;
        }
      } else {
        assert IdValues(es) == vs;
      }
    }
  }

  /**
   * The entries read in order until the error that ended the reading, if
   * any: the source assigns each entry as soon as it is read, so the
   * assignments before the error still happen, and one of them may fail
   * first.
   */
  datatype Walk = Walk(entries: seq<Entry>, stop: Option<ErrorKind>)

  /** The entries of a walk assigned in order, then the walk's own error. */
  function ApplyWalk(st: Assigned, w: Walk, readId: bool, readName: bool, conv: MetaConversions): (r: Result<Assigned>)
    ensures AssignEntries(st, w.entries, readId, readName, conv).Err? ==> r == AssignEntries(st, w.entries, readId, readName, conv)
    ensures AssignEntries(st, w.entries, readId, readName, conv).Ok? ==>
      r == (if w.stop.Some? then Err(w.stop.value) else AssignEntries(st, w.entries, readId, readName, conv))
  {
    match AssignEntries(st, w.entries, readId, readName, conv)
    case Err(k) => Err(k)
    case Ok(s1) => if w.stop.Some? then Err(w.stop.value) else Ok(s1)
  }

  predicate ColumnMissing(cells: seq<string>, h: HeaderSpec)
  {
    h.column > |cells| || h.column == 0
  }

  /**
   * The entries parseSpecialHeaders reads from one header line: the cells
   * of the specifications for that line, unquoted, until a column beyond
   * the line (columns start at 1), which refers to a non-existent field.
   */
  function HeaderEntries(cells: seq<string>, specs: seq<HeaderSpec>, removeQuotes: string -> string): (w: Walk)
    ensures |w.entries| <= |specs|
    ensures forall i :: 0 <= i < |w.entries| ==> (!ColumnMissing(cells, specs[i]) &&
      w.entries[i] == Entry(Upper(specs[i].fieldType), removeQuotes(cells[specs[i].column - 1])))
    ensures w.stop.None? <==> forall i :: 0 <= i < |specs| ==> !ColumnMissing(cells, specs[i])
    ensures w.stop.None? ==> |w.entries| == |specs|
    ensures w.stop.Some? ==> w.stop.value == InvalidArgument && |w.entries| < |specs| && ColumnMissing(cells, specs[|w.entries|])
  {
    if specs == [] then Walk([], None)
    else if ColumnMissing(cells, specs[0]) then Walk([], Some(InvalidArgument))
    else
      var rest := HeaderEntries(cells, specs[1..], removeQuotes);
      Walk([Entry(Upper(specs[0].fieldType), removeQuotes(cells[specs[0].column - 1]))] + rest.entries, rest.stop)
  }

  /** parseSpecialHeaders on one header line: the entries of that line's specifications, applied in order. */
  function SpecialHeaders(st: Assigned, cells: seq<string>, linenr: nat, specs: seq<HeaderSpec>, removeQuotes: string -> string,
                          readId: bool, readName: bool, conv: MetaConversions): Result<Assigned>
  {
    ApplyWalk(st, HeaderEntries(cells, OnLine(specs, linenr), removeQuotes), readId, readName, conv)
  }

  /**
   * The variables of a filename specification such as `{ID}_{NAME}`
   * matched against a file name without directory and extension: a literal
   * prefix must match, and each variable's value runs up to the next
   * occurrence of the literal that follows it. Positions are integers
   * because the source's size_t arithmetic can wrap below zero, which
   * then behaves like a position past the end.
   */
  function FileNameEntries(filename: string, spec: string): (w: Walk)
    ensures w.stop.Some? ==> w.stop.value == InvalidFormat || w.stop.value == OutOfRange
    ensures (spec == "" || spec[0] != '{') && (w.entries != [] || w.stop.None?) ==>
      FindChar(spec, '{', 0).Some? && var sv := FindChar(spec, '{', 0).value;
      sv <= |filename| && filename[..sv] == spec[..sv]
  {
    if spec != "" && spec[0] == '{' then FileNameWalk(filename, spec, 0, 0)
    else
      match FindChar(spec, '{', 0)
      case None => Walk([], Some(InvalidFormat))
      case Some(sv) =>
        var head := if sv <= |filename| then filename[..sv] else filename;
        if head != spec[..sv] then Walk([], Some(InvalidFormat))
        else FileNameWalk(filename, spec, sv, sv)
  }

  /** One pass of the do-while loop of parseFileName, from a `{` of the specification. */
  function FileNameWalk(filename: string, spec: string, posFn: int, posMt: nat): (w: Walk)
    requires posMt < |spec| && spec[posMt] == '{'
    ensures w.stop.Some? ==> w.stop.value == InvalidFormat || w.stop.value == OutOfRange
    decreases |spec| - posMt
  {
    var startPattern := FindChar(spec, '}', posMt);
    var endPattern := FindChar(spec, '{', posMt + 1);
    match startPattern
    case None => if endPattern.Some? then Walk([], Some(InvalidFormat)) else Walk([], None)
    case Some(sp) =>
      var fieldType := Upper(spec[posMt + 1..sp]);
      match endPattern
      case None =>
        if posFn < 0 || posFn > |filename| then Walk([], Some(OutOfRange))
        else Walk([Entry(fieldType, filename[posFn..])], None)
      case Some(ep) =>
        var pattern := if ep > sp then spec[sp + 1..ep] else spec[sp + 1..];
        var found := if posFn < 0 then None else Find(filename, pattern, posFn);
        match found
        case None => Walk([], Some(InvalidFormat))
        case Some(f) =>
          var rest := FileNameWalk(filename, spec, f + (ep - sp - 1), ep);
          Walk([Entry(fieldType, filename[posFn..f])] + rest.entries, rest.stop)
  }

  /** `sub` occurs at `q` and nowhere in `lo..q`. */
  predicate FirstOccurrence(s: string, sub: string, lo: nat, q: nat)
  {
    lo <= q && OccursAt(s, sub, q) && forall j :: lo <= j < q ==> !OccursAt(s, sub, j)
  }

  /** A variable followed by a literal takes the text up to the first occurrence of that literal. */
  lemma FileNameWalkValue(filename: string, spec: string, posFn: nat, posMt: nat)
    requires posMt < |spec| && spec[posMt] == '{'
    requires FileNameWalk(filename, spec, posFn, posMt).entries != []
    requires FindChar(spec, '}', posMt).Some? && FindChar(spec, '{', posMt + 1).Some?
    requires FindChar(spec, '{', posMt + 1).value > FindChar(spec, '}', posMt).value
    ensures var sp := FindChar(spec, '}', posMt).value;
            var ep := FindChar(spec, '{', posMt + 1).value;
            var e := FileNameWalk(filename, spec, posFn, posMt).entries[0];
            e.fieldType == Upper(spec[posMt + 1..sp]) &&
            posFn + |e.value| <= |filename| && filename[posFn..posFn + |e.value|] == e.value &&
            FirstOccurrence(filename, spec[sp + 1..ep], posFn, posFn + |e.value|)
  {
    var sp := FindChar(spec, '}', posMt).value;
    var ep := FindChar(spec, '{', posMt + 1).value;
    var f := FileNameWalkHead(filename, spec, posFn, posMt, sp, ep);
    var pattern := spec[sp + 1..ep];
    assert posFn <= f && OccursAt(filename, pattern, f);
    var e := FileNameWalk(filename, spec, posFn, posMt).entries[0];
    assert e.value == filename[posFn..f] && posFn + |e.value| == f;
    assert FirstOccurrence(filename, pattern, posFn, f);
  }

  /** The first entry of a walk whose variable is followed by a literal, and where that literal was found. */
  lemma FileNameWalkHead(filename: string, spec: string, posFn: nat, posMt: nat, sp: nat, ep: nat) returns (f: nat)
    requires posMt < |spec| && spec[posMt] == '{'
    requires FileNameWalk(filename, spec, posFn, posMt).entries != []
    requires FindChar(spec, '}', posMt) == Some(sp) && FindChar(spec, '{', posMt + 1) == Some(ep) && ep > sp
    ensures Find(filename, spec[sp + 1..ep], posFn) == Some(f)
    ensures FileNameWalk(filename, spec, posFn, posMt).entries[0] == Entry(Upper(spec[posMt + 1..sp]), filename[posFn..f])
  {
    f := Find(filename, spec[sp + 1..ep], posFn).value;
  }

  /** A variable that ends the specification takes the rest of the file name. */
  lemma FileNameWalkLast(filename: string, spec: string, posFn: nat, posMt: nat)
    requires posMt < |spec| && spec[posMt] == '{'
    requires FindChar(spec, '}', posMt).Some? && FindChar(spec, '{', posMt + 1).None?
    requires posFn <= |filename|
    ensures FileNameWalk(filename, spec, posFn, posMt) ==
      Walk([Entry(Upper(spec[posMt + 1..FindChar(spec, '}', posMt).value]), filename[posFn..])], None)
  {
  }

  // ---------------------------------------------------------------- units

  /** What setUnits does for one upper-cased, unquoted unit. */
  datatype UnitAction = NoConversion | Scale(multiplier: real) | Shift(offset: real) | Affine(multiplier: real, offset: real) | Unrecognised

  const NoConvUnits: set<string> := {"TS", "RN", "W/M2", "M/S", "K", "M", "N", "V", "VOLT", "DEG", "°", "KG/M2"}
  const EmptyUnits: set<string> := {"", "1", "-", "0 OR 1", "0/1", "??"}

  /** The unit table, with the lower-case "pc" test as it is written. */
  function UnitActionAsWritten(u: string): (a: UnitAction)
    ensures u == "%" ==> a == Scale(0.01)
  {
    if u in EmptyUnits || u in NoConvUnits then NoConversion
    else if u == "%" || u == "pc" || u == "CM" then Scale(0.01)
    else UnitTail(u)
  }

  /** The unit table as intended: the percent alias is compared upper-cased like every other unit. */
  function UnitActionOf(u: string): (a: UnitAction)
    ensures u == "%" || u == "PC" || u == "CM" ==> a == Scale(0.01)
    ensures u == "C" || u == "DEGC" || u == "GRAD C" || u == "°C" ==> a == Shift(FreezingPoint)
    ensures u == "F" ==> a == Affine(5.0 / 9.0, -32.0 * 5.0 / 9.0)
    ensures u in EmptyUnits || u in NoConvUnits ==> a == NoConversion
  {
    if u in EmptyUnits || u in NoConvUnits then NoConversion
    else if u == "%" || u == "PC" || u == "CM" then Scale(0.01)
    else UnitTail(u)
  }

  function UnitTail(u: string): (a: UnitAction)
    ensures u == "F" ==> a == Affine(5.0 / 9.0, -32.0 * 5.0 / 9.0)
  {
    if u == "C" || u == "DEGC" || u == "GRAD C" || u == "°C" then Shift(FreezingPoint)
    else if u == "HPA" then Scale(100.0)
    else if u == "MM" || u == "MV" || u == "MA" then Scale(0.001)
    else if u == "MIN" then Scale(60.0)
    else if u == "IN" then Scale(0.0254)
    else if u == "FT" then Scale(0.3048)
    else if u == "F" then Affine(5.0 / 9.0, -32.0 * 5.0 / 9.0)
    else if u == "KM/H" then Scale(1.0 / 3.6)
    else if u == "MPH" then Scale(1.60934 / 3.6)
    else if u == "KT" then Scale(1.852 / 3.6)
    else Unrecognised
  }

  /** Upper-casing leaves no lower-case letter, so as written "pc" (in any case) is never recognised. */
  lemma PercentAliasUnreachable(raw: string)
    ensures Upper(raw) != "pc"
    ensures UnitActionAsWritten(Upper("pc")) == Unrecognised
    ensures UnitActionOf(Upper("pc")) == Scale(0.01)
  {
    UpperChars(raw);
    if |raw| > 0 {
      assert !('a' <= Upper(raw)[0] <= 'z');
    }
    assert Upper("pc") == "PC";
  }

  /** The table as written and as intended agree on every unit but the "pc" alias. */
  lemma UnitTablesAgree(u: string)
    requires u != "pc" && u != "PC"
    ensures UnitActionOf(u) == UnitActionAsWritten(u)
  {
  }

  /** The multiplier a unit sets, when it sets one. */
  function MultiplierOf(a: UnitAction, dflt: real): real
  {
    match a
    case Scale(m) => m
    case Affine(m, _) => m
    case _ => dflt
  }

  /** The offset a unit sets, when it sets one. */
  function OffsetOf(a: UnitAction, dflt: real): real
  {
    match a
    case Shift(o) => o
    case Affine(_, o) => o
    case _ => dflt
  }

  /** std::vector::resize: the first entries kept, the new ones set to `d`. */
  function Resize(v: seq<real>, n: nat, d: real): (r: seq<real>)
    ensures |r| == n
    ensures forall i :: 0 <= i < n ==> r[i] == (if i < |v| then v[i] else d)
  {
    if n <= |v| then v[..n] else v + seq(n - |v|, i => d)
  }

  // ---------------------------------------------------------------- date/time spec strings

  /** The placeholder keys of a date/time spec, by ISO slot: year, month, day, hour, minute, second. */
  const DateKeys: seq<string> := ["YYYY", "MM", "DD", "HH24", "MI", "SS"]
  /** The keys of a time spec, by slot: hour, minute, second. */
  const TimeKeys: seq<string> := ["HH24", "MI", "SS"]

  /** Non-decreasing in the position component. */
  predicate ByPosition(r: seq<(nat, nat)>)
  {
    forall i, j :: 0 <= i < j < |r| ==> r[i].0 <= r[j].0
  }

  predicate SlotsDistinct(r: seq<(nat, nat)>)
  {
    forall i, j :: 0 <= i < j < |r| ==> r[i].1 != r[j].1
  }

  /** A (position, slot) pair put after every pair at or before its position. */
  function InsertByPos(r: seq<(nat, nat)>, e: (nat, nat)): (res: seq<(nat, nat)>)
    requires ByPosition(r) && SlotsDistinct(r) && forall x :: x in r ==> x.1 != e.1
    ensures ByPosition(res) && SlotsDistinct(res) && |res| == |r| + 1
    ensures forall x :: x in res <==> x in r || x == e
  {
    if r == [] then [e]
    else if e.0 < r[0].0 then
      assert forall x :: x in r ==> e.0 <= x.0 by {
        forall x | x in r ensures e.0 <= x.0 {
          var k :| 0 <= k < |r| && r[k] == x;
          assert k == 0 || r[0].0 <= r[k].0;
        }
      }
      ConsByPosition(e, r);
      [e] + r
    else
      var rest := InsertByPos(r[1..], e);
      assert forall x :: x in r[1..] ==> x in r;
      assert forall x :: x in rest ==> r[0].0 <= x.0 && r[0].1 != x.1;
      ConsByPosition(r[0], rest);
      [r[0]] + rest
  }

  /** A pair at or before every position and with a slot of its own can lead a list by position. */
  lemma ConsByPosition(h: (nat, nat), rest: seq<(nat, nat)>)
    requires ByPosition(rest) && SlotsDistinct(rest)
    requires forall x :: x in rest ==> h.0 <= x.0 && h.1 != x.1
    ensures ByPosition([h] + rest) && SlotsDistinct([h] + rest)
  {
    var l := [h] + rest;
    forall i, j | 0 <= i < j < |l| ensures l[i].0 <= l[j].0 && l[i].1 != l[j].1 {
      assert l[j] == rest[j - 1];
      if i > 0 {
        assert l[i] == rest[i - 1];
      } else {
        assert l[j] in rest;
      }
    }
  }

  /** The (first position, slot) pairs of the keys below `n` that occur in the spec, by position. */
  function FoundKeys(spec: string, keys: seq<string>, n: nat): (r: seq<(nat, nat)>)
    requires n <= |keys|
    ensures ByPosition(r) && SlotsDistinct(r) && |r| <= n
    ensures forall e :: e in r <==> e.1 < n && Find(spec, keys[e.1], 0) == Some(e.0)
  {
    if n == 0 then []
    else
      var prev := FoundKeys(spec, keys, n - 1);
      match Find(spec, keys[n - 1], 0)
      case None => prev
      case Some(pos) => InsertByPos(prev, (pos, n - 1))
  }

  /** The slot components, in order. */
  function SlotsOf(f: seq<(nat, nat)>): (r: seq<nat>)
    ensures |r| == |f| && forall i :: 0 <= i < |f| ==> r[i] == f[i].1
  {
    if f == [] then [] else [f[0].1] + SlotsOf(f[1..])
  }

  /** The slots of the spec's keys in the order they appear in the spec (std::sort on the first positions). */
  function SlotOrder(spec: string, keys: seq<string>): (r: seq<nat>)
    ensures |r| <= |keys|
    ensures forall k :: 0 <= k < |keys| ==> (k in r <==> Find(spec, keys[k], 0).Some?)
    ensures forall i :: 0 <= i < |r| ==> r[i] < |keys| && Find(spec, keys[r[i]], 0).Some?
    ensures forall i, j :: 0 <= i < j < |r| ==> (r[i] != r[j] &&
      Find(spec, keys[r[i]], 0).value <= Find(spec, keys[r[j]], 0).value)
  {
    var f := FoundKeys(spec, keys, |keys|);
    SlotOrderMembers(spec, keys, f);
    SlotsOf(f)
  }

  lemma SlotOrderMembers(spec: string, keys: seq<string>, f: seq<(nat, nat)>)
    requires f == FoundKeys(spec, keys, |keys|)
    ensures forall k :: 0 <= k < |keys| && Find(spec, keys[k], 0).Some? ==> k in SlotsOf(f)
    ensures forall i :: 0 <= i < |f| ==> f[i].1 < |keys| && Find(spec, keys[f[i].1], 0) == Some(f[i].0)
  {
    var r := SlotsOf(f);
    forall i | 0 <= i < |f|
      ensures f[i].1 < |keys| && Find(spec, keys[f[i].1], 0) == Some(f[i].0)
    {
      assert f[i] in f;
    }
    forall k | 0 <= k < |keys| && Find(spec, keys[k], 0).Some?
      ensures k in r
    {
      var e := (Find(spec, keys[k], 0).value, k);
      assert e in f;
      var i :| 0 <= i < |f| && f[i] == e;
      assert r[i] == k;
    }
  }

  /** Two keys occurring at positions p and q that differ at index k mean p != q. */
  lemma DifferentAt(s: string, a: string, b: string, p: nat, q: nat, k: nat)
    requires OccursAt(s, a, p) && OccursAt(s, b, q) && k < |a| && k < |b| && a[k] != b[k]
    ensures p != q
  {
    assert s[p..p + |a|][k] == a[k];
    assert s[q..q + |b|][k] == b[k];
  }

  /** Two different keys of a date spec never share a first position, so the sort meets no ties. */
  lemma DateKeyPositionsDistinct(spec: string, i: nat, j: nat)
    requires i < j < |DateKeys|
    requires Find(spec, DateKeys[i], 0).Some? && Find(spec, DateKeys[j], 0).Some?
    ensures Find(spec, DateKeys[i], 0).value != Find(spec, DateKeys[j], 0).value
  {
    var p := Find(spec, DateKeys[i], 0).value;
    var q := Find(spec, DateKeys[j], 0).value;
    DifferentAt(spec, DateKeys[i], DateKeys[j], p, q, if i == 1 && j == 4 then 1 else 0);
  }

  /** IOUtils::replace_all: every occurrence, left to right and without overlap, replaced. */
  function ReplaceAll(s: string, from: string, to: string): (r: string)
    requires from != ""
    decreases |s|
  {
    if |s| < |from| then s
    else if s[..|from|] == from then to + ReplaceAll(s[|from|..], from, to)
    else [s[0]] + ReplaceAll(s[1..], from, to)
  }

  /** IOUtils::count: the non-overlapping occurrences of a non-empty substring. */
  function CountSub(s: string, sub: string): (n: nat)
    requires sub != ""
    decreases |s|
  {
    if |s| < |sub| then 0
    else if s[..|sub|] == sub then 1 + CountSub(s[|sub|..], sub)
    else CountSub(s[1..], sub)
  }

  /** The scanf conversions a compiled format may hold. */
  function Placeholders(s: string): nat
  {
    CountSub(s, "%f") + CountSub(s, "%2f") + CountSub(s, "%4f") + CountSub(s, "%32s")
  }

  /**
   * checkSpecString: as many `%` as parameters, every `%` the start of a
   * known conversion, and no `%%`.
   */
  predicate SpecStringValid(s: string, nrParams: nat)
  {
    CountChar(s, '%') == nrParams && CountChar(s, '%') == Placeholders(s) && Find(s, "%%", 0).None?
  }

  /** The date/time keys replaced by scanf conversions, in the source's order. */
  function DateFormatOf(s: string): string
  {
    var s1 := ReplaceAll(s, "DD", "%2f");
    var s2 := ReplaceAll(s1, "MM", "%2f");
    var s3 := ReplaceAll(s2, "YYYY", "%4f");
    TimeFormatOf(s3)
  }

  function TimeFormatOf(s: string): string
  {
    var s1 := ReplaceAll(s, "HH24", "%2f");
    var s2 := ReplaceAll(s1, "MI", "%2f");
    ReplaceAll(s2, "SS", "%f")
  }

  /** A TZ key is accepted only as the last two characters; it becomes a string conversion. */
  function TzReplaced(spec: string): (r: Result<(string, bool)>)
    ensures Find(spec, "TZ", 0).None? ==> r == Ok((spec, false))
    ensures Find(spec, "TZ", 0).Some? ==> (r.Ok? <==> Find(spec, "TZ", 0).value == |spec| - 2)
    ensures r.Ok? && r.value.1 ==> r.value.0 == spec[..|spec| - 2] + "%32s"
    ensures r.Err? ==> r.kind == InvalidFormat
  {
    match Find(spec, "TZ", 0)
    case None => Ok((spec, false))
    case Some(p) => if p != |spec| - 2 then Err(InvalidFormat) else Ok((spec[..p] + "%32s" + spec[p + 2..], true))
  }

  /** The default combined spec, the ISO 8601 complete date and time representation. */
  const DefaultDateTimeSpec: string := "YYYY-MM-DDTHH24:MI:SS"
  /** The default time spec of a separate time column. */
  const DefaultTimeSpec: string := "HH24:MI:SS"

  // ---------------------------------------------------------------- decimal dates and component dates

  /** The decimal date representations, as in Date. */
  datatype DecimalKind = Excel | Julian | MJulian | Matlab | Rfc868 | Unix

  function DecimalName(k: DecimalKind): string
  {
    match k
    case Excel => "EXCEL"
    case Julian => "JULIAN"
    case MJulian => "MJULIAN"
    case Matlab => "MATLAB"
    case Rfc868 => "RFC868"
    case Unix => "UNIX"
  }

  /** setDecimalDateType on the upper-cased name: exactly the six kinds are known. */
  function DecimalKindOf(s: string): (r: Result<DecimalKind>)
    ensures r.Ok? ==> DecimalName(r.value) == Upper(s)
    ensures r.Err? ==> r.kind == InvalidArgument && forall k: DecimalKind :: DecimalName(k) != Upper(s)
  {
    var u := Upper(s);
    if u == "EXCEL" then Ok(Excel)
    else if u == "JULIAN" then Ok(Julian)
    else if u == "MJULIAN" then Ok(MJulian)
    else if u == "MATLAB" then Ok(Matlab)
    else if u == "RFC868" then Ok(Rfc868)
    else if u == "UNIX" then Ok(Unix)
    else Err(InvalidArgument)
  }

  /** Every kind is recognised by its name, in any case of its letters. */
  lemma DecimalKindRoundTrip(k: DecimalKind, s: string)
    requires Upper(s) == DecimalName(k)
    ensures DecimalKindOf(s) == Ok(k)
  {
  }

  /** A timestamp as the parsing builds it; its calendar arithmetic is left to Date. */
  datatype DateValue =
    | Undef
    | Components(year: int, month: int, day: int, hour: int, minute: int, second: real, tz: real)
    | YearAndJdn(year: int, jdn: real, tz: real)
    | Decimal(kind: DecimalKind, value: real, tz: real)
    | UnixTime(seconds: int)

  predicate Integral(x: real) { x == x.Floor as real }

  /** createDate: the year to minute arguments must be whole numbers, else the date is undefined. */
  function CreateDate(args: seq<real>, tz: real): (d: DateValue)
    requires |args| == 6
    ensures d.Undef? <==> exists i :: 0 <= i < 5 && !Integral(args[i])
    ensures d.Components? ==> d == Components(args[0].Floor, args[1].Floor, args[2].Floor, args[3].Floor, args[4].Floor, args[5], tz)
    ensures d.Components? ==> forall i :: 0 <= i < 5 ==> args[i] == args[i].Floor as real
  {
    if exists i :: 0 <= i < 5 && !Integral(args[i]) then Undef
    else Components(args[0].Floor, args[1].Floor, args[2].Floor, args[3].Floor, args[4].Floor, args[5], tz)
  }

  /** The column roles of parseFields, by the cleaned column name. */
  datatype Role = Timestamp | DateStr | TimeStr | SkipCol | YearCol | JdnCol | MonthCol | DayCol
                | NTimeCol | HoursCol | MinutesCol | SecondsCol | IdCol | DataCol

  function RoleOf(tmp: string): (r: Role)
    ensures tmp == "" ==> r == DataCol
  {
    if tmp == "TIMESTAMP" || tmp == "TS" || tmp == "DATETIME" then Timestamp
    else if tmp == "DATE" || tmp == "GIORNO" || tmp == "FECHA" then DateStr
    else if tmp == "TIME" || tmp == "ORA" || tmp == "HORA" then TimeStr
    else if tmp == "SKIP" then SkipCol
    else if tmp == "YEAR" then YearCol
    else if tmp == "JDAY" || tmp == "JDN" || tmp == "YDAY" || tmp == "DAY_OF_YEAR" || tmp == "DOY" then JdnCol
    else if tmp == "MONTH" then MonthCol
    else if tmp == "DAY" then DayCol
    else if tmp == "NTIME" then NTimeCol
    else if tmp == "HOUR" || tmp == "HOURS" then HoursCol
    else if tmp == "MINUTE" || tmp == "MINUTES" then MinutesCol
    else if tmp == "SECOND" || tmp == "SECONDS" then SecondsCol
    else if tmp == "ID" || tmp == "STATIONID" then IdCol
    else DataCol
  }

  /** The roles that mark the date as split into components. */
  predicate IsComponentRole(r: Role)
  {
    r in {YearCol, MonthCol, DayCol, NTimeCol, HoursCol, MinutesCol, SecondsCol}
  }
}
