/**
 * The iCSV header reader of iCSVHelper.cc/.h: the METADATA and FIELDS
 * sections as values, their compatibility test and merge, the format
 * validity check, and the iCSVFile object whose line state machine fills
 * them and whose getters answer queries over the data rows.
 *
 * The section structs and geoLocation are C++ values (copied, never
 * shared), so they are datatypes here and their mutators are functions
 * returning the new value; iCSVFile, whose members are updated while the
 * file is read, is a class.
 */
module ICsv {
  import opened Common
  import opened Meteo

  /** default_nodata of the reader (M_PI as a double): the marker of a slot nothing filled. */
  const DefaultNodata: real := 3.141592653589793

  // ---------------------------------------------------------------- geoLocation

  datatype GeoLocation = GeoLocation(x: real, y: real, z: real, slopeAngle: real, slopeAzi: real)

  /** A default-constructed geoLocation. */
  const EmptyLocation: GeoLocation := GeoLocation(DefaultNodata, DefaultNodata, DefaultNodata, DefaultNodata, DefaultNodata)

  /** isEmpty: no coordinate has been set; the slope is not looked at. */
  predicate IsEmpty(l: GeoLocation)
  {
    l.x == DefaultNodata && l.y == DefaultNodata && l.z == DefaultNodata
  }

  /** standardizeNodata: every unset coordinate becomes IOUtils::nodata; set ones and the slope stay. */
  function StandardizeNodata(l: GeoLocation): (r: GeoLocation)
    ensures r.x != DefaultNodata && r.y != DefaultNodata && r.z != DefaultNodata
    ensures l.x != DefaultNodata ==> r.x == l.x
    ensures l.y != DefaultNodata ==> r.y == l.y
    ensures l.z != DefaultNodata ==> r.z == l.z
    ensures l.x == DefaultNodata ==> r.x == Nodata
    ensures l.y == DefaultNodata ==> r.y == Nodata
    ensures l.z == DefaultNodata ==> r.z == Nodata
    ensures r.slopeAngle == l.slopeAngle && r.slopeAzi == l.slopeAzi
  {
    l.(x := if l.x == DefaultNodata then Nodata else l.x,
       y := if l.y == DefaultNodata then Nodata else l.y,
       z := if l.z == DefaultNodata then Nodata else l.z)
  }

  /** Standardizing twice changes nothing more. */
  lemma StandardizeIdempotent(l: GeoLocation)
    ensures StandardizeNodata(StandardizeNodata(l)) == StandardizeNodata(l)
  {
  }

  /** A standardized location is never empty, whatever it was before. */
  lemma StandardizedNeverEmpty(l: GeoLocation)
    ensures !IsEmpty(StandardizeNodata(l))
  {
  }

  /**
   * extractCoordinates: the last point of the first of the POINT, POINTZ or
   * three-coordinate POINT patterns that matches, standardized. `matchPoint`
   * stands for the regular-expression search; it yields an empty location
   * when nothing matches.
   */
  function ExtractCoordinates(geometry: string, matchPoint: string -> GeoLocation): (r: GeoLocation)
    ensures r == StandardizeNodata(matchPoint(geometry))
  {
    StandardizeNodata(matchPoint(geometry))
  }

  // ---------------------------------------------------------------- MetaDataSection

  datatype MetaDataSection = MetaDataSection(
    fieldDelimiter: char, geometry: string, srid: string, epsg: int, stationId: string,
    timestampMeaning: string, nodata: real, timezone: real, doi: string,
    optional: map<string, string>)

  /** A default-constructed MetaDataSection: every slot unset. */
  const DefaultMeta: MetaDataSection := MetaDataSection('0', "", "", -1, "", "", DefaultNodata, DefaultNodata, "", map[])

  /** valid_delimiters. */
  const ValidDelimiters: seq<char> := [',', '/', '\\', '|', ':', ';']

  /** extractEpsgCode: the 4 or 5 digits of a string that is exactly `EPSG:` followed by them, else "". */
  function ExtractEpsgCode(s: string): (code: string)
    ensures code != "" ==> s == "EPSG:" + code && IsDigits(code) && 4 <= |code| <= 5
    ensures code == "" ==> !(9 <= |s| <= 10 && StartsWith(s, "EPSG:") && IsDigits(s[5..]))
  {
    if 9 <= |s| <= 10 && StartsWith(s, "EPSG:") && IsDigits(s[5..]) then s[5..] else ""
  }

  /** setEPSG: the code, and an srid that spells it out. */
  function SetEPSG(m: MetaDataSection, n: int): (r: MetaDataSection)
    ensures r.epsg == n && StartsWith(r.srid, "EPSG:")
    ensures r.(epsg := m.epsg, srid := m.srid) == m
  {
    m.(epsg := n, srid := "EPSG:" + IntToString(n))
  }

  /**
   * The srid written by setEPSG passes the EPSG check exactly for codes of
   * four or five digits, and reading the code back gives `n`.
   */
  lemma SetEpsgRoundTrip(m: MetaDataSection, n: int)
    ensures ExtractEpsgCode(SetEPSG(m, n).srid) != "" <==> 1000 <= n < 100000
    ensures 1000 <= n < 100000 ==>
      ExtractEpsgCode(SetEPSG(m, n).srid) == NatToString(n) && DigitsValue(NatToString(n)) == n
  {
    var srid := SetEPSG(m, n).srid;
    assert srid[..5] == "EPSG:";
    if n >= 0 {
      assert srid[5..] == NatToString(n);
      NatToStringLength(n, 3);
      NatToStringLength(n, 5);
      NatToStringRoundTrip(n);
    } else {
      assert srid[5] == '-';
      assert !IsDigits(srid[5..]);
    }
  }

  /** The slots toOutputMap always writes, and those it writes only when set. */
  function HeaderEntries(m: MetaDataSection, realText: real -> string): (d: map<string, string>)
    ensures "field_delimiter" in d && d["field_delimiter"] == [m.fieldDelimiter]
    ensures "geometry" in d && d["geometry"] == m.geometry && "srid" in d && d["srid"] == m.srid
    ensures "station_id" in d <==> m.stationId != ""
    ensures "station_id" in d ==> d["station_id"] == m.stationId
    ensures "nodata" in d <==> m.nodata != DefaultNodata
    ensures "nodata" in d ==> d["nodata"] == realText(m.nodata)
    ensures "doi" in d <==> m.doi != ""
    ensures "doi" in d ==> d["doi"] == m.doi
    ensures "timestamp_meaning" in d <==> m.timestampMeaning != ""
    ensures "timestamp_meaning" in d ==> d["timestamp_meaning"] == m.timestampMeaning
    ensures "timezone" in d <==> m.timezone != DefaultNodata
    ensures "timezone" in d ==> d["timezone"] == realText(m.timezone)
    ensures d.Keys <= {"field_delimiter", "geometry", "srid", "station_id", "timestamp_meaning", "nodata", "timezone", "doi"}
  {
    var fixed := map["field_delimiter" := [m.fieldDelimiter], "geometry" := m.geometry, "srid" := m.srid];
    var d1 := if m.stationId != "" then fixed["station_id" := m.stationId] else fixed;
    var d2 := if m.timestampMeaning != "" then d1["timestamp_meaning" := m.timestampMeaning] else d1;
    var d3 := if m.nodata != DefaultNodata then d2["nodata" := realText(m.nodata)] else d2;
    var d4 := if m.timezone != DefaultNodata then d3["timezone" := realText(m.timezone)] else d3;
    if m.doi != "" then d4["doi" := m.doi] else d4
  }

  /**
   * toOutputMap: the header slots, then the optional metadata inserted
   * without overwriting, so a header slot wins over an optional key of the
   * same name. `realText` stands for std::to_string of a double.
   */
  function ToOutputMap(m: MetaDataSection, realText: real -> string): (d: map<string, string>)
    ensures d.Keys == HeaderEntries(m, realText).Keys + m.optional.Keys
    ensures forall k :: k in HeaderEntries(m, realText) ==> d[k] == HeaderEntries(m, realText)[k]
    ensures forall k :: k in m.optional && k !in HeaderEntries(m, realText) ==> d[k] == m.optional[k]
  {
    var h := HeaderEntries(m, realText);
    map k | k in h.Keys + m.optional.Keys :: if k in h then h[k] else m.optional[k]
  }

  /** A set header slot hides an optional key of the same name; an unset one lets it through. */
  lemma ToOutputMapStationId(m: MetaDataSection, realText: real -> string)
    ensures m.stationId != "" ==> ToOutputMap(m, realText)["station_id"] == m.stationId
    ensures m.stationId == "" && "station_id" in m.optional ==>
      ToOutputMap(m, realText)["station_id"] == m.optional["station_id"]
    ensures "station_id" in ToOutputMap(m, realText) <==> m.stationId != "" || "station_id" in m.optional
  {
  }

  /** Two settings of one slot conflict when they differ and neither is the unset marker. */
  predicate Clash<T(==)>(a: T, b: T, unset: T)
  {
    a != b && a != unset && b != unset
  }

  /**
   * The slot comparisons of roughlyEqual. The tests of field_delimiter,
   * geometry and srid have empty bodies in the source and so decide nothing.
   */
  predicate MetaSlotsClash(l: MetaDataSection, r: MetaDataSection)
  {
    Clash(l.epsg, r.epsg, -1) || Clash(l.stationId, r.stationId, "") ||
    Clash(l.timestampMeaning, r.timestampMeaning, "") || Clash(l.nodata, r.nodata, DefaultNodata) ||
    Clash(l.timezone, r.timezone, DefaultNodata) || Clash(l.doi, r.doi, "")
  }

  /**
   * `k` is the first key of `l`, in std::map order, that `r` lacks or maps
   * to another value.
   */
  predicate FirstMismatch<V(==)>(l: map<string, V>, r: map<string, V>, k: string)
  {
    k in l && !(k in r && r[k] == l[k]) &&
    forall j :: j in l && Less(j, k) ==> j in r && r[j] == l[j]
  }

  /** A finite non-empty set of strings has a least element in std::string order. */
  lemma {:induction false} LeastString(s: set<string>) returns (m: string)
    requires s != {}
    ensures m in s && forall j :: j in s ==> !Less(j, m)
    decreases |s|
  {
    var x :| x in s;
    if s == {x} {
      LessIrreflexive(x);
      return x;
    }
    var m' := LeastString(s - {x});
    if Less(x, m') {
      m := x;
      forall j | j in s
        ensures !Less(j, m)
      {
        if j == x {
          LessIrreflexive(x);
        } else if Less(j, x) {
          LessTransitive(j, x, m');
        }
      }
    } else {
      m := m';
      forall j | j in s
        ensures !Less(j, m)
      {
        if j == x {
          assert !Less(x, m');
        }
      }
    }
  }

  /** When some key of `l` is not matched in `r`, there is a first one. */
  lemma FirstMismatchExists<V>(l: map<string, V>, r: map<string, V>)
    ensures (exists k :: k in l && !(k in r && r[k] == l[k])) ==> exists k :: FirstMismatch(l, r, k)
  {
    if exists k :: k in l && !(k in r && r[k] == l[k]) {
      var k0 :| k0 in l && !(k0 in r && r[k0] == l[k0]);
      var bad := set k | k in l && !(k in r && r[k] == l[k]);
      assert k0 in bad;
      var m := LeastString(bad);
      assert FirstMismatch(l, r, m);
    }
  }

  /** There is at most one first mismatching key. */
  lemma FirstMismatchUnique<V>(l: map<string, V>, r: map<string, V>, k1: string, k2: string)
    requires FirstMismatch(l, r, k1) && FirstMismatch(l, r, k2)
    ensures k1 == k2
  {
    if k1 != k2 {
      LessTotal(k1, k2);
    }
  }

  /**
   * The loop over the keys of `l` in std::map order: false at the first key
   * whose value in `r` differs; when that key is missing from `r`, the
   * dereferenced end() iterator is undefined behaviour.
   */
  function ScanKeys<V(==)>(l: map<string, V>, r: map<string, V>): (res: Result<bool>)
    ensures res == Ok(true) <==> forall k :: k in l ==> k in r && r[k] == l[k]
    ensures res.Err? <==> exists k :: FirstMismatch(l, r, k) && k !in r
    ensures res.Err? ==> res.kind == Undefined
  {
    if exists k :: k in l && FirstMismatch(l, r, k) && k !in r then Err(Undefined)
    else if exists k :: k in l && FirstMismatch(l, r, k) then Ok(false)
    else
      FirstMismatchExists(l, r);
      Ok(true)
  }

  /** A key whose value differs, met before a missing one, gives false rather than undefined behaviour. */
  lemma ScanKeysStopsBeforeMissing()
    ensures ScanKeys(map["a" := "1", "b" := "2"], map["a" := "3"]) == Ok(false)
  {
    var l, r := map["a" := "1", "b" := "2"], map["a" := "3"];
    assert Less("a", "b");
    assert FirstMismatch(l, r, "a");
    forall k | FirstMismatch(l, r, k)
      ensures k in r
    {
      FirstMismatchUnique(l, r, k, "a");
    }
  }

  /**
   * roughlyEqual for METADATA: the slot comparisons, then the optional keys
   * of `l` looked up in `r`, the found value dereferenced without checking
   * for end().
   */
  function RoughlyEqualMeta(l: MetaDataSection, r: MetaDataSection): (res: Result<bool>)
    ensures res == Ok(true) <==> !MetaSlotsClash(l, r) && forall k :: k in l.optional ==> k in r.optional && r.optional[k] == l.optional[k]
    ensures res.Err? <==> !MetaSlotsClash(l, r) && exists k :: FirstMismatch(l.optional, r.optional, k) && k !in r.optional
    ensures res.Err? ==> res.kind == Undefined
  {
    if MetaSlotsClash(l, r) then Ok(false)
    else ScanKeys(l.optional, r.optional)
  }

  /** Every section is roughly equal to itself. */
  lemma RoughlyEqualMetaReflexive(m: MetaDataSection)
    ensures RoughlyEqualMeta(m, m) == Ok(true)
  {
  }

  /** A default section is roughly equal to any section. */
  lemma DefaultRoughlyEqualsAny(m: MetaDataSection)
    ensures RoughlyEqualMeta(DefaultMeta, m) == Ok(true)
  {
  }

  /** The delimiter, geometry and srid never make two sections incompatible. */
  lemma RoughlyEqualIgnoresLayout(l: MetaDataSection, r: MetaDataSection, c: char, g: string, s: string)
    ensures RoughlyEqualMeta(l.(fieldDelimiter := c, geometry := g, srid := s), r) == RoughlyEqualMeta(l, r)
  {
  }

  /** `v` is the left value of a slot when that is set, the right one otherwise. */
  predicate Filled<T(==)>(a: T, b: T, unset: T, v: T)
  {
    (a != unset ==> v == a) && (a == unset ==> v == b)
  }

  /** One header slot after `+=`: the left value, or the right one where the left is unset. */
  function Fill<T(==)>(a: T, b: T, unset: T): (v: T)
    ensures Filled(a, b, unset, v)
  {
    if a == unset && b != unset then b else a
  }

  /**
   * MetaDataSection operator+=: unset slots of `l` are filled from `r`, the
   * optional metadata of `r` is copied over that of `l`; incompatible
   * sections are an IOException.
   */
  function MergeMeta(l: MetaDataSection, r: MetaDataSection): (res: Result<MetaDataSection>)
    ensures RoughlyEqualMeta(l, r).Err? ==> res == Err(Undefined)
    ensures RoughlyEqualMeta(l, r) == Ok(false) ==> res == Err(IOError)
    ensures RoughlyEqualMeta(l, r) == Ok(true) <==> res.Ok?
    ensures res.Ok? ==> res.value.optional == l.optional + r.optional
    ensures res.Ok? ==> var v := res.value;
      Filled(l.fieldDelimiter, r.fieldDelimiter, '0', v.fieldDelimiter) && Filled(l.geometry, r.geometry, "", v.geometry) &&
      Filled(l.srid, r.srid, "", v.srid) && Filled(l.epsg, r.epsg, -1, v.epsg) &&
      Filled(l.stationId, r.stationId, "", v.stationId) &&
      Filled(l.timestampMeaning, r.timestampMeaning, "", v.timestampMeaning) &&
      Filled(l.nodata, r.nodata, DefaultNodata, v.nodata) && Filled(l.timezone, r.timezone, DefaultNodata, v.timezone) &&
      Filled(l.doi, r.doi, "", v.doi)
  {
    match RoughlyEqualMeta(l, r)
    case Err(k) => Err(k)
    case Ok(eq) =>
      if !eq then Err(IOError)
      else Ok(MetaDataSection(
        Fill(l.fieldDelimiter, r.fieldDelimiter, '0'), Fill(l.geometry, r.geometry, ""), Fill(l.srid, r.srid, ""),
        Fill(l.epsg, r.epsg, -1), Fill(l.stationId, r.stationId, ""), Fill(l.timestampMeaning, r.timestampMeaning, ""),
        Fill(l.nodata, r.nodata, DefaultNodata), Fill(l.timezone, r.timezone, DefaultNodata), Fill(l.doi, r.doi, ""),
        l.optional + r.optional))
  }

  /** Merging a section into itself leaves it as it is. */
  lemma MergeMetaIdempotent(m: MetaDataSection)
    ensures MergeMeta(m, m) == Ok(m)
  {
    assert m.optional + m.optional == m.optional;
  }

  /** Merging into a default section copies the other section. */
  lemma MergeIntoDefault(m: MetaDataSection)
    ensures MergeMeta(DefaultMeta, m) == Ok(m)
  {
    assert map[] + m.optional == m.optional;
  }

  /** Merging a default section into one with optional metadata reaches the unchecked lookup. */
  lemma MergeDefaultIntoOptionalUndefined(m: MetaDataSection)
    requires m.optional != map[]
    ensures MergeMeta(m, DefaultMeta) == Err(Undefined)
  {
    var k :| k in m.optional;
    assert k !in DefaultMeta.optional;
  }

  // ---------------------------------------------------------------- fieldsSection

  datatype FieldsSection = FieldsSection(
    fields: seq<string>, unitsMultipliers: seq<real>, unitsOffsets: seq<real>,
    units: seq<string>, longName: seq<string>, standardName: seq<string>,
    other: map<string, seq<string>>)

  const DefaultFields: FieldsSection := FieldsSection([], [], [], [], [], [], map[])

  /** The first position of `x` in `s`, or None for npos. */
  function FirstIndex<T(==)>(s: seq<T>, x: T): (r: Option<nat>)
    ensures r.Some? ==> r.value < |s| && s[r.value] == x && forall j :: 0 <= j < r.value ==> s[j] != x
    ensures r.None? <==> x !in s
  {
    if s == [] then None
    else if s[0] == x then Some(0)
    else match FirstIndex(s[1..], x)
      case None => None
      case Some(i) => Some(i + 1)
  }

  /** getFieldIndex: the first column with that name, or npos. */
  function GetFieldIndex(f: FieldsSection, name: string): (r: Option<nat>)
    ensures r.Some? ==> r.value < |f.fields| && f.fields[r.value] == name &&
                        forall j :: 0 <= j < r.value ==> f.fields[j] != name
    ensures r.None? <==> name !in f.fields
  {
    FirstIndex(f.fields, name)
  }

  /** Two lists of one slot conflict when they differ and neither is empty. */
  predicate ListClash<T(==)>(a: seq<T>, b: seq<T>)
  {
    a != b && a != [] && b != []
  }

  predicate FieldListsClash(l: FieldsSection, r: FieldsSection)
  {
    ListClash(l.fields, r.fields) || ListClash(l.unitsMultipliers, r.unitsMultipliers) ||
    ListClash(l.unitsOffsets, r.unitsOffsets) || ListClash(l.units, r.units) ||
    ListClash(l.longName, r.longName) || ListClash(l.standardName, r.standardName)
  }

  /** roughlyEqual for FIELDS: the list comparisons, then the same scan of the other fields of `l` in `r`. */
  function RoughlyEqualFields(l: FieldsSection, r: FieldsSection): (res: Result<bool>)
    ensures res == Ok(true) <==> !FieldListsClash(l, r) && forall k :: k in l.other ==> k in r.other && r.other[k] == l.other[k]
    ensures res.Err? <==> !FieldListsClash(l, r) && exists k :: FirstMismatch(l.other, r.other, k) && k !in r.other
    ensures res.Err? ==> res.kind == Undefined
  {
    if FieldListsClash(l, r) then Ok(false)
    else ScanKeys(l.other, r.other)
  }

  /** Equal or one-sided lists are compatible, slot by slot. */
  lemma RoughlyEqualFieldsLists(l: FieldsSection, r: FieldsSection)
    requires l.other == map[]
    ensures RoughlyEqualFields(l, r) == Ok(true) <==>
      (l.fields == r.fields || l.fields == [] || r.fields == []) &&
      (l.unitsMultipliers == r.unitsMultipliers || l.unitsMultipliers == [] || r.unitsMultipliers == []) &&
      (l.unitsOffsets == r.unitsOffsets || l.unitsOffsets == [] || r.unitsOffsets == []) &&
      (l.units == r.units || l.units == [] || r.units == []) &&
      (l.longName == r.longName || l.longName == [] || r.longName == []) &&
      (l.standardName == r.standardName || l.standardName == [] || r.standardName == [])
  {
  }

  /** fieldsSection operator+=: empty lists of `l` are filled from `r`, the other fields of `r` copied over. */
  function MergeFields(l: FieldsSection, r: FieldsSection): (res: Result<FieldsSection>)
    ensures RoughlyEqualFields(l, r).Err? ==> res == Err(Undefined)
    ensures RoughlyEqualFields(l, r) == Ok(false) ==> res == Err(IOError)
    ensures RoughlyEqualFields(l, r) == Ok(true) <==> res.Ok?
    ensures res.Ok? ==> res.value.other == l.other + r.other
    ensures res.Ok? ==> var v := res.value;
      Filled(l.fields, r.fields, [], v.fields) && Filled(l.unitsMultipliers, r.unitsMultipliers, [], v.unitsMultipliers) &&
      Filled(l.unitsOffsets, r.unitsOffsets, [], v.unitsOffsets) && Filled(l.units, r.units, [], v.units) &&
      Filled(l.longName, r.longName, [], v.longName) && Filled(l.standardName, r.standardName, [], v.standardName)
  {
    match RoughlyEqualFields(l, r)
    case Err(k) => Err(k)
    case Ok(eq) =>
      if !eq then Err(IOError)
      else Ok(FieldsSection(
        Fill(l.fields, r.fields, []), Fill(l.unitsMultipliers, r.unitsMultipliers, []),
        Fill(l.unitsOffsets, r.unitsOffsets, []), Fill(l.units, r.units, []),
        Fill(l.longName, r.longName, []), Fill(l.standardName, r.standardName, []),
        l.other + r.other))
  }

  /** Merging a fields section into itself leaves it as it is; merging into a default one copies it. */
  lemma MergeFieldsIdentities(f: FieldsSection)
    ensures MergeFields(f, f) == Ok(f)
    ensures MergeFields(DefaultFields, f) == Ok(f)
  {
    assert f.other + f.other == f.other;
    assert map[] + f.other == f.other;
  }

  // ---------------------------------------------------------------- populating the sections

  /** convertVector: each piece through IOUtils::convertString, whose own success is not looked at. */
  function ConvertVector(v: seq<string>, toReal: string -> real): (r: seq<real>)
    ensures |r| == |v| && forall i :: 0 <= i < |v| ==> r[i] == toReal(v[i])
  {
    seq(|v|, i requires 0 <= i < |v| => toReal(v[i]))
  }

  /** The METADATA keys with a slot of their own; every other key is optional metadata. */
  const MetaKeys: set<string> := {"field_delimiter", "geometry", "srid", "station_id", "timestamp_meaning",
                                  "nodata", "timezone", "doi", "reference", "slope_angle", "slope_azi"}

  /**
   * populateMetaData on the section and the station location: a
   * field_delimiter must be one character; the slope goes to the location;
   * unknown keys are stored as optional metadata.
   */
  function PopulateMetaData(m: MetaDataSection, loc: GeoLocation, key: string, value: string,
                            toReal: string -> real): (r: Result<(MetaDataSection, GeoLocation)>)
    ensures r.Err? <==> key == "field_delimiter" && |value| != 1
    ensures r.Err? ==> r.kind == IOError
    ensures r.Ok? && key == "field_delimiter" ==> r.value == (m.(fieldDelimiter := value[0]), loc)
    ensures r.Ok? && key !in MetaKeys ==> r.value == (m.(optional := m.optional[key := value]), loc)
    ensures r.Ok? && key in MetaKeys ==> r.value.0.optional == m.optional
    ensures r.Ok? && key in MetaKeys - {"slope_angle", "slope_azi"} ==> r.value.1 == loc
  {
    if key == "field_delimiter" then
      if |value| != 1 then Err(IOError) else Ok((m.(fieldDelimiter := value[0]), loc))
    else if key == "geometry" then Ok((m.(geometry := value), loc))
    else if key == "srid" then Ok((m.(srid := value), loc))
    else if key == "station_id" then Ok((m.(stationId := value), loc))
    else if key == "timestamp_meaning" then Ok((m.(timestampMeaning := value), loc))
    else if key == "nodata" then Ok((m.(nodata := toReal(value)), loc))
    else if key == "timezone" then Ok((m.(timezone := toReal(value)), loc))
    else if key == "doi" || key == "reference" then Ok((m.(doi := value), loc))
    else if key == "slope_angle" then Ok((m, loc.(slopeAngle := toReal(value))))
    else if key == "slope_azi" then Ok((m, loc.(slopeAzi := toReal(value))))
    else Ok((m.(optional := m.optional[key := value]), loc))
  }

  const FieldKeys: set<string> := {"fields", "units_multipliers", "units_offsets", "units", "long_name", "standard_name"}

  /** populateFields: the value split at the field delimiter into the named list, or into the other fields. */
  function PopulateFields(f: FieldsSection, key: string, value: string, delimiter: char,
                          toReal: string -> real): (r: FieldsSection)
    ensures key == "fields" ==> r == f.(fields := Split(value, delimiter))
    ensures key == "units_multipliers" ==> r == f.(unitsMultipliers := ConvertVector(Split(value, delimiter), toReal))
    ensures key !in FieldKeys ==> r == f.(other := f.other[key := Split(value, delimiter)])
    ensures key in FieldKeys ==> r.other == f.other
  {
    var parts := Split(value, delimiter);
    if key == "fields" then f.(fields := parts)
    else if key == "units_multipliers" then f.(unitsMultipliers := ConvertVector(parts, toReal))
    else if key == "units_offsets" then f.(unitsOffsets := ConvertVector(parts, toReal))
    else if key == "units" then f.(units := parts)
    else if key == "long_name" then f.(longName := parts)
    else if key == "standard_name" then f.(standardName := parts)
    else f.(other := f.other[key := parts])
  }

  // ---------------------------------------------------------------- format validity

  /** isValidFirstLine: the second to fourth words are `iCSV`, `1.0` and `UTF-8`; anything else aborts. */
  predicate ValidFirstLine(line: string)
  {
    var w := Words(line);
    |w| >= 4 && w[1] == "iCSV" && w[2] == "1.0" && w[3] == "UTF-8"
  }

  /** Every non-empty per-field list has one entry per field. */
  predicate ListsAligned(f: FieldsSection)
  {
    var n := |f.fields|;
    (f.unitsMultipliers == [] || |f.unitsMultipliers| == n) &&
    (f.unitsOffsets == [] || |f.unitsOffsets| == n) &&
    (f.units == [] || |f.units| == n) &&
    (f.longName == [] || |f.longName| == n) &&
    (f.standardName == [] || |f.standardName| == n) &&
    forall k :: k in f.other ==> f.other[k] == [] || |f.other[k]| == n
  }

  /**
   * checkFormatValidity: the EPSG code it stores, or the first failing
   * requirement: an invalid first line aborts, every other failure is an
   * InvalidFormatException.
   */
  function FormatValidity(firstline: string, m: MetaDataSection, f: FieldsSection): (r: Result<int>)
    ensures r.Err? && r.kind == Aborted <==> !ValidFirstLine(firstline)
    ensures r.Err? ==> r.kind == Aborted || r.kind == InvalidFormat
    ensures r.Ok? <==> ValidFirstLine(firstline) && m.fieldDelimiter in ValidDelimiters && m.geometry != "" &&
                       ExtractEpsgCode(m.srid) != "" && f.fields != [] && ListsAligned(f)
    ensures r.Ok? ==> r.value == DigitsValue(ExtractEpsgCode(m.srid)) && 0 <= r.value < 100000
  {
    if !ValidFirstLine(firstline) then Err(Aborted)
    else if m.fieldDelimiter == '0' then Err(InvalidFormat)
    else if m.fieldDelimiter !in ValidDelimiters then Err(InvalidFormat)
    else if m.geometry == "" then Err(InvalidFormat)
    else if m.srid == "" then Err(InvalidFormat)
    else if ExtractEpsgCode(m.srid) == "" then Err(InvalidFormat)
    else
      var code := ExtractEpsgCode(m.srid);
      DigitsBelow(code);
      var epsg := DigitsValue(code);
      if f.fields == [] then Err(InvalidFormat)
      else if epsg == -1 then Err(InvalidFormat)
      else if !ListsAligned(f) then Err(InvalidFormat)
      else Ok(epsg)
  }

  /**
   * The EPSG code checkFormatValidity has stored when it returns or throws:
   * the code is converted as soon as the first line, delimiter, geometry and
   * srid pass, before the fields and the list lengths are checked, so a file
   * that fails only those later checks keeps the converted code.
   */
  function StoredEpsg(firstline: string, m: MetaDataSection): (r: Option<int>)
    ensures r.Some? <==> ValidFirstLine(firstline) && m.fieldDelimiter in ValidDelimiters && m.geometry != "" &&
                         ExtractEpsgCode(m.srid) != ""
    ensures r.Some? ==> r.value == DigitsValue(ExtractEpsgCode(m.srid)) && 0 <= r.value < 100000
  {
    if !ValidFirstLine(firstline) || m.fieldDelimiter == '0' || m.fieldDelimiter !in ValidDelimiters ||
       m.geometry == "" || m.srid == "" || ExtractEpsgCode(m.srid) == "" then None
    else
      var code := ExtractEpsgCode(m.srid);
      DigitsBelow(code);
      Some(DigitsValue(code))
  }

  /** A string of at most five digits has a value below 100000. */
  lemma DigitsBelow(s: string)
    requires IsDigits(s) && |s| <= 5
    ensures DigitsValue(s) < Pow10(|s|) <= 100000
  {
    DigitsValueBound(s);
    assert Pow10(5) == 100000;
    PowMonotone(|s|, 5);
  }

  lemma {:induction false} DigitsValueBound(s: string)
    requires forall i :: 0 <= i < |s| ==> IsDigit(s[i])
    ensures DigitsValue(s) < Pow10(|s|)
  {
    if s != [] {
      DigitsValueBound(s[..|s| - 1]);
    }
  }

  lemma {:induction false} PowMonotone(a: nat, b: nat)
    requires a <= b
    ensures Pow10(a) <= Pow10(b)
  {
    if a < b {
      PowMonotone(a, b - 1);
    }
  }

  /** An srid set by setEPSG with a four- or five-digit code passes the EPSG part of the check and stores that code. */
  lemma SetEpsgPassesCheck(firstline: string, m: MetaDataSection, f: FieldsSection, n: int)
    requires 1000 <= n < 100000
    requires FormatValidity(firstline, SetEPSG(m, n), f).Ok?
    ensures FormatValidity(firstline, SetEPSG(m, n), f).value == n
  {
    SetEpsgRoundTrip(m, n);
  }

  // ---------------------------------------------------------------- the line state machine

  /** The section the reader is in; processContent's last branch, an unknown section, cannot be reached. */
  datatype Section = InMeta | InFields | InData

  /** What processLine does with a line, in the order it tests. */
  datatype LineClass =
    | Comment
    | MetaMarker
    | DataMarker
    | FieldsMarker
    | Blank
    | StopReading
    | Malformed
    | Content(text: string)

  predicate Contains(line: string, marker: string)
  {
    Find(line, marker, 0).Some?
  }

  /**
   * The tests of processLine: a lone `#` or a blank line is skipped, a
   * section marker anywhere in the line switches section, a data line in
   * sequential mode stops the reading, and a header line must start with
   * `#`, which is stripped.
   */
  function Classify(line: string, section: Section, sequentially: bool): (c: LineClass)
    ensures c == Comment <==> line == "#"
    ensures c == Blank ==> line == ""
    ensures c == StopReading ==> section == InData && sequentially && line != ""
    ensures c == Malformed ==> section != InData && line != "" && line[0] != '#'
    ensures c.Content? && section == InData ==> c.text == line && !sequentially
    ensures c.Content? && section != InData ==> line != "" && line[0] == '#' && c.text == line[1..]
  {
    if line == "#" then Comment
    else if Contains(line, "[METADATA]") then MetaMarker
    else if Contains(line, "[DATA]") then DataMarker
    else if Contains(line, "[FIELDS]") then FieldsMarker
    else if line == "" then Blank
    else if section == InData && sequentially then StopReading
    else if section != InData && line[0] != '#' then Malformed
    else if section == InData then Content(line)
    else Content(line[1..])
  }

  /** Outside the DATA section, a line without a marker that does not start with `#` is rejected. */
  lemma HeaderLineNeedsHash(line: string, section: Section, sequentially: bool)
    requires section != InData && line != "" && line[0] != '#'
    requires !Contains(line, "[METADATA]") && !Contains(line, "[DATA]") && !Contains(line, "[FIELDS]")
    ensures Classify(line, section, sequentially) == Malformed
  {
  }

  /** Once in the DATA section, sequential reading stops at the first line that is not a marker or blank. */
  lemma SequentialStopsAtData(line: string, sequentially: bool)
    requires line != "" && line != "#"
    requires !Contains(line, "[METADATA]") && !Contains(line, "[DATA]") && !Contains(line, "[FIELDS]")
    ensures Classify(line, InData, sequentially) == StopReading <==> sequentially
  {
  }

  /** findTime: which time columns exist and the index of the one used, `timestamp` before `julian`. */
  function TimeColumn(f: FieldsSection): (r: Result<(bool, bool, nat)>)
    ensures r.Err? <==> "timestamp" !in f.fields && "julian" !in f.fields
    ensures r.Err? ==> r.kind == InvalidFormat
    ensures r.Ok? ==> r.value.0 == ("timestamp" in f.fields) && r.value.1 == ("julian" in f.fields)
    ensures r.Ok? ==> (r.value.2 < |f.fields| &&
      f.fields[r.value.2] == (if "timestamp" in f.fields then "timestamp" else "julian"))
  {
    var ts := "timestamp" in f.fields;
    var jd := "julian" in f.fields;
    if !ts && !jd then Err(InvalidFormat)
    else if ts then Ok((ts, jd, GetFieldIndex(f, "timestamp").value))
    else Ok((ts, jd, GetFieldIndex(f, "julian").value))
  }

  /** Whether the lines are read before or after parseGeometry decides where the location lives. */
  function LocationColumn(inHeader: bool, geometry: string, f: FieldsSection): (r: Result<Option<nat>>)
    ensures inHeader ==> r == Ok(None)
    ensures !inHeader ==> (r.Ok? <==> geometry in f.fields)
    ensures !inHeader && r.Ok? ==> r.value.Some? && r.value.value < |f.fields| && f.fields[r.value.value] == geometry
    ensures r.Err? ==> r.kind == InvalidFormat
  {
    if inHeader then Ok(None)
    else if geometry !in f.fields then Err(InvalidFormat)
    else Ok(GetFieldIndex(f, geometry))
  }

  /**
   * Where parseGeometry puts the station location: in the header (true) or
   * in a data column (false), and the location it stores. Column detection
   * tests isEmpty on the location as extractCoordinates returns it.
   */
  function GeometryPlacementOn(coordinates: GeoLocation, m: MetaDataSection, f: FieldsSection): (r: Result<(bool, GeoLocation)>)
    ensures r.Err? ==> r.kind == IOError
    ensures r.Ok? && !r.value.0 ==> IsEmpty(coordinates) && m.geometry in f.fields
  {
    var nodata := if m.nodata == DefaultNodata then Nodata else m.nodata;
    if IsEmpty(coordinates) && m.geometry !in f.fields then Err(IOError)
    else
      var c := if coordinates.z == DefaultNodata then coordinates.(z := nodata) else coordinates;
      if c.x == nodata || c.y == nodata then Err(IOError)
      else Ok((!IsEmpty(coordinates), c))
  }

  /** parseGeometry as written: the test runs on the standardized coordinates. */
  function GeometryPlacementAsWritten(m: MetaDataSection, f: FieldsSection, matchPoint: string -> GeoLocation): (r: Result<(bool, GeoLocation)>)
    ensures r == GeometryPlacementOn(ExtractCoordinates(m.geometry, matchPoint), m, f)
  {
    GeometryPlacementOn(ExtractCoordinates(m.geometry, matchPoint), m, f)
  }

  /** As written, a geometry naming a data column is never recognised: the location always stays in the header. */
  lemma ColumnGeometryNeverDetected(m: MetaDataSection, f: FieldsSection, matchPoint: string -> GeoLocation)
    ensures GeometryPlacementAsWritten(m, f, matchPoint).Ok? ==> GeometryPlacementAsWritten(m, f, matchPoint).value.0
  {
    StandardizedNeverEmpty(matchPoint(m.geometry));
  }

  /** The column `position` holding the locations, with the default nodata: as written an error, corrected a data column. */
  lemma ColumnGeometryExample()
    ensures var m := DefaultMeta.(geometry := "position");
            var f := DefaultFields.(fields := ["timestamp", "position", "TA"]);
            var none := (s: string) => EmptyLocation;
            GeometryPlacementAsWritten(m, f, none) == Err(IOError) &&
            GeometryPlacement(m, f, none).Ok? && !GeometryPlacement(m, f, none).value.0
  {
    var f := DefaultFields.(fields := ["timestamp", "position", "TA"]);
    assert f.fields[1] == "position";
  }

  /** parseGeometry as intended: column detection on the coordinates before standardization. */
  function GeometryPlacement(m: MetaDataSection, f: FieldsSection, matchPoint: string -> GeoLocation): (r: Result<(bool, GeoLocation)>)
    ensures r.Err? ==> r.kind == IOError
    ensures r.Ok? ==> (!r.value.0 <==> IsEmpty(matchPoint(m.geometry)))
    ensures IsEmpty(matchPoint(m.geometry)) ==> (r.Ok? <==> m.geometry in f.fields)
  {
    GeometryPlacementOn(matchPoint(m.geometry), m, f)
  }

  /** The functions standing for conversions the reader delegates to IOUtils and the regex engine. */
  datatype Conversions = Conversions(
    toReal: string -> real,                 // IOUtils::convertString to double, its status ignored
    toDate: (string, real) -> Option<int>,  // IOUtils::convertString to Date in a time zone
    matchPoint: string -> GeoLocation,      // the POINT/POINTZ regular-expression search
    realText: real -> string)               // std::to_string of a double

  /** The per-file state that reading updates. */
  datatype FileState = FileState(
    meta: MetaDataSection, fieldsSec: FieldsSection, location: GeoLocation, locationInHeader: bool,
    timestampPresent: bool, julianPresent: bool, timeId: Option<nat>, locationId: Option<nat>,
    dates: seq<int>, rows: seq<seq<real>>, locations: seq<GeoLocation>)

  /** getNoData on a state: the file's nodata, IOUtils::nodata when unset. */
  function NoDataOf(m: MetaDataSection): (v: real)
    ensures v != DefaultNodata
    ensures m.nodata != DefaultNodata ==> v == m.nodata
  {
    if m.nodata == DefaultNodata then Nodata else m.nodata
  }

  /**
   * processData on a state: the row split at the delimiter; its location
   * cell (when locations are in the data) read and replaced by the nodata
   * text, then its time cell read and replaced, and every cell converted.
   */
  function ParsedRow(st: FileState, content: string, conv: Conversions): (r: Result<(int, seq<real>, seq<GeoLocation>)>)
    ensures r.Ok? ==> |r.value.1| == |Split(content, st.meta.fieldDelimiter)|
    ensures r.Ok? ==> |r.value.2| == (if st.locationInHeader then 0 else 1)
    ensures r.Ok? ==> st.timeId.Some? && st.timeId.value < |Split(content, st.meta.fieldDelimiter)|
    ensures r.Ok? && (st.locationInHeader || st.locationId != st.timeId) ==>
      conv.toDate(Split(content, st.meta.fieldDelimiter)[st.timeId.value], st.meta.timezone) == Some(r.value.0)
    ensures r.Err? ==> r.kind == Undefined || r.kind == IOError
  {
    var row := Split(content, st.meta.fieldDelimiter);
    var nodataText := conv.realText(NoDataOf(st.meta));
    if !st.locationInHeader && (st.locationId.None? || st.locationId.value >= |row|) then Err(Undefined)
    else if st.timeId.None? || st.timeId.value >= |row| then Err(Undefined)
    else
      var locs := if st.locationInHeader then [] else [ExtractCoordinates(row[st.locationId.value], conv.matchPoint)];
      if locs != [] && IsEmpty(locs[0]) then Err(IOError)
      else
        var row1 := if st.locationInHeader then row else row[st.locationId.value := nodataText];
        var date := conv.toDate(row1[st.timeId.value], st.meta.timezone);
        if date.None? then Err(IOError)
        else Ok((date.value, ConvertVector(row1[st.timeId.value := nodataText], conv.toReal), locs))
  }

  /** The invalid-location test of processData never fires: extractCoordinates has already standardized. */
  lemma RowLocationNeverRejected(st: FileState, content: string, conv: Conversions)
    requires !st.locationInHeader && st.locationId.Some? && st.timeId.Some?
    requires st.locationId.value < |Split(content, st.meta.fieldDelimiter)|
    requires st.timeId.value < |Split(content, st.meta.fieldDelimiter)|
    requires st.locationId != st.timeId
    ensures ParsedRow(st, content, conv).Err? ==>
      conv.toDate(Split(content, st.meta.fieldDelimiter)[st.timeId.value], st.meta.timezone).None?
  {
    var row := Split(content, st.meta.fieldDelimiter);
    StandardizedNeverEmpty(conv.matchPoint(row[st.locationId.value]));
  }

  /** The dates of `ds` within [start, end], in file order. */
  function DatesWithin(ds: seq<int>, start: int, end: int): (r: seq<int>)
    ensures |r| <= |ds|
  {
    if ds == [] then []
    else
      var prev := DatesWithin(ds[..|ds| - 1], start, end);
      var d := ds[|ds| - 1];
      if start <= d <= end then prev + [d] else prev
  }

  /** getDatesInFile keeps exactly the dates in the inclusive range. */
  lemma {:induction false} DatesWithinMembers(ds: seq<int>, start: int, end: int)
    ensures forall d :: d in DatesWithin(ds, start, end) <==> d in ds && start <= d <= end
  {
    if ds != [] {
      var n := |ds| - 1;
      DatesWithinMembers(ds[..n], start, end);
      assert ds == ds[..n] + [ds[n]];
    }
  }

  predicate Increasing(ds: seq<int>)
  {
    forall i, j :: 0 <= i < j < |ds| ==> ds[i] < ds[j]
  }

  /** The dates kept from an increasing file are increasing. */
  lemma {:induction false} DatesWithinIncreasing(ds: seq<int>, start: int, end: int)
    requires Increasing(ds)
    ensures Increasing(DatesWithin(ds, start, end))
  {
    if ds != [] {
      var n := |ds| - 1;
      assert Increasing(ds[..n]);
      DatesWithinIncreasing(ds[..n], start, end);
      DatesWithinMembers(ds[..n], start, end);
      var prev := DatesWithin(ds[..n], start, end);
      forall i | 0 <= i < |prev|
        ensures prev[i] < ds[n]
      {
        assert prev[i] in prev;
        var j :| 0 <= j < n && ds[..n][j] == prev[i];
        assert ds[j] < ds[n];
      }
    }
  }

  /** getLocationsInData for locations in the data: those aligned with the in-range dates. */
  function LocationsWithin(ds: seq<int>, locs: seq<GeoLocation>, start: int, end: int): (r: Result<seq<GeoLocation>>)
    ensures r.Err? ==> r.kind == Undefined
    ensures |locs| >= |ds| ==> r.Ok? && |r.value| == |DatesWithin(ds, start, end)|
  {
    if ds == [] then Ok([])
    else
      var n := |ds| - 1;
      var prev := LocationsWithin(ds[..n], locs, start, end);
      if prev.Err? then prev
      else if !(start <= ds[n] <= end) then prev
      else if n >= |locs| then Err(Undefined)
      else Ok(prev.value + [locs[n]])
  }

  /** processLine's per-line effect on the state, and whether reading goes on. */
  function LineStep(st: FileState, line: string, section: Section, sequentially: bool,
                    conv: Conversions): (r: Result<(FileState, Section, bool)>)
    ensures r.Ok? && Classify(line, section, sequentially) == StopReading ==> r.value == (st, section, false)
    ensures r.Ok? && Classify(line, section, sequentially) != StopReading ==> r.value.2
    ensures Classify(line, section, sequentially) == DataMarker && (st.meta.fieldDelimiter == '0' || st.fieldsSec.fields == []) ==>
      r == Err(InvalidFormat)
    ensures Classify(line, section, sequentially) == FieldsMarker ==>
      (r.Err? <==> st.meta.fieldDelimiter == '0')
    ensures Classify(line, section, sequentially) == Malformed ==> r == Err(InvalidFormat)
    ensures Classify(line, section, sequentially) in {Comment, Blank} ==> r == Ok((st, section, true))
  {
    match Classify(line, section, sequentially)
    case Comment => Ok((st, section, true))
    case Blank => Ok((st, section, true))
    case MetaMarker => Ok((st, InMeta, true))
    case DataMarker =>
      if st.meta.fieldDelimiter == '0' || st.fieldsSec.fields == [] then Err(InvalidFormat)
      else
        var t := TimeColumn(st.fieldsSec);
        if t.Err? then Err(t.kind)
        else
          var l := LocationColumn(st.locationInHeader, st.meta.geometry, st.fieldsSec);
          var st1 := st.(timestampPresent := t.value.0, julianPresent := t.value.1, timeId := Some(t.value.2));
          if l.Err? then Err(l.kind)
          else if st.locationInHeader then Ok((st1, InData, true))
          else Ok((st1.(locationId := l.value), InData, true))
    case FieldsMarker =>
      if st.meta.fieldDelimiter == '0' then Err(InvalidFormat) else Ok((st, InFields, true))
    case StopReading => Ok((st, section, false))
    case Malformed => Err(InvalidFormat)
    case Content(text) =>
      if section == InData then
        match ParsedRow(st, text, conv)
        case Err(k) => Err(k)
        case Ok(row) => Ok((st.(dates := st.dates + [row.0], rows := st.rows + [row.1], locations := st.locations + row.2), section, true))
      else
        var kv := Split(text, '=');
        if |kv| != 2 then Err(IOError)
        else if section == InMeta then
          match PopulateMetaData(st.meta, st.location, kv[0], kv[1], conv.toReal)
          case Err(k) => Err(k)
          case Ok(p) => Ok((st.(meta := p.0, location := p.1), section, true))
        else
          Ok((st.(fieldsSec := PopulateFields(st.fieldsSec, kv[0], kv[1], st.meta.fieldDelimiter, conv.toReal)), section, true))
  }

  /** processLine throws exceptions only; it never aborts. */
  lemma LineStepNeverAborts(st: FileState, line: string, section: Section, sequentially: bool, conv: Conversions)
    ensures LineStep(st, line, section, sequentially, conv).Err? ==>
      LineStep(st, line, section, sequentially, conv).kind != Aborted
  {
  }

  /** `b` holds the dates and rows of `a` followed by at most `k` more, one date per row. */
  predicate Extends(a: FileState, b: FileState, k: int)
  {
    |a.dates| <= |b.dates| && b.dates[..|a.dates|] == a.dates &&
    |a.rows| <= |b.rows| && b.rows[..|a.rows|] == a.rows &&
    |b.dates| - |a.dates| == |b.rows| - |a.rows| <= k
  }

  lemma ExtendsTrans(a: FileState, b: FileState, c: FileState, k1: int, k2: int)
    requires Extends(a, b, k1) && Extends(b, c, k2)
    ensures Extends(a, c, k1 + k2)
  {
    assert c.dates[..|a.dates|] == c.dates[..|b.dates|][..|a.dates|];
    assert c.rows[..|a.rows|] == c.rows[..|b.rows|][..|a.rows|];
  }

  /** A line only ever appends to the data: dates, rows and locations keep their earlier entries. */
  lemma LineStepAppends(st: FileState, line: string, section: Section, sequentially: bool, conv: Conversions)
    requires LineStep(st, line, section, sequentially, conv).Ok?
    ensures Extends(st, LineStep(st, line, section, sequentially, conv).value.0, 1)
  {
  }

  /** Column needed for a parameter by columnsToAppend as written: both branches reduce to "the name is not a field". */
  predicate NeedsColumnAsWritten(fields: seq<string>, p: string)
  {
    if p == "RSWR" && "RSWR" !in fields && "OSWR" !in fields then true
    else p !in fields
  }

  /** As intended: RSWR data already has a column when the fields name OSWR, as aggregateData writes it there. */
  predicate NeedsColumn(fields: seq<string>, p: string)
  {
    if p == "RSWR" then "RSWR" !in fields && "OSWR" !in fields
    else p !in fields
  }

  /** A file whose fields carry OSWR: as written RSWR data still asks for a column of its own. */
  lemma OswrDoesNotCoverRswr()
    ensures NeedsColumnAsWritten(["timestamp", "OSWR"], "RSWR")
    ensures !NeedsColumn(["timestamp", "OSWR"], "RSWR")
  {
    assert ["timestamp", "OSWR"][1] == "OSWR";
  }

  /** The two tests agree on every parameter but RSWR. */
  lemma NeedsColumnAgrees(fields: seq<string>, p: string)
    ensures p != "RSWR" || "OSWR" !in fields ==> (NeedsColumn(fields, p) <==> NeedsColumnAsWritten(fields, p))
    ensures NeedsColumn(fields, p) ==> NeedsColumnAsWritten(fields, p)
  {
  }

  /** The parameters kept by `keep`, in order. */
  function Filter(ps: seq<string>, keep: string -> bool): (r: seq<string>)
    ensures forall x :: x in r <==> x in ps && keep(x)
    ensures SortedSet(ps) ==> SortedSet(r)
  {
    if ps == [] then []
    else
      var rest := Filter(ps[1..], keep);
      assert forall x :: x in ps[1..] ==> x in ps;
      if keep(ps[0]) then
        assert forall j :: 0 <= j < |rest| ==> rest[j] in ps[1..];
        [ps[0]] + rest
      else rest
  }

  /** MeteoData::listAvailableParameters: every parameter any record carries. */
  function AvailableParams(recs: seq<Record>): set<string>
  {
    set i, p | 0 <= i < |recs| && p in recs[i].params :: p
  }

  /** The iteration of a std::set<std::string>: its elements, smallest first. */
  method SortedParams(s: set<string>) returns (r: seq<string>)
    ensures SortedSet(r) && forall x :: x in r <==> x in s
  {
    var rest := s;
    r := [];
    while rest != {}
      invariant SortedSet(r) && rest <= s
      invariant forall x :: x in r <==> x in s && x !in rest
      decreases |rest|
    {
      var m :| m in rest;
      r := Insert(r, m);
      rest := rest - {m};
    }
  }

  /**
   * The reading loop of readFile from line `ii` on: each trimmed line goes
   * through processLine until one says stop or fails; the state reached and
   * the number of lines consumed (the stopping line included), or the first
   * error.
   */
  function ReadFrom(st: FileState, lines: seq<string>, ii: nat, section: Section, sequentially: bool,
                    conv: Conversions): (r: Result<(FileState, nat)>)
    requires ii <= |lines|
    ensures r.Ok? ==> ii <= r.value.1 <= |lines|
    decreases |lines| - ii
  {
    if ii == |lines| then Ok((st, ii))
    else match LineStep(st, Trim(lines[ii]), section, sequentially, conv)
      case Err(k) => Err(k)
      case Ok(step) =>
        if !step.2 then Ok((step.0, ii + 1))
        else ReadFrom(step.0, lines, ii + 1, step.1, sequentially, conv)
  }

  /** One line of the reading loop: a failure ends it, a stop ends it after that line, otherwise it goes on. */
  lemma ReadFromStep(st: FileState, lines: seq<string>, ii: nat, section: Section, sequentially: bool, conv: Conversions)
    requires ii < |lines|
    ensures var step := LineStep(st, Trim(lines[ii]), section, sequentially, conv);
      ReadFrom(st, lines, ii, section, sequentially, conv) ==
        if step.Err? then Err(step.kind)
        else if !step.value.2 then Ok((step.value.0, ii + 1))
        else ReadFrom(step.value.0, lines, ii + 1, step.value.1, sequentially, conv)
  {
  }

  /** Only sequential reading stops early: otherwise a successful read consumes every line. */
  lemma {:induction false} ReadFromConsumesAll(st: FileState, lines: seq<string>, ii: nat, section: Section, conv: Conversions)
    requires ii <= |lines|
    ensures var r := ReadFrom(st, lines, ii, section, false, conv);
      r.Ok? ==> r.value.1 == |lines|
    decreases |lines| - ii
  {
    if ii < |lines| {
      var step := LineStep(st, Trim(lines[ii]), section, false, conv);
      if step.Ok? {
        ReadFromConsumesAll(step.value.0, lines, ii + 1, step.value.1, conv);
      }
    }
  }

  /** Reading appends to the dates and rows, one date per row per line at most, and never rewrites those already read. */
  lemma {:induction false} ReadFromAppends(st: FileState, lines: seq<string>, ii: nat, section: Section, sequentially: bool, conv: Conversions)
    requires ii <= |lines|
    ensures var r := ReadFrom(st, lines, ii, section, sequentially, conv);
      r.Ok? ==> Extends(st, r.value.0, r.value.1 - ii)
    decreases |lines| - ii
  {
    if ii < |lines| {
      ReadFromStep(st, lines, ii, section, sequentially, conv);
      var step := LineStep(st, Trim(lines[ii]), section, sequentially, conv);
      if step.Ok? {
        LineStepAppends(st, Trim(lines[ii]), section, sequentially, conv);
        if step.value.2 {
          ReadFromAppends(step.value.0, lines, ii + 1, step.value.1, sequentially, conv);
          var r := ReadFrom(step.value.0, lines, ii + 1, step.value.1, sequentially, conv);
          if r.Ok? {
            ExtendsTrans(st, step.value.0, r.value.0, 1, r.value.1 - (ii + 1));
          }
        }
      }
    } else {
      assert Extends(st, st, 0);
    }
  }

  class ICsvFile {
    var firstline: string
    var skipLinesToData: nat
    var meta: MetaDataSection
    var fieldsSec: FieldsSection
    var stationLocation: GeoLocation
    var locationInHeader: bool
    var timestampPresent: bool
    var julianPresent: bool
    var timeId: Option<nat>
    var locationId: Option<nat>
    var dates: seq<int>
    var rows: seq<seq<real>>
    var locations: seq<GeoLocation>

    /** The state reading updates. */
    function State(): FileState
      reads this
    {
      FileState(meta, fieldsSec, stationLocation, locationInHeader, timestampPresent, julianPresent,
                timeId, locationId, dates, rows, locations)
    }

    method SetState(st: FileState)
      modifies this
      ensures State() == st && firstline == old(firstline) && skipLinesToData == old(skipLinesToData)
    {
      meta, fieldsSec, stationLocation, locationInHeader := st.meta, st.fieldsSec, st.location, st.locationInHeader;
      timestampPresent, julianPresent, timeId, locationId := st.timestampPresent, st.julianPresent, st.timeId, st.locationId;
      dates, rows, locations := st.dates, st.rows, st.locations;
    }

    /** One date per row, as processData and aggregateData push them together. */
    predicate Valid()
      reads this
    {
      |dates| == |rows|
    }

    /** The default constructor: empty sections, location in the header, no time or location column. */
    constructor ()
      ensures Valid() && firstline == "" && skipLinesToData == 0
      ensures State() == FileState(DefaultMeta, DefaultFields, EmptyLocation, true, false, false, None, None, [], [], [])
    {
      firstline, skipLinesToData := "", 0;
      meta, fieldsSec, stationLocation, locationInHeader := DefaultMeta, DefaultFields, EmptyLocation, true;
      timestampPresent, julianPresent, timeId, locationId := false, false, None, None;
      dates, rows, locations := [], [], [];
    }

    /** processLine: the effect of one trimmed line and whether reading goes on. */
    method ProcessLine(line: string, section: Section, sequentially: bool, conv: Conversions)
      returns (r: Result<bool>, section': Section)
      requires Valid()
      modifies this
      ensures Valid()
      ensures var step := LineStep(old(State()), line, section, sequentially, conv);
        (step.Err? ==> r == Err(step.kind) && State() == old(State())) &&
        (step.Ok? ==> r == Ok(step.value.2) && section' == step.value.1 && State() == step.value.0)
      ensures firstline == old(firstline) && skipLinesToData == old(skipLinesToData)
    {
      var step := LineStep(State(), line, section, sequentially, conv);
      if step.Err? {
        return Err(step.kind), section;
      }
      LineStepAppends(State(), line, section, sequentially, conv);
      SetState(step.value.0);
      return Ok(step.value.2), step.value.1;
    }

    /**
     * readFile on the lines of the file: the first line is stored and must be
     * valid, then each trimmed line goes through processLine until it says
     * stop; the lines consumed, the first included, are counted in
     * skip_lines_to_data, which an exception leaves as it was.
     */
    method ReadFile(first: string, lines: seq<string>, sequentially: bool, conv: Conversions) returns (r: Result<bool>)
      requires Valid()
      modifies this
      ensures Valid() && firstline == first
      ensures r.Err? && r.kind == Aborted <==> !ValidFirstLine(first)
      ensures !ValidFirstLine(first) ==> State() == old(State()) && skipLinesToData == old(skipLinesToData)
      ensures ValidFirstLine(first) ==>
        var rf := ReadFrom(old(State()), lines, 0, InMeta, sequentially, conv);
        (rf.Err? ==> r == Err(rf.kind) && skipLinesToData == old(skipLinesToData)) &&
        (rf.Ok? ==> r == Ok(true) && State() == rf.value.0 && skipLinesToData == 1 + rf.value.1)
    {
      firstline := first;
      if !ValidFirstLine(first) {
        return Err(Aborted);
      }
      var consumed := ReadLines(lines, sequentially, conv);
      if consumed.Err? {
        return Err(consumed.kind);
      }
      skipLinesToData := 1 + consumed.value;
      return Ok(true);
    }

    /** The loop of readFile: the trimmed lines through processLine until one says stop; the lines consumed. */
    method ReadLines(lines: seq<string>, sequentially: bool, conv: Conversions) returns (r: Result<nat>)
      requires Valid()
      modifies this
      ensures Valid() && firstline == old(firstline) && skipLinesToData == old(skipLinesToData)
      ensures var rf := ReadFrom(old(State()), lines, 0, InMeta, sequentially, conv);
        (rf.Err? ==> r == Err(rf.kind) && r.kind != Aborted) &&
        (rf.Ok? ==> r == Ok(rf.value.1) && State() == rf.value.0)
    {
      ghost var goal := ReadFrom(State(), lines, 0, InMeta, sequentially, conv);
      var section := InMeta;
      var ii := 0;
      while ii < |lines|
        invariant ii <= |lines|
        invariant Valid() && firstline == old(firstline) && skipLinesToData == old(skipLinesToData)
        invariant ReadFrom(State(), lines, ii, section, sequentially, conv) == goal
      {
        var go;
        ReadFromStep(State(), lines, ii, section, sequentially, conv);
        LineStepNeverAborts(State(), Trim(lines[ii]), section, sequentially, conv);
        go, section := ProcessLine(Trim(lines[ii]), section, sequentially, conv);
        if go.Err? {
          return Err(go.kind);
        }
        ii := ii + 1;
        if !go.value {
          return Ok(ii);
        }
      }
      return Ok(ii);
    }

    /**
     * checkFormatValidity: the EPSG code read from the srid is stored once the
     * checks before it pass, whatever the later checks decide.
     */
    method CheckFormatValidity() returns (r: Result<bool>)
      modifies this
      ensures var v := FormatValidity(old(firstline), old(meta), old(fieldsSec));
        (v.Err? ==> r == Err(v.kind)) &&
        (v.Ok? ==> r == Ok(true) && meta == old(meta).(epsg := v.value))
      ensures var e := StoredEpsg(old(firstline), old(meta));
        meta == if e.Some? then old(meta).(epsg := e.value) else old(meta)
      ensures State() == old(State()).(meta := meta)
      ensures firstline == old(firstline) && skipLinesToData == old(skipLinesToData)
    {
      var e := StoredEpsg(firstline, meta);
      var v := FormatValidity(firstline, meta, fieldsSec);
      if e.Some? {
        meta := meta.(epsg := e.value);
      }
      if v.Err? {
        return Err(v.kind);
      }
      return Ok(true);
    }

    /** parseGeometry, column detection done on the coordinates before standardization. */
    method ParseGeometry(conv: Conversions) returns (r: Result<bool>)
      modifies this
      ensures var g := GeometryPlacement(old(meta), old(fieldsSec), conv.matchPoint);
        (g.Err? ==> r == Err(g.kind) && State() == old(State())) &&
        (g.Ok? ==> r == Ok(true) && State() == old(State()).(locationInHeader := old(locationInHeader) && g.value.0, location := g.value.1))
      ensures firstline == old(firstline) && skipLinesToData == old(skipLinesToData)
    {
      var g := GeometryPlacement(meta, fieldsSec, conv.matchPoint);
      if g.Err? {
        return Err(g.kind);
      }
      if !g.value.0 {
        locationInHeader := false;
      }
      stationLocation := g.value.1;
      return Ok(true);
    }

    /** getNoData. */
    function GetNoData(): (v: real)
      reads this
      ensures v != DefaultNodata
      ensures meta.nodata != DefaultNodata ==> v == meta.nodata
      ensures meta.nodata == DefaultNodata ==> v == Nodata
    {
      NoDataOf(meta)
    }

    /** getTimeZone. */
    function GetTimeZone(): (v: real)
      reads this
      ensures v != DefaultNodata
      ensures meta.timezone != DefaultNodata ==> v == meta.timezone
      ensures meta.timezone == DefaultNodata ==> v == Nodata
    {
      if meta.timezone == DefaultNodata then Nodata else meta.timezone
    }

    /**
     * readData: no rows or a date outside first..last is an IOException; the
     * row of the first exact date gives the value of the field (its index
     * unchecked, so an unknown field is undefined behaviour); without an
     * exact date the answer is nodata.
     */
    method ReadData(date: int, fieldname: string) returns (r: Result<real>)
      requires Valid()
      ensures rows == [] ==> r == Err(IOError)
      ensures rows != [] && (date < dates[0] || date > dates[|dates| - 1]) ==> r == Err(IOError)
      ensures rows != [] && dates[0] <= date <= dates[|dates| - 1] ==>
        match FirstIndex(dates, date)
        case None => r == Ok(Nodata)
        case Some(i) =>
          var f := GetFieldIndex(fieldsSec, fieldname);
          if f.None? || f.value >= |rows[i]| then r == Err(Undefined) else r == Ok(rows[i][f.value])
    {
      if rows == [] {
        return Err(IOError);
      }
      if date < dates[0] || date > dates[|dates| - 1] {
        return Err(IOError);
      }
      var ii := 0;
      while ii < |dates|
        invariant ii <= |dates|
        invariant forall j :: 0 <= j < ii ==> dates[j] != date
      {
        if dates[ii] == date {
          assert FirstIndex(dates, date) == Some(ii) by {
            FirstIndexIs(dates, date, ii);
          }
          var f := GetFieldIndex(fieldsSec, fieldname);
          if f.None? || f.value >= |rows[ii]| {
            return Err(Undefined);
          }
          return Ok(rows[ii][f.value]);
        }
        ii := ii + 1;
      }
      return Ok(Nodata);
    }

    /** getDatesInFile: the dates within [start, end], in file order. */
    method GetDatesInFile(start: int, end: int) returns (r: seq<int>)
      ensures r == DatesWithin(dates, start, end)
    {
      r := [];
      var ii := 0;
      while ii < |dates|
        invariant ii <= |dates|
        invariant r == DatesWithin(dates[..ii], start, end)
      {
        assert dates[..ii + 1][..ii] == dates[..ii];
        if start <= dates[ii] && dates[ii] <= end {
          r := r + [dates[ii]];
        }
        ii := ii + 1;
      }
      assert dates[..ii] == dates;
    }

    /** getLocationsInData: nothing when the location is in the header, else the locations of the in-range dates. */
    method GetLocationsInData(start: int, end: int) returns (r: Result<seq<GeoLocation>>)
      ensures locationInHeader ==> r == Ok([])
      ensures !locationInHeader ==> r == LocationsWithin(dates, locations, start, end)
    {
      if locationInHeader {
        return Ok([]);
      }
      var out := [];
      var ii := 0;
      while ii < |dates|
        invariant ii <= |dates|
        invariant LocationsWithin(dates[..ii], locations, start, end) == Ok(out)
      {
        assert dates[..ii + 1][..ii] == dates[..ii];
        if start <= dates[ii] && dates[ii] <= end {
          if ii >= |locations| {
            LocationsWithinErrStays(dates, locations, start, end, ii + 1);
            assert LocationsWithin(dates, locations, start, end).Err?;
            return Err(Undefined);
          }
          out := out + [locations[ii]];
        }
        ii := ii + 1;
      }
      assert dates[..ii] == dates;
      return Ok(out);
    }

    /** columnsToAppend as written: the available parameters, in set order, that `NeedsColumnAsWritten` keeps. */
    method ColumnsToAppendAsWritten(recs: seq<Record>) returns (r: Result<seq<string>>)
      ensures r.Err? <==> recs == []
      ensures r.Err? ==> r.kind == IOError
      ensures r.Ok? ==> (SortedSet(r.value) &&
        forall p :: p in r.value <==> p in AvailableParams(recs) && NeedsColumnAsWritten(fieldsSec.fields, p))
    {
      if recs == [] {
        return Err(IOError);
      }
      var params := SortedParams(AvailableParams(recs));
      var fs := fieldsSec.fields;
      return Ok(Filter(params, p => NeedsColumnAsWritten(fs, p)));
    }

    /** columnsToAppend as intended: RSWR needs no column when the fields name RSWR or OSWR. */
    method ColumnsToAppend(recs: seq<Record>) returns (r: Result<seq<string>>)
      ensures r.Err? <==> recs == []
      ensures r.Err? ==> r.kind == IOError
      ensures r.Ok? ==> (SortedSet(r.value) &&
        forall p :: p in r.value <==> p in AvailableParams(recs) && NeedsColumn(fieldsSec.fields, p))
    {
      if recs == [] {
        return Err(IOError);
      }
      var params := SortedParams(AvailableParams(recs));
      var fs := fieldsSec.fields;
      return Ok(Filter(params, p => NeedsColumn(fs, p)));
    }
  }

  lemma FirstIndexIs<T>(s: seq<T>, x: T, i: nat)
    requires i < |s| && s[i] == x && forall j :: 0 <= j < i ==> s[j] != x
    ensures FirstIndex(s, x) == Some(i)
  {
    assert x in s;
  }

  /** Once an in-range date has no location, the answer stays undefined. */
  lemma {:induction false} LocationsWithinErrStays(ds: seq<int>, locs: seq<GeoLocation>, start: int, end: int, k: nat)
    requires 0 < k <= |ds| && start <= ds[k - 1] <= end && k - 1 >= |locs|
    ensures LocationsWithin(ds, locs, start, end).Err?
    decreases |ds|
  {
    var n := |ds| - 1;
    if k <= n {
      LocationsWithinErrStays(ds[..n], locs, start, end, k);
    }
  }
}
