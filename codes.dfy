/**
 * The ecCodes helpers MeteoIO's GRIB and BUFR plugins share (libcodes.cc):
 * reading one key of a message, the subset prefix of BUFR keys, the
 * decomposition of GRIB validity dates and times and of BUFR dates, the
 * grid parameters of a GRIB message, and the key list an index is built on.
 * A message is given as what ecCodes returns for each key (None for a key
 * ecCodes reports an error for).
 */
module Codes {
  import opened Common

  /** CODES_MISSING_LONG and CODES_MISSING_DOUBLE, the values ecCodes reports for a missing key. */
  const MissingLong: int := 2147483647
  const MissingDouble: real := -1.0e100

  /** static_cast<int> of a long: the value modulo 2^32, in two's complement. */
  function ToInt32(x: int): (r: int)
    ensures -0x8000_0000 <= r < 0x8000_0000
    ensures (r - x) % 0x1_0000_0000 == 0
    ensures -0x8000_0000 <= x < 0x8000_0000 ==> r == x
  {
    var m := x % 0x1_0000_0000;
    if m >= 0x8000_0000 then m - 0x1_0000_0000 else m
  }

  /**
   * getParameter for a double: None when the key could not be read and
   * `throwError` is off (the variable is left as it was); with
   * `throwError` on, CODES_CHECK ends the program. A missing value is nodata.
   */
  function GetDouble(raw: Option<real>, throwError: bool): (r: Result<Option<real>>)
    ensures r.Err? <==> raw.None? && throwError
    ensures r.Err? ==> r.kind == Aborted
    ensures r.Ok? ==> (r.value.Some? <==> raw.Some?)
    ensures raw.Some? ==> r == Ok(Some(if raw.value == MissingDouble then Nodata else raw.value))
  {
    match raw
    case None => if throwError then Err(Aborted) else Ok(None)
    case Some(v) => Ok(Some(if v == MissingDouble then Nodata else v))
  }

  /** getParameter for a long: the same, with the long missing value. */
  function GetLong(raw: Option<int>, throwError: bool): (r: Result<Option<int>>)
    ensures r.Err? <==> raw.None? && throwError
    ensures r.Err? ==> r.kind == Aborted
    ensures r.Ok? ==> (r.value.Some? <==> raw.Some?)
    ensures raw.Some? ==> r == Ok(Some(if raw.value == MissingLong then INodata else raw.value))
  {
    match raw
    case None => if throwError then Err(Aborted) else Ok(None)
    case Some(v) => Ok(Some(if v == MissingLong then INodata else v))
  }

  /**
   * getParameter for an int, as written: the nodata assigned for a missing
   * value is overwritten by the cast of the raw value on the next line.
   */
  function GetIntAsWritten(raw: Option<int>, throwError: bool): (r: Result<Option<int>>)
    ensures r.Err? <==> raw.None? && throwError
    ensures raw.Some? ==> r == Ok(Some(ToInt32(raw.value)))
  {
    match raw
    case None => if throwError then Err(Aborted) else Ok(None)
    case Some(v) => Ok(Some(ToInt32(v)))
  }

  /** The missing value comes out as 2147483647 instead of nodata. */
  lemma GetIntMissingIsNotNodata()
    ensures GetIntAsWritten(Some(MissingLong), true) == Ok(Some(2147483647))
    ensures GetLong(Some(MissingLong), true) == Ok(Some(INodata))
  {
  }

  /** getParameter for an int, as evidently intended: a missing value is nodata, anything else is cast. */
  function GetInt(raw: Option<int>, throwError: bool): (r: Result<Option<int>>)
    ensures r.Err? <==> raw.None? && throwError
    ensures r.Err? ==> r.kind == Aborted
  {
    match raw
    case None => if throwError then Err(Aborted) else Ok(None)
    case Some(v) => Ok(Some(if v == MissingLong then INodata else ToInt32(v)))
  }

  /** The int overload reads exactly what the long overload reads, narrowed to 32 bits. */
  lemma GetIntIsNarrowedLong(raw: Option<int>, throwError: bool)
    ensures GetInt(raw, throwError).Err? <==> GetLong(raw, throwError).Err?
    ensures GetLong(raw, throwError).Ok? && GetLong(raw, throwError).value.Some? ==>
      GetInt(raw, throwError) == Ok(Some(ToInt32(GetLong(raw, throwError).value.value)))
    ensures GetLong(raw, throwError) == Ok(None) ==> GetInt(raw, throwError) == Ok(None)
  {
  }

  /** getSubsetPrefix. */
  function SubsetPrefix(n: nat): (s: string)
    ensures s == "" <==> n == 0
    ensures n > 0 ==> StartsWith(s, "/subsetNumber=") && s[|s| - 1] == '/'
  {
    if n > 0 then "/subsetNumber=" + NatToString(n) + "/" else ""
  }

  /** The subset number can be read back from its prefix, so different subsets have different prefixes. */
  lemma SubsetPrefixRoundTrip(n: nat, m: nat)
    requires n > 0
    ensures var s := SubsetPrefix(n);
      14 < |s| && s[14..|s| - 1] == NatToString(n) && DigitsValue(s[14..|s| - 1]) == n
    ensures SubsetPrefix(n) == SubsetPrefix(m) ==> n == m
  {
    var s := SubsetPrefix(n);
    assert s[14..|s| - 1] == NatToString(n);
    NatToStringRoundTrip(n);
    if SubsetPrefix(n) == SubsetPrefix(m) {
      assert m > 0;
      NatToStringRoundTrip(m);
      assert SubsetPrefix(m)[14..|s| - 1] == NatToString(m);
    }
  }

  /** A date split into its calendar and clock fields. */
  datatype DateParts = DateParts(year: int, month: int, day: int, hour: int, minute: int)

  /** The date part of getMessageDateGrib: YYYYMMDD into year, month and day. */
  function SplitValidityDate(vd: int): (p: (int, int, int))
  {
    var year := ToInt32(TruncDiv(vd, 10000));
    var month := ToInt32(TruncDiv(vd, 100) - year * 100);
    var day := ToInt32(vd - month * 100 - year * 10000);
    (year, month, day)
  }

  /** The time part of getMessageDateGrib: HHMM into hours and minutes. */
  function SplitValidityTime(vt: int): (p: (int, int))
  {
    var hour := ToInt32(TruncDiv(vt, 100));
    var minutes := ToInt32(vt - hour * 100);
    (hour, minutes)
  }

  /** Within the range of an int, the fields give the date back, and a non-negative date has two-digit month and day. */
  lemma SplitValidityDateMeaning(vd: int)
    requires -0x8000_0000 <= vd < 0x8000_0000
    ensures var (y, m, d) := SplitValidityDate(vd);
      y * 10000 + m * 100 + d == vd &&
      (vd >= 0 ==> 0 <= m < 100 && 0 <= d < 100) &&
      (vd < 0 ==> -100 < m <= 0 && -100 < d <= 0)
  {
    var y := TruncDiv(vd, 10000);
    var m := TruncDiv(vd, 100) - y * 100;
    assert -0x8000_0000 <= y < 0x8000_0000;
    assert -0x8000_0000 <= m < 0x8000_0000;
    assert -0x8000_0000 <= vd - m * 100 - y * 10000 < 0x8000_0000;
  }

  /** Year, month and day written as YYYYMMDD are split back into themselves. */
  lemma SplitValidityDateInverse(y: int, m: int, d: int)
    requires 0 <= y < 200000 && 0 <= m < 100 && 0 <= d < 100
    ensures SplitValidityDate(y * 10000 + m * 100 + d) == (y, m, d)
  {
    var vd := y * 10000 + m * 100 + d;
    assert TruncDiv(vd, 10000) == y;
    assert TruncDiv(vd, 100) == y * 100 + m;
  }

  /** Within the range of an int, hours and minutes give the time back. */
  lemma SplitValidityTimeMeaning(vt: int)
    requires -0x8000_0000 <= vt < 0x8000_0000
    ensures var (h, mi) := SplitValidityTime(vt);
      h * 100 + mi == vt && (vt >= 0 ==> 0 <= mi < 100) && (vt < 0 ==> -100 < mi <= 0)
  {
  }

  /** Hours and minutes written as HHMM are split back into themselves. */
  lemma SplitValidityTimeInverse(h: int, mi: int)
    requires 0 <= h < 10000000 && 0 <= mi < 100
    ensures SplitValidityTime(h * 100 + mi) == (h, mi)
  {
    assert TruncDiv(h * 100 + mi, 100) == h;
  }

  /** getMessageDateGrib, up to Date::setDate: the validity date and time read and split. */
  function GribDate(lng: string -> Option<int>): (r: Result<DateParts>)
    ensures r.Err? <==> lng("validityDate").None? || lng("validityTime").None?
  {
    var vd :- GetLong(lng("validityDate"), true);
    var vt :- GetLong(lng("validityTime"), true);
    var (y, m, d) := SplitValidityDate(vd.value);
    var (h, mi) := SplitValidityTime(vt.value);
    Ok(DateParts(y, m, d, h, mi))
  }

  /** What getMessageDateBUFR builds: an undefined Date (NoDate), a Date to the minute, or one to the second. */
  datatype BufrDate = NoDate | ToMinute(parts: DateParts) | ToSecond(parts: DateParts, second: int)

  /** The keys getMessageDateBUFR reads, in order, for a subset. */
  function BufrDateKeys(subset: nat): (ks: seq<string>)
    ensures |ks| == 6
    ensures forall i :: 0 <= i < 6 ==> ks[i] == SubsetPrefix(subset) + ["year", "month", "day", "hour", "minute", "second"][i]
  {
    var p := SubsetPrefix(subset);
    [p + "year", p + "month", p + "day", p + "hour", p + "minute", p + "second"]
  }

  /** The date fields as getMessageDateBUFR checks them, once read. */
  function BufrDateOf(v: seq<int>, second: int): (d: BufrDate)
    requires |v| == 5
    ensures d.NoDate? <==> -1 in v
    ensures d.ToMinute? <==> -1 !in v && second == -1
    ensures !d.NoDate? ==> d.parts == DateParts(v[0], v[1], v[2], v[3], v[4])
    ensures d.ToSecond? ==> d.second == second
  {
    if v[0] == -1 || v[1] == -1 || v[2] == -1 || v[3] == -1 || v[4] == -1 then NoDate
    else if second == -1 then ToMinute(DateParts(v[0], v[1], v[2], v[3], v[4]))
    else ToSecond(DateParts(v[0], v[1], v[2], v[3], v[4]), second)
  }

  /** The int read for one mandatory key of getMessageDateBUFR. */
  function MandatoryInt(raw: Option<int>): (r: Result<int>)
    ensures r.Err? <==> raw.None?
    ensures r.Ok? ==> GetInt(raw, true) == Ok(Some(r.value))
  {
    var v :- GetInt(raw, true);
    Ok(v.value)
  }

  /** getMessageDateBUFR: year to minute are mandatory, the second is optional. */
  function BufrMessageDate(lng: string -> Option<int>, subset: nat): (r: Result<BufrDate>)
    ensures r.Err? <==> exists i :: 0 <= i < 5 && lng(BufrDateKeys(subset)[i]).None?
    ensures r.Ok? && lng(BufrDateKeys(subset)[5]).None? ==> !r.value.ToSecond?
  {
    var ks := BufrDateKeys(subset);
    var y :- MandatoryInt(lng(ks[0]));
    var mo :- MandatoryInt(lng(ks[1]));
    var d :- MandatoryInt(lng(ks[2]));
    var h :- MandatoryInt(lng(ks[3]));
    var mi :- MandatoryInt(lng(ks[4]));
    var s := GetInt(lng(ks[5]), false);
    var second := if s.Ok? && s.value.Some? then s.value.value else -1;
    Ok(BufrDateOf([y, mo, d, h, mi], second))
  }

  /** The keys of the grid parameters getGridParameters returns. */
  const GridKeys: set<string> := {
    "Ni", "Nj", "ll_latitude", "ll_longitude", "ur_latitude", "ur_longitude", "angleOfRotationInDegrees",
    "latitudeOfSouthernPole", "longitudeOfSouthernPole", "latitudeOfNorthernPole", "longitudeOfNorthernPole"}

  /** A key read with `nothrow`, with the default used when it could not be read. */
  function DoubleOr(raw: Option<real>, dflt: real): (x: real)
    ensures raw.None? ==> x == dflt
  {
    match GetDouble(raw, false)
    case Ok(Some(v)) => v
    case _ => dflt
  }

  /** getGridParameters: the size, the corners, and the rotation with its defaults. */
  function GridParameters(dbl: string -> Option<real>, lng: string -> Option<int>): (r: Result<map<string, real>>)
    ensures r.Ok? ==> r.value.Keys == GridKeys
    ensures r.Ok? ==> r.value["latitudeOfNorthernPole"] == -r.value["latitudeOfSouthernPole"] &&
                      r.value["longitudeOfNorthernPole"] == r.value["longitudeOfSouthernPole"] + 180.0
    ensures r.Err? <==> lng("Ni").None? || lng("Nj").None? ||
                        dbl("latitudeOfFirstGridPointInDegrees").None? || dbl("longitudeOfFirstGridPointInDegrees").None? ||
                        dbl("latitudeOfLastGridPointInDegrees").None? || dbl("longitudeOfLastGridPointInDegrees").None?
  {
    var ni :- GetLong(lng("Ni"), true);
    var nj :- GetLong(lng("Nj"), true);
    var angle := DoubleOr(dbl("angleOfRotationInDegrees"), 0.0);
    var latS := DoubleOr(dbl("latitudeOfSouthernPoleInDegrees"), -90.0);
    var lonS := DoubleOr(dbl("longitudeOfSouthernPoleInDegrees"), 0.0);
    var llLat :- GetDouble(dbl("latitudeOfFirstGridPointInDegrees"), true);
    var llLon :- GetDouble(dbl("longitudeOfFirstGridPointInDegrees"), true);
    var urLat :- GetDouble(dbl("latitudeOfLastGridPointInDegrees"), true);
    var urLon :- GetDouble(dbl("longitudeOfLastGridPointInDegrees"), true);
    Ok(map["Ni" := ni.value as real, "Nj" := nj.value as real,
           "ll_latitude" := llLat.value, "ll_longitude" := llLon.value,
           "ur_latitude" := urLat.value, "ur_longitude" := urLon.value,
           "angleOfRotationInDegrees" := angle,
           "latitudeOfSouthernPole" := latS, "longitudeOfSouthernPole" := lonS,
           "latitudeOfNorthernPole" := -latS, "longitudeOfNorthernPole" := lonS + 180.0])
  }

  /** A grid without rotation keys is unrotated: its poles are the geographic ones. */
  lemma UnrotatedGrid(dbl: string -> Option<real>, lng: string -> Option<int>)
    requires GridParameters(dbl, lng).Ok?
    requires dbl("angleOfRotationInDegrees").None? && dbl("latitudeOfSouthernPoleInDegrees").None? &&
             dbl("longitudeOfSouthernPoleInDegrees").None?
    ensures var g := GridParameters(dbl, lng).value;
      g["angleOfRotationInDegrees"] == 0.0 && g["latitudeOfSouthernPole"] == -90.0 &&
      g["latitudeOfNorthernPole"] == 90.0 && g["longitudeOfNorthernPole"] == 180.0
  {
  }

  /** The index string after one more key: a comma first unless nothing was written yet. */
  function AddKey(acc: string, key: string): (r: string)
  {
    if acc != "" then acc + "," + key else acc + key
  }

  /** The index string indexFile builds from its keys. */
  function JoinKeys(keys: seq<string>): (s: string)
    decreases |keys|
  {
    if keys == [] then "" else AddKey(JoinKeys(keys[..|keys| - 1]), keys[|keys| - 1])
  }

  /** The loop of indexFile that concatenates the keys as "key1,key2,key3". */
  method IndexingString(keys: seq<string>) returns (s: string)
    ensures s == JoinKeys(keys)
  {
    s := "";
    for i := 0 to |keys|
      invariant s == JoinKeys(keys[..i])
    {
      assert keys[..i + 1][..i] == keys[..i];
      if s != "" {
        s := s + ",";
      }
      s := s + keys[i];
    }
    assert keys[..|keys|] == keys;
  }

  /** The first occurrence of a character, from its defining property. */
  lemma FindCharFirst(s: string, c: char, i: nat)
    requires i < |s| && s[i] == c && forall j :: 0 <= j < i ==> s[j] != c
    ensures FindChar(s, c, 0) == Some(i)
  {
  }

  /** Splitting x + "," + k, for a k without commas, splits x and then adds k. */
  lemma {:induction false} SplitSnoc(x: string, k: string)
    requires ',' !in k
    ensures Split(x + "," + k, ',') == Split(x, ',') + [k]
    decreases |x|
  {
    assert FindChar(k, ',', 0).None?;
    SplitNotFound(k, ',');
    match FindChar(x, ',', 0)
    case None =>
      SplitNotFound(x, ',');
      SplitSnocLast(x, k);
    case Some(i) =>
      SplitFound(x, ',', i);
      SplitSnocFirst(x, k, i);
      SplitSnoc(x[i + 1..], k);
  }

  /** Without a comma in x, the added comma is the first one. */
  lemma SplitSnocLast(x: string, k: string)
    requires FindChar(x, ',', 0).None?
    ensures Split(x + "," + k, ',') == [x] + Split(k, ',')
  {
    var s := x + "," + k;
    FindCharFirst(s, ',', |x|);
    SplitFound(s, ',', |x|);
    assert s[..|x|] == x && s[|x| + 1..] == k;
  }

  /** With a first comma at i in x, it is the first one of x + "," + k too. */
  lemma SplitSnocFirst(x: string, k: string, i: nat)
    requires FindChar(x, ',', 0) == Some(i)
    ensures Split(x + "," + k, ',') == [x[..i]] + Split(x[i + 1..] + "," + k, ',')
  {
    var s := x + "," + k;
    FindCharFirst(s, ',', i);
    SplitFound(s, ',', i);
    assert s[..i] == x[..i];
    assert s[i + 1..] == x[i + 1..] + "," + k;
  }

  /**
   * Keys that are non-empty and contain no comma are recovered by splitting the
   * index string at commas; in particular it neither starts nor ends with one.
   */
  lemma {:induction false} JoinKeysSplit(keys: seq<string>)
    requires |keys| > 0
    requires forall i :: 0 <= i < |keys| ==> keys[i] != "" && ',' !in keys[i]
    ensures JoinKeys(keys) != ""
    ensures Split(JoinKeys(keys), ',') == keys
    decreases |keys|
  {
    var n := |keys|;
    var last := keys[n - 1];
    var init := keys[..n - 1];
    if n == 1 {
      assert init == [];
      assert JoinKeys(keys) == last;
      assert FindChar(last, ',', 0).None?;
    } else {
      JoinKeysSplit(init);
      assert JoinKeys(keys) == JoinKeys(init) + "," + last;
      SplitSnoc(JoinKeys(init), last);
      assert init + [last] == keys;
    }
  }

  /** An empty key written first leaves no trace, even of its separator. */
  lemma LeadingEmptyKey(k: string)
    ensures JoinKeys(["", k]) == k
  {
    assert ["", k][..1] == [""];
    assert [""][..0] == [];
  }
}
