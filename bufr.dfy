/**
 * The bookkeeping of BUFRFile: how a subset's station is identified, which
 * coordinate reference its position is given in, and how readMetaData
 * collects the stations of a file (first-seen order, one set of dates per
 * station, consistent metadata, the overall date range), then maps them to
 * series for readData. A subset is given as the values ecCodes reports for
 * it; the messages and their decoding are not part of this model.
 */
module Bufr {
  import opened Common
  import opened Meteo
  import Codes

  // ------------------ station identification ------------------

  /**
   * The getParameter template over several keys: the value of the first key
   * that reads a value different from `init`, or `init` with false.
   */
  function FirstFound(read: string -> Option<string>, prefix: string, names: seq<string>, init: string): (r: (bool, string))
    ensures !r.0 ==> r.1 == init
    ensures !r.0 ==> forall i :: 0 <= i < |names| ==> read(prefix + names[i]) in {None, Some(init)}
    ensures r.0 ==> r.1 != init && exists i :: (0 <= i < |names| && read(prefix + names[i]) == Some(r.1) &&
                                                forall j :: 0 <= j < i ==> read(prefix + names[j]) in {None, Some(init)})
    decreases |names|
  {
    if names == [] then (false, init)
    else
      var rest := FirstFound(read, prefix, names[1..], init);
      assert forall i :: 1 <= i < |names| ==> names[i] == names[1..][i - 1];
      match read(prefix + names[0])
      case Some(v) => if v != init then (true, v) else rest
      case None => rest
  }

  const IdKeys: seq<string> := ["stationNumber", "wigosIdentifierSeries", "shortStationName"]
  const NameKeys: seq<string> := ["stationOrSiteName", "longStationName"]

  /** getStationIdfromMessage: the ID, falling back to the name; a subset with neither is an error. */
  function StationIdOf(read: string -> Option<string>, subset: nat): (r: Result<(string, string)>)
    ensures var p := Codes.SubsetPrefix(subset);
      var id := FirstFound(read, p, IdKeys, "").1;
      var name := FirstFound(read, p, NameKeys, "").1;
      (r.Err? <==> id == "" && name == "") &&
      (r.Err? ==> r.kind == AccessError) &&
      (r.Ok? ==> r.value.0 != "" && r.value.1 == name && r.value.0 == (if id == "" then name else id))
  {
    var p := Codes.SubsetPrefix(subset);
    var id := FirstFound(read, p, IdKeys, "").1;
    var name := FirstFound(read, p, NameKeys, "").1;
    if id == "" then
      if name == "" then Err(AccessError) else Ok((name, name))
    else Ok((id, name))
  }

  // ------------------ coordinate reference ------------------

  /** FLAG_TO_EPSG: the EPSG codes of the BUFR coordinate reference flags 0 to 3. */
  const FlagToEpsg: seq<int> := [4326, 4258, 4269, 4314]

  /** Where the position of a station is taken from. */
  datatype Position = FromConfig(coords: string, missingInFile: bool) | FromFile(epsg: int)

  /** The coordinateReferenceSystem flag, read with `nothrow`: 999 when the key is absent. */
  function RefFlag(raw: Option<int>): (flag: int)
    ensures raw.None? ==> flag == 999
    ensures raw.Some? ==> Codes.GetLong(raw, false) == Ok(Some(flag))
  {
    match Codes.GetLong(raw, false)
    case Ok(Some(v)) => v
    case _ => 999
  }

  /**
   * handleReferenceCoordinates as written: a negative flag passes the
   * `ref_flag <= 3` test and indexes FLAG_TO_EPSG out of bounds.
   */
  function ReferenceCoordinatesAsWritten(flag: int, refCoords: string): (r: Result<Position>)
    ensures flag < 0 && flag != 999 && flag != 65535 ==> r == Err(Undefined)
  {
    if flag == 999 || flag == 65535 then
      if refCoords == "" then Err(InvalidFormat) else Ok(FromConfig(refCoords, flag == 65535))
    else if flag > 3 then Err(InvalidFormat)
    else if flag >= 0 then Ok(FromFile(FlagToEpsg[flag]))
    else Err(Undefined)
  }

  /** A flag ecCodes reports as missing becomes nodata, and so reaches the out-of-bounds read. */
  lemma MissingFlagOutOfBounds(refCoords: string)
    ensures RefFlag(Some(Codes.MissingLong)) == INodata
    ensures ReferenceCoordinatesAsWritten(RefFlag(Some(Codes.MissingLong)), refCoords) == Err(Undefined)
  {
  }

  /** handleReferenceCoordinates as evidently intended: only flags 0 to 3 index the table, any other flag is unsupported. */
  function ReferenceCoordinates(flag: int, refCoords: string): (r: Result<Position>)
    ensures r.Err? ==> r.kind == InvalidFormat
  {
    if flag == 999 || flag == 65535 then
      if refCoords == "" then Err(InvalidFormat) else Ok(FromConfig(refCoords, flag == 65535))
    else if flag < 0 || flag > 3 then Err(InvalidFormat)
    else Ok(FromFile(FlagToEpsg[flag]))
  }

  /**
   * The configured coordinates are used exactly for the "not found" and
   * "missing" flags, the file's EPSG code exactly for flags 0 to 3, and
   * every other flag, or a missing reference with nothing configured, is rejected.
   */
  lemma ReferenceCoordinatesMeaning(flag: int, refCoords: string)
    ensures ReferenceCoordinates(flag, refCoords).Ok? <==>
              ((flag == 999 || flag == 65535) && refCoords != "") || 0 <= flag <= 3
    ensures ReferenceCoordinates(flag, refCoords).Ok? && ReferenceCoordinates(flag, refCoords).value.FromFile? ==>
              0 <= flag <= 3 && ReferenceCoordinates(flag, refCoords).value.epsg == FlagToEpsg[flag]
    ensures ReferenceCoordinates(flag, refCoords).Ok? && ReferenceCoordinates(flag, refCoords).value.FromConfig? ==>
              ReferenceCoordinates(flag, refCoords).value.coords == refCoords &&
              (ReferenceCoordinates(flag, refCoords).value.missingInFile <==> flag == 65535)
    ensures flag >= 0 ==> ReferenceCoordinates(flag, refCoords) == ReferenceCoordinatesAsWritten(flag, refCoords)
  {
  }

  // ------------------ readMetaData ------------------

  /** What processSubsets uses of one subset: its station metadata, its date (a Julian date) and its timezone, nodata if absent. */
  datatype Subset = Subset(meta: StationMeta, date: real, tz: real)

  /** StationData::isValid and StationData::isEmpty, which are not part of this model. */
  datatype StationChecks = StationChecks(valid: StationMeta -> bool, empty: StationMeta -> bool)

  /** The state readMetaData builds: meta_data, station_ids_in_file, station_dates, station_timezones, start_date and end_date. */
  datatype Book = Book(meta: map<string, StationMeta>, ids: seq<string>, dates: map<string, set<real>>,
                       tzs: map<string, real>, start: Option<real>, end: Option<real>)

  function EmptyBook(): Book
  {
    Book(map[], [], map[], map[], None, None)
  }

  function IdOf(s: Subset): string { s.meta.stationId }

  /** processNewStation. */
  function NewStation(b: Book, id: string, m: StationMeta, d: real, tz: real, c: StationChecks): (r: Result<Book>)
    ensures r.Err? <==> !c.valid(m)
    ensures r.Err? ==> r.kind == IOError
  {
    if !c.valid(m) then Err(IOError)
    else Ok(b.(ids := b.ids + [id], meta := b.meta[id := m], dates := b.dates[id := {d}], tzs := b.tzs[id := tz]))
  }

  /** processExistingStation: the date is added to the station's set; a repeated date or differing non-empty metadata is an error. */
  function ExistingStation(b: Book, id: string, m: StationMeta, d: real, c: StationChecks): (r: Result<Book>)
    requires id in b.meta
    ensures r.Err? ==> r.kind == IOError
  {
    var ds := if id in b.dates then b.dates[id] else {};
    if d in ds then Err(IOError)
    else if !c.empty(m) && b.meta[id] != m then Err(IOError)
    else Ok(b.(dates := b.dates[id := ds + {d}]))
  }

  /** updateDateRange. */
  function UpdateRange(b: Book, d: real): (r: Book)
    ensures r.start.Some? && r.end.Some?
    ensures r.start.value <= d <= r.end.value
    ensures r.start.value == d || (b.start.Some? && r.start == b.start)
    ensures r.end.value == d || (b.end.Some? && r.end == b.end)
    ensures b.start.Some? ==> r.start.value <= b.start.value
    ensures b.end.Some? ==> r.end.value >= b.end.value
    ensures r.(start := b.start, end := b.end) == b
  {
    b.(start := Some(if b.start.None? || d < b.start.value then d else b.start.value),
       end := Some(if b.end.None? || d > b.end.value then d else b.end.value))
  }

  /** One iteration of processSubsets: a nodata timezone takes the default, then the station is new or known. */
  function SubsetStep(b: Book, s: Subset, c: StationChecks, defaultTz: real): (r: Result<Book>)
    ensures r.Err? ==> r.kind == IOError
  {
    var tz := if s.tz == Nodata then defaultTz else s.tz;
    var id := IdOf(s);
    var b' :- if id !in b.meta then NewStation(b, id, s.meta, s.date, tz, c) else ExistingStation(b, id, s.meta, s.date, c);
    Ok(UpdateRange(b', s.date))
  }

  /** processSubsets over the subsets of all messages, from the i-th on, stopping at the first error. */
  function SubsetsFrom(b: Book, ss: seq<Subset>, i: nat, c: StationChecks, defaultTz: real): (r: Result<Book>)
    requires i <= |ss|
    ensures r.Err? ==> r.kind == IOError
    decreases |ss| - i
  {
    if i == |ss| then Ok(b)
    else
      var b' :- SubsetStep(b, ss[i], c, defaultTz);
      SubsetsFrom(b', ss, i + 1, c, defaultTz)
  }

  /** readMetaData and the constructor's timezone check: a file without stations, or a nodata default timezone, is an error. */
  function MetaData(ss: seq<Subset>, c: StationChecks, defaultTz: real): (r: Result<Book>)
    ensures r.Err? ==> r.kind == IOError
    ensures r.Ok? ==> r.value.meta != map[] && defaultTz != Nodata
  {
    var b :- SubsetsFrom(EmptyBook(), ss, 0, c, defaultTz);
    if b.meta == map[] then Err(IOError)
    else if defaultTz == Nodata then Err(IOError)
    else Ok(b)
  }

  /** The index of the first subset of station `id`, or |ss| if there is none. */
  function FirstIndex(ss: seq<Subset>, id: string): (k: nat)
    ensures k <= |ss|
    ensures k < |ss| ==> IdOf(ss[k]) == id
    ensures forall j :: 0 <= j < k ==> IdOf(ss[j]) != id
    decreases |ss|
  {
    if ss == [] then 0
    else if IdOf(ss[0]) == id then 0
    else
      var k := FirstIndex(ss[1..], id);
      assert forall j :: 1 <= j < |ss| ==> ss[j] == ss[1..][j - 1];
      1 + k
  }

  /** The stations of the first i subsets, in the order they first appear. */
  function FirstSeen(ss: seq<Subset>, i: nat): (ids: seq<string>)
    requires i <= |ss|
  {
    if i == 0 then [] else FirstSeen(ss, i - 1) + (if FirstIndex(ss, IdOf(ss[i - 1])) == i - 1 then [IdOf(ss[i - 1])] else [])
  }

  /**
   * What readMetaData demands of subset j: the first subset of a station has
   * valid metadata; a later one repeats none of the station's earlier dates
   * and has empty metadata or the same metadata as the first.
   */
  predicate SubsetAccepted(ss: seq<Subset>, j: nat, c: StationChecks)
    requires j < |ss|
  {
    var f := FirstIndex(ss, IdOf(ss[j]));
    if f == j then c.valid(ss[j].meta)
    else
      (forall k :: 0 <= k < j && IdOf(ss[k]) == IdOf(ss[j]) ==> ss[k].date != ss[j].date) &&
      (c.empty(ss[j].meta) || ss[j].meta == ss[f].meta)
  }

  /** Every subset from the i-th on is accepted. */
  predicate AcceptedFrom(ss: seq<Subset>, i: nat, c: StationChecks)
    requires i <= |ss|
    decreases |ss| - i
  {
    i == |ss| || (SubsetAccepted(ss, i, c) && AcceptedFrom(ss, i + 1, c))
  }

  lemma {:induction false} AcceptedFromMeaning(ss: seq<Subset>, i: nat, c: StationChecks)
    requires i <= |ss|
    ensures AcceptedFrom(ss, i, c) <==> forall j :: i <= j < |ss| ==> SubsetAccepted(ss, j, c)
    decreases |ss| - i
  {
    if i < |ss| {
      AcceptedFromMeaning(ss, i + 1, c);
    }
  }

  /** The timezone a subset's station is recorded with. */
  function TzOf(s: Subset, defaultTz: real): real
  {
    if s.tz == Nodata then defaultTz else s.tz
  }

  /** The station list after the first i subsets: each station once, in first-seen order. */
  predicate IdsAfter(b: Book, ss: seq<Subset>, i: nat)
    requires i <= |ss|
  {
    b.ids == FirstSeen(ss, i)
  }

  /** The metadata after the first i subsets: exactly the stations seen, each with the metadata of its first subset. */
  ghost predicate MetaAfter(b: Book, ss: seq<Subset>, i: nat)
    requires i <= |ss|
  {
    (forall id :: id in b.meta <==> FirstIndex(ss, id) < i) &&
    (forall id :: id in b.meta ==> b.meta[id] == ss[FirstIndex(ss, id)].meta)
  }

  /** The timezones after the first i subsets: exactly the stations seen, each with the timezone of its first subset. */
  ghost predicate TzsAfter(b: Book, ss: seq<Subset>, i: nat, defaultTz: real)
    requires i <= |ss|
  {
    (forall id :: id in b.tzs <==> id in b.meta) &&
    (forall id :: id in b.tzs ==> FirstIndex(ss, id) < i && b.tzs[id] == TzOf(ss[FirstIndex(ss, id)], defaultTz))
  }

  /** The dates of station `id` among the first i subsets. */
  function DatesOf(ss: seq<Subset>, i: nat, id: string): set<real>
    requires i <= |ss|
  {
    if i == 0 then {} else DatesOf(ss, i - 1, id) + (if IdOf(ss[i - 1]) == id then {ss[i - 1].date} else {})
  }

  lemma {:induction false} DatesOfMeaning(ss: seq<Subset>, i: nat, id: string, d: real)
    requires i <= |ss|
    ensures d in DatesOf(ss, i, id) <==> exists k :: 0 <= k < i && IdOf(ss[k]) == id && ss[k].date == d
  {
    if i > 0 {
      DatesOfMeaning(ss, i - 1, id, d);
      if IdOf(ss[i - 1]) == id && ss[i - 1].date == d {
        assert IdOf(ss[i - 1]) == id && ss[i - 1].date == d;
      }
    }
  }

  /** The least and the greatest date among the first i subsets, as updateDateRange accumulates them. */
  function RangeOf(ss: seq<Subset>, i: nat): (r: (Option<real>, Option<real>))
    requires i <= |ss|
  {
    if i == 0 then (None, None)
    else
      var (lo, hi) := RangeOf(ss, i - 1);
      var d := ss[i - 1].date;
      (Some(if lo.None? || d < lo.value then d else lo.value), Some(if hi.None? || d > hi.value then d else hi.value))
  }

  /** RangeOf is the minimum and the maximum of the dates, and undefined only before the first subset. */
  lemma {:induction false} RangeOfMeaning(ss: seq<Subset>, i: nat)
    requires i <= |ss|
    ensures var (lo, hi) := RangeOf(ss, i);
      (i == 0 <==> lo.None?) && (i == 0 <==> hi.None?) &&
      (i > 0 ==> (forall k :: 0 <= k < i ==> lo.value <= ss[k].date <= hi.value) &&
                 (exists k :: 0 <= k < i && lo.value == ss[k].date) &&
                 (exists k :: 0 <= k < i && hi.value == ss[k].date))
  {
    if i > 0 {
      RangeOfMeaning(ss, i - 1);
      var d := ss[i - 1].date;
      var (lo, hi) := RangeOf(ss, i - 1);
      if i > 1 {
        var ks :| 0 <= ks < i - 1 && lo.value == ss[ks].date;
        var ke :| 0 <= ke < i - 1 && hi.value == ss[ke].date;
        assert RangeOf(ss, i).0.value == d || RangeOf(ss, i).0.value == ss[ks].date;
        assert RangeOf(ss, i).1.value == d || RangeOf(ss, i).1.value == ss[ke].date;
      } else {
        assert RangeOf(ss, i).0.value == ss[0].date && RangeOf(ss, i).1.value == ss[0].date;
      }
    }
  }

  /** The dates after the first i subsets: for each station seen, the dates of its subsets. */
  ghost predicate DatesAfter(b: Book, ss: seq<Subset>, i: nat)
    requires i <= |ss|
  {
    (forall id :: id in b.dates <==> id in b.meta) &&
    (forall id :: id in b.dates ==> b.dates[id] == DatesOf(ss, i, id))
  }

  /** The date range after the first i subsets. */
  predicate RangeAfter(b: Book, ss: seq<Subset>, i: nat)
    requires i <= |ss|
  {
    (b.start, b.end) == RangeOf(ss, i)
  }

  /** The correspondence between a book and the subsets already processed. */
  ghost predicate After(b: Book, ss: seq<Subset>, i: nat, defaultTz: real)
    requires i <= |ss|
  {
    IdsAfter(b, ss, i) && MetaAfter(b, ss, i) && TzsAfter(b, ss, i, defaultTz) && DatesAfter(b, ss, i) && RangeAfter(b, ss, i)
  }

  lemma FirstIndexAt(ss: seq<Subset>, i: nat)
    requires i < |ss|
    ensures FirstIndex(ss, IdOf(ss[i])) <= i
  {
  }

  /** Whether processSubsets accepts a subset, given the book so far. */
  predicate Accepts(b: Book, s: Subset, c: StationChecks)
  {
    var id := IdOf(s);
    if id !in b.meta then c.valid(s.meta)
    else s.date !in (if id in b.dates then b.dates[id] else {}) && (c.empty(s.meta) || b.meta[id] == s.meta)
  }

  /** What an accepted subset does to the book, field by field. */
  ghost predicate Stepped(b: Book, s: Subset, r: Book, defaultTz: real)
  {
    var id := IdOf(s);
    r.start == UpdateRange(b, s.date).start && r.end == UpdateRange(b, s.date).end &&
    (id !in b.meta ==> r.ids == b.ids + [id] && r.meta == b.meta[id := s.meta] &&
                       r.tzs == b.tzs[id := TzOf(s, defaultTz)] && r.dates == b.dates[id := {s.date}]) &&
    (id in b.meta ==> r.ids == b.ids && r.meta == b.meta && r.tzs == b.tzs &&
                      r.dates == b.dates[id := (if id in b.dates then b.dates[id] else {}) + {s.date}])
  }

  lemma StepResult(b: Book, s: Subset, c: StationChecks, defaultTz: real)
    ensures SubsetStep(b, s, c, defaultTz).Ok? <==> Accepts(b, s, c)
    ensures SubsetStep(b, s, c, defaultTz).Ok? ==> Stepped(b, s, SubsetStep(b, s, c, defaultTz).value, defaultTz)
  {
  }

  lemma {:induction false} StepIds(b: Book, r: Book, ss: seq<Subset>, i: nat, defaultTz: real)
    requires i < |ss| && IdsAfter(b, ss, i) && MetaAfter(b, ss, i) && Stepped(b, ss[i], r, defaultTz)
    ensures IdsAfter(r, ss, i + 1)
  {
    var id := IdOf(ss[i]);
    FirstIndexAt(ss, i);
    if id !in b.meta {
      assert FirstIndex(ss, id) == i;
    }
  }

  lemma {:induction false} StepMeta(b: Book, r: Book, ss: seq<Subset>, i: nat, defaultTz: real)
    requires i < |ss| && MetaAfter(b, ss, i) && Stepped(b, ss[i], r, defaultTz)
    ensures MetaAfter(r, ss, i + 1)
  {
    var id := IdOf(ss[i]);
    FirstIndexAt(ss, i);
    forall x
      ensures x in r.meta <==> FirstIndex(ss, x) < i + 1
    {
      assert FirstIndex(ss, x) == i ==> x == id;
    }
  }

  lemma {:induction false} StepTzs(b: Book, r: Book, ss: seq<Subset>, i: nat, defaultTz: real)
    requires i < |ss| && MetaAfter(b, ss, i) && TzsAfter(b, ss, i, defaultTz) && Stepped(b, ss[i], r, defaultTz)
    ensures TzsAfter(r, ss, i + 1, defaultTz)
  {
    var id := IdOf(ss[i]);
    FirstIndexAt(ss, i);
    forall x | x in r.tzs
      ensures FirstIndex(ss, x) < i + 1 && r.tzs[x] == TzOf(ss[FirstIndex(ss, x)], defaultTz)
    {
      if x != id {
        assert r.tzs[x] == b.tzs[x];
      } else if id !in b.meta {
        assert FirstIndex(ss, id) == i;
      }
    }
  }

  lemma {:induction false} StepDates(b: Book, r: Book, ss: seq<Subset>, i: nat, defaultTz: real)
    requires i < |ss| && MetaAfter(b, ss, i) && DatesAfter(b, ss, i) && Stepped(b, ss[i], r, defaultTz)
    ensures DatesAfter(r, ss, i + 1)
  {
    var id := IdOf(ss[i]);
    FirstIndexAt(ss, i);
    forall x | x in r.dates
      ensures r.dates[x] == DatesOf(ss, i + 1, x)
    {
      if x != id {
        assert r.dates[x] == b.dates[x];
      } else if id !in b.meta {
        assert DatesOf(ss, i, id) == {} by {
          forall d
            ensures d !in DatesOf(ss, i, id)
          {
            DatesOfMeaning(ss, i, id, d);
          }
        }
      }
    }
  }

  lemma {:induction false} StepRange(b: Book, r: Book, ss: seq<Subset>, i: nat, defaultTz: real)
    requires i < |ss| && RangeAfter(b, ss, i) && Stepped(b, ss[i], r, defaultTz)
    ensures RangeAfter(r, ss, i + 1)
  {
  }

  /** A subset is accepted by the book exactly when it is accepted in the sense of SubsetAccepted. */
  lemma {:induction false} StepAccepted(b: Book, ss: seq<Subset>, i: nat, c: StationChecks)
    requires i < |ss| && MetaAfter(b, ss, i) && DatesAfter(b, ss, i)
    ensures Accepts(b, ss[i], c) <==> SubsetAccepted(ss, i, c)
  {
    var s := ss[i];
    var id := IdOf(s);
    FirstIndexAt(ss, i);
    if id in b.meta {
      assert FirstIndex(ss, id) < i;
      DatesOfMeaning(ss, i, id, s.date);
    }
  }

  /** An accepted subset keeps the correspondence; a subset is accepted exactly in the sense of SubsetAccepted. */
  lemma StepAfter(b: Book, ss: seq<Subset>, i: nat, c: StationChecks, defaultTz: real)
    requires i < |ss| && After(b, ss, i, defaultTz)
    ensures SubsetStep(b, ss[i], c, defaultTz).Ok? <==> SubsetAccepted(ss, i, c)
    ensures SubsetStep(b, ss[i], c, defaultTz).Ok? ==> After(SubsetStep(b, ss[i], c, defaultTz).value, ss, i + 1, defaultTz)
  {
    StepAccepted(b, ss, i, c);
    StepResult(b, ss[i], c, defaultTz);
    var r := SubsetStep(b, ss[i], c, defaultTz);
    if r.Ok? {
      StepIds(b, r.value, ss, i, defaultTz);
      StepMeta(b, r.value, ss, i, defaultTz);
      StepTzs(b, r.value, ss, i, defaultTz);
      StepDates(b, r.value, ss, i, defaultTz);
      StepRange(b, r.value, ss, i, defaultTz);
    }
  }

  /** processSubsets from subset i on accepts exactly when every remaining subset is accepted, and its book corresponds to all of them. */
  lemma {:induction false} SubsetsFromMeaning(b: Book, ss: seq<Subset>, i: nat, c: StationChecks, defaultTz: real)
    requires i <= |ss| && After(b, ss, i, defaultTz)
    ensures SubsetsFrom(b, ss, i, c, defaultTz).Ok? <==> AcceptedFrom(ss, i, c)
    ensures SubsetsFrom(b, ss, i, c, defaultTz).Ok? ==> After(SubsetsFrom(b, ss, i, c, defaultTz).value, ss, |ss|, defaultTz)
    decreases |ss| - i
  {
    if i < |ss| {
      StepAfter(b, ss, i, c, defaultTz);
      var r := SubsetStep(b, ss[i], c, defaultTz);
      if r.Ok? {
        SubsetsFromMeaning(r.value, ss, i + 1, c, defaultTz);
      }
    }
  }

  /**
   * readMetaData accepts a file exactly when it has a subset, every subset is
   * accepted, and the default timezone is not nodata. It then lists each
   * station once, in first-seen order, with the metadata and timezone of its
   * first subset and exactly the dates of its subsets, and the date range runs
   * from the least to the greatest date of all subsets.
   */
  lemma MetaDataMeaning(ss: seq<Subset>, c: StationChecks, defaultTz: real)
    ensures MetaData(ss, c, defaultTz).Ok? <==>
              |ss| > 0 && defaultTz != Nodata && forall j :: 0 <= j < |ss| ==> SubsetAccepted(ss, j, c)
    ensures MetaData(ss, c, defaultTz).Ok? ==> After(MetaData(ss, c, defaultTz).value, ss, |ss|, defaultTz)
  {
    EmptyAfter(ss, defaultTz);
    SubsetsFromMeaning(EmptyBook(), ss, 0, c, defaultTz);
    AcceptedFromMeaning(ss, 0, c);
    var r := SubsetsFrom(EmptyBook(), ss, 0, c, defaultTz);
    if r.Ok? && |ss| > 0 {
      assert FirstIndex(ss, IdOf(ss[0])) == 0;
    }
  }

  lemma EmptyAfter(ss: seq<Subset>, defaultTz: real)
    ensures After(EmptyBook(), ss, 0, defaultTz)
  {
  }

  /** The stations first seen among the first i subsets are distinct and are exactly those whose first subset comes before i. */
  lemma {:induction false} FirstSeenMeaning(ss: seq<Subset>, i: nat)
    requires i <= |ss|
    ensures forall x :: x in FirstSeen(ss, i) <==> FirstIndex(ss, x) < i
    ensures forall p, q :: 0 <= p < q < |FirstSeen(ss, i)| ==> FirstSeen(ss, i)[p] != FirstSeen(ss, i)[q]
  {
    if i > 0 {
      FirstSeenMeaning(ss, i - 1);
      FirstIndexAt(ss, i - 1);
      forall x
        ensures x in FirstSeen(ss, i) <==> FirstIndex(ss, x) < i
      {
        assert FirstIndex(ss, x) == i - 1 ==> x == IdOf(ss[i - 1]);
      }
    }
  }

  /**
   * What an accepted file yields, stated on the subsets: each station once, in
   * first-seen order; the metadata of its first subset; exactly the dates of
   * its subsets; and the range from the least to the greatest date.
   */
  lemma MetaDataStations(ss: seq<Subset>, c: StationChecks, defaultTz: real)
    requires MetaData(ss, c, defaultTz).Ok?
    ensures var b := MetaData(ss, c, defaultTz).value;
      (forall p, q :: 0 <= p < q < |b.ids| ==> b.ids[p] != b.ids[q]) &&
      (forall p :: 0 <= p < |b.ids| ==> FirstIndex(ss, b.ids[p]) < |ss|) &&
      (forall p, q :: 0 <= p < q < |b.ids| ==> FirstIndex(ss, b.ids[p]) < FirstIndex(ss, b.ids[q])) &&
      (forall id :: id in b.meta <==> id in b.ids) &&
      (forall id :: id in b.meta ==> b.meta[id] == ss[FirstIndex(ss, id)].meta)
  {
    MetaDataMeaning(ss, c, defaultTz);
    FirstSeenMeaning(ss, |ss|);
    FirstSeenOrdered(ss, |ss|);
  }

  /** The stations first seen appear in the order of their first subsets. */
  lemma {:induction false} FirstSeenOrdered(ss: seq<Subset>, i: nat)
    requires i <= |ss|
    ensures forall p :: 0 <= p < |FirstSeen(ss, i)| ==> FirstIndex(ss, FirstSeen(ss, i)[p]) < i
    ensures forall p, q :: 0 <= p < q < |FirstSeen(ss, i)| ==> FirstIndex(ss, FirstSeen(ss, i)[p]) < FirstIndex(ss, FirstSeen(ss, i)[q])
  {
    if i > 0 {
      FirstSeenOrdered(ss, i - 1);
    }
  }

  /** The dates recorded for a station are exactly the dates of its subsets, and the range spans all dates. */
  lemma MetaDataDates(ss: seq<Subset>, c: StationChecks, defaultTz: real, id: string, d: real)
    requires MetaData(ss, c, defaultTz).Ok?
    ensures var b := MetaData(ss, c, defaultTz).value;
      (id in b.dates <==> id in b.meta) &&
      (id in b.dates ==> (d in b.dates[id] <==> exists k :: 0 <= k < |ss| && IdOf(ss[k]) == id && ss[k].date == d)) &&
      b.start.Some? && b.end.Some? &&
      (forall k :: 0 <= k < |ss| ==> b.start.value <= ss[k].date <= b.end.value) &&
      (exists k :: 0 <= k < |ss| && b.start.value == ss[k].date) &&
      (exists k :: 0 <= k < |ss| && b.end.value == ss[k].date)
  {
    MetaDataMeaning(ss, c, defaultTz);
    DatesOfMeaning(ss, |ss|, id, d);
    RangeOfMeaning(ss, |ss|);
  }

  /** A station seen twice at the same date makes readMetaData fail. */
  lemma DuplicateDateRejected(ss: seq<Subset>, c: StationChecks, defaultTz: real, i: nat, j: nat)
    requires i < j < |ss| && IdOf(ss[i]) == IdOf(ss[j]) && ss[i].date == ss[j].date
    ensures MetaData(ss, c, defaultTz).Err?
  {
    MetaDataMeaning(ss, c, defaultTz);
    FirstIndexAt(ss, i);
    assert !SubsetAccepted(ss, j, c);
  }

  // ------------------ readData ------------------

  /** updateStationIdsMapping as a function: each unmapped station, in order, gets the next index and an empty series. */
  function MapStations(ids: seq<string>, vec: seq<seq<Record>>, mapping: map<string, nat>): (r: (seq<seq<Record>>, map<string, nat>))
    decreases |ids|
  {
    if ids == [] then (vec, mapping)
    else
      var (vec', mapping') := MapStations(ids[..|ids| - 1], vec, mapping);
      var id := ids[|ids| - 1];
      if id in mapping' then (vec', mapping') else (vec' + [[]], mapping'[id := |vec'|])
  }

  /** Every mapped index points into the series. */
  predicate MappingValid(vec: seq<seq<Record>>, mapping: map<string, nat>)
  {
    forall id :: id in mapping ==> mapping[id] < |vec|
  }

  /**
   * updateStationIdsMapping keeps the existing series and mappings, appends
   * only empty series, maps every station of the file, and keeps every index
   * inside the series.
   */
  lemma {:induction false} MapStationsMeaning(ids: seq<string>, vec: seq<seq<Record>>, mapping: map<string, nat>)
    ensures var (vec', mapping') := MapStations(ids, vec, mapping);
      |vec'| >= |vec| && vec'[..|vec|] == vec &&
      (forall k :: |vec| <= k < |vec'| ==> vec'[k] == []) &&
      (forall id :: id in mapping ==> id in mapping' && mapping'[id] == mapping[id]) &&
      (forall id :: id in mapping' <==> id in mapping || id in ids) &&
      (forall id :: id in mapping' && id !in mapping ==> mapping'[id] >= |vec|) &&
      (MappingValid(vec, mapping) ==> MappingValid(vec', mapping'))
    decreases |ids|
  {
    if ids != [] {
      var init := ids[..|ids| - 1];
      MapStationsMeaning(init, vec, mapping);
      assert forall id :: id in ids <==> id in init || id == ids[|ids| - 1];
      var (vec', mapping') := MapStations(init, vec, mapping);
      assert (vec' + [[]])[..|vec|] == vec'[..|vec|];
    }
  }

  /** Stations that are new to the mapping get distinct indices, one per new series. */
  lemma {:induction false} MapStationsDistinct(ids: seq<string>, vec: seq<seq<Record>>, mapping: map<string, nat>)
    ensures var (vec', mapping') := MapStations(ids, vec, mapping);
      forall a, b :: a in mapping' && b in mapping' && a !in mapping && b !in mapping && a != b ==> mapping'[a] != mapping'[b]
    ensures var (vec', mapping') := MapStations(ids, vec, mapping);
      forall id :: id in mapping' && id !in mapping ==> mapping'[id] < |vec'|
    decreases |ids|
  {
    if ids != [] {
      var init := ids[..|ids| - 1];
      MapStationsDistinct(init, vec, mapping);
    }
  }

  /** A BUFRFile object, as far as its station bookkeeping goes. */
  class BufrFile {
    var meta: map<string, StationMeta>
    var ids: seq<string>
    var dates: map<string, set<real>>   // station_dates, local to readMetaData in the source
    var tzs: map<string, real>
    var start: Option<real>
    var end: Option<real>

    function State(): Book
      reads this
    {
      Book(meta, ids, dates, tzs, start, end)
    }

    constructor ()
      ensures State() == EmptyBook()
    {
      meta, ids, dates, tzs := map[], [], map[], map[];
      start, end := None, None;
    }

    /** isNewStation: no metadata recorded yet for the ID. */
    function IsNewStation(id: string): (b: bool)
      reads this
      ensures b <==> id !in State().meta
    {
      id !in meta
    }

    /** processNewStation. */
    method ProcessNewStation(id: string, m: StationMeta, d: real, tz: real, c: StationChecks) returns (r: Result<()>)
      modifies this
      ensures r.Err? <==> NewStation(old(State()), id, m, d, tz, c).Err?
      ensures r.Err? ==> r.kind == IOError
      ensures r.Ok? ==> State() == NewStation(old(State()), id, m, d, tz, c).value
    {
      if !c.valid(m) {
        return Err(IOError);
      }
      ids := ids + [id];
      meta := meta[id := m];
      dates := dates[id := {d}];
      tzs := tzs[id := tz];
      return Ok(());
    }

    /** processExistingStation. */
    method ProcessExistingStation(id: string, m: StationMeta, d: real, c: StationChecks) returns (r: Result<()>)
      requires id in meta
      modifies this
      ensures r.Err? <==> ExistingStation(old(State()), id, m, d, c).Err?
      ensures r.Err? ==> r.kind == IOError
      ensures r.Ok? ==> State() == ExistingStation(old(State()), id, m, d, c).value
    {
      var ds := if id in dates then dates[id] else {};
      if d in ds {
        return Err(IOError);
      }
      dates := dates[id := ds + {d}];
      if !c.empty(m) && meta[id] != m {
        return Err(IOError);
      }
      return Ok(());
    }

    /** updateDateRange. */
    method UpdateDateRange(d: real)
      modifies this
      ensures State() == UpdateRange(old(State()), d)
    {
      if start.None? || d < start.value {
        start := Some(d);
      }
      if end.None? || d > end.value {
        end := Some(d);
      }
    }

    /** processSubsets over the subsets of all messages of the file. */
    method ProcessSubsets(ss: seq<Subset>, c: StationChecks, defaultTz: real) returns (r: Result<()>)
      modifies this
      ensures r.Err? <==> SubsetsFrom(old(State()), ss, 0, c, defaultTz).Err?
      ensures r.Ok? ==> State() == SubsetsFrom(old(State()), ss, 0, c, defaultTz).value
    {
      for i := 0 to |ss|
        invariant SubsetsFrom(old(State()), ss, 0, c, defaultTz) == SubsetsFrom(State(), ss, i, c, defaultTz)
      {
        var s := ss[i];
        var tz := if s.tz == Nodata then defaultTz else s.tz;
        var id := s.meta.stationId;
        var step: Result<()>;
        if IsNewStation(id) {
          step := ProcessNewStation(id, s.meta, s.date, tz, c);
        } else {
          step := ProcessExistingStation(id, s.meta, s.date, c);
        }
        if step.Err? {
          return Err(step.kind);
        }
        UpdateDateRange(s.date);
      }
      return Ok(());
    }

    /** readMetaData, followed by the constructor's check of the default timezone. */
    method ReadMetaData(ss: seq<Subset>, c: StationChecks, defaultTz: real) returns (r: Result<()>)
      requires State() == EmptyBook()
      modifies this
      ensures r.Err? <==> MetaData(ss, c, defaultTz).Err?
      ensures r.Ok? ==> State() == MetaData(ss, c, defaultTz).value
    {
      r := ProcessSubsets(ss, c, defaultTz);
      if r.Err? {
        return;
      }
      if meta == map[] {
        return Err(IOError);
      }
      if defaultTz == Nodata {
        return Err(IOError);
      }
    }

    /** updateStationIdsMapping. */
    method UpdateStationIdsMapping(vec: seq<seq<Record>>, mapping: map<string, nat>)
      returns (vec': seq<seq<Record>>, mapping': map<string, nat>)
      ensures (vec', mapping') == MapStations(ids, vec, mapping)
    {
      vec', mapping' := vec, mapping;
      for i := 0 to |ids|
        invariant (vec', mapping') == MapStations(ids[..i], vec, mapping)
      {
        assert ids[..i + 1][..i] == ids[..i];
        if ids[i] !in mapping' {
          mapping' := mapping'[ids[i] := |vec'|];
          vec' := vec' + [[]];
        }
      }
      assert ids[..|ids|] == ids;
    }
  }
}
