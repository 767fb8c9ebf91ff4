/**
 * The METADATA block of DataEditingAlgorithms.cc: new station name, ID,
 * position or slope, written in place, or, when a new ID meets time
 * restrictions, moved to a new station by copying the restricted
 * timesteps out, resetting the originals and merging the copies into the
 * station with the new ID.
 */
module EditingMetadata {
  import opened Common
  import opened Meteo
  import opened Restrictions
  import opened EditingBlock
  import opened EditingAlgorithms
  import opened EditingMerge

  // ---------------------------------------------------------------- parse_args

  /** The arguments with their keys upper-cased, as the METADATA loop compares them. */
  function UpperKeys(args: Args): (r: Args)
    ensures |r| == |args| && forall i :: 0 <= i < |args| ==> r[i] == (Upper(args[i].0), args[i].1)
  {
    seq(|args|, i requires 0 <= i < |args| => (Upper(args[i].0), args[i].1))
  }

  /**
   * A number read by parseArg for every argument `key`, in order: the first
   * value that does not convert is an InvalidArgumentException, the last
   * good one wins, and nodata stands when the key is absent.
   */
  function RealValue(args: Args, key: string, toReal: string -> Option<real>): Result<real>
  {
    if args == [] then Ok(Nodata)
    else
      var prev := RealValue(args[..|args| - 1], key, toReal);
      var last := args[|args| - 1];
      if last.0 != key || prev.Err? then prev
      else if toReal(last.1).None? then Err(InvalidArgument)
      else Ok(toReal(last.1).value)
  }

  /** A number argument fails exactly when one of its values does not convert. */
  lemma {:induction false} RealValueFails(args: Args, key: string, toReal: string -> Option<real>)
    ensures RealValue(args, key, toReal).Err? <==> exists i :: 0 <= i < |args| && args[i].0 == key && toReal(args[i].1).None?
    ensures RealValue(args, key, toReal).Err? ==> RealValue(args, key, toReal).kind == InvalidArgument
  {
    if args != [] {
      var n := |args| - 1;
      RealValueFails(args[..n], key, toReal);
      if exists i :: 0 <= i < |args| && args[i].0 == key && toReal(args[i].1).None? {
        var i :| 0 <= i < |args| && args[i].0 == key && toReal(args[i].1).None?;
        if i < n { assert args[..n][i] == args[i]; }
      }
      if exists i :: 0 <= i < n && args[..n][i].0 == key && toReal(args[..n][i].1).None? {
        var i :| 0 <= i < n && args[..n][i].0 == key && toReal(args[..n][i].1).None?;
        assert args[i] == args[..n][i];
      }
    }
  }

  /** The parse_args loop for one numeric key. */
  method ScanReal(args: Args, key: string, toReal: string -> Option<real>) returns (r: Result<real>)
    ensures r == RealValue(args, key, toReal)
  {
    r := Ok(Nodata);
    var ii := 0;
    while ii < |args|
      invariant ii <= |args|
      invariant r == RealValue(args[..ii], key, toReal)
    {
      assert args[..ii + 1][..ii] == args[..ii];
      if args[ii].0 == key && r.Ok? {
        var x := toReal(args[ii].1);
        if x.None? {
          r := Err(InvalidArgument);
        } else {
          r := Ok(x.value);
        }
      }
      ii := ii + 1;
    }
    assert args[..ii] == args;
  }

  function OrEmpty(v: Option<string>): string
  {
    if v.None? then "" else v.value
  }

  /** The metadata the arguments ask for, before the consistency checks. */
  function MetaOf(args: Args, toReal: string -> Option<real>): Result<MetaEdit>
  {
    var upper := UpperKeys(args);
    var lat := RealValue(upper, "LATITUDE", toReal);
    var lon := RealValue(upper, "LONGITUDE", toReal);
    var alt := RealValue(upper, "ALTITUDE", toReal);
    var slope := RealValue(upper, "SLOPE", toReal);
    var azi := RealValue(upper, "AZIMUTH", toReal);
    if lat.Err? || lon.Err? || alt.Err? || slope.Err? || azi.Err? then Err(InvalidArgument)
    else Ok(MetaEdit(OrEmpty(LastValue(upper, "NAME")), OrEmpty(LastValue(upper, "ID")),
                     lat.value, lon.value, alt.value, slope.value, azi.value))
  }

  /** A METADATA block; `inPlace` is false only when a new ID comes with time restrictions. */
  datatype MetadataBlock = MetadataBlock(base: Block, edit: MetaEdit, inPlace: bool)

  /**
   * parse_args of METADATA: keys compared upper-cased, the numbers converted
   * by `toReal`. Latitude without longitude (or the reverse), and slope
   * without azimuth (or the reverse), are InvalidArgumentExceptions.
   */
  method ParseMetadata(base: Block, args: Args, toReal: string -> Option<real>) returns (r: Result<MetadataBlock>)
    ensures r.Ok? <==> MetaOf(args, toReal).Ok? &&
                       (MetaOf(args, toReal).value.lat == Nodata <==> MetaOf(args, toReal).value.lon == Nodata) &&
                       (MetaOf(args, toReal).value.slope == Nodata <==> MetaOf(args, toReal).value.azi == Nodata)
    ensures r.Err? ==> r.kind == InvalidArgument
    ensures r.Ok? ==> r.value.base == base && r.value.edit == MetaOf(args, toReal).value
    ensures r.Ok? ==> (r.value.inPlace <==> r.value.edit.newId == "" || !base.restricted)
  {
    var upper := UpperKeys(args);
    var name := ScanArg(upper, "NAME");
    var id := ScanArg(upper, "ID");
    var lat := ScanReal(upper, "LATITUDE", toReal);
    var lon := ScanReal(upper, "LONGITUDE", toReal);
    var alt := ScanReal(upper, "ALTITUDE", toReal);
    var slope := ScanReal(upper, "SLOPE", toReal);
    var azi := ScanReal(upper, "AZIMUTH", toReal);
    if lat.Err? || lon.Err? || alt.Err? || slope.Err? || azi.Err? {
      return Err(InvalidArgument);
    }
    if (lat.value != Nodata && lon.value == Nodata) || (lat.value == Nodata && lon.value != Nodata) {
      return Err(InvalidArgument);
    }
    if (slope.value != Nodata && azi.value == Nodata) || (slope.value == Nodata && azi.value != Nodata) {
      return Err(InvalidArgument);
    }
    var newId := OrEmpty(id);
    var edit := MetaEdit(OrEmpty(name), newId, lat.value, lon.value, alt.value, slope.value, azi.value);
    return Ok(MetadataBlock(base, edit, newId == "" || (newId != "" && !base.restricted)));
  }

  /** providedIDs of METADATA: the new ID, if one is set. */
  function MetadataProvidedIds(blk: MetadataBlock): (r: set<string>)
    ensures blk.edit.newId == "" ==> r == {}
    ensures blk.edit.newId != "" ==> r == {blk.edit.newId}
  {
    if blk.edit.newId == "" then {} else {blk.edit.newId}
  }

  // ---------------------------------------------------------------- editTimeSeries on the series

  /** Every record of `t` edited by `e`. */
  function EditEach(t: seq<Record>, e: Edit): (r: seq<Record>)
    ensures |r| == |t| && forall i :: 0 <= i < |t| ==> r[i] == Apply(e, t[i])
  {
    ApplyRange(t, Period(0, |t|), e)
  }

  /**
   * The records migrated out over the periods, in cursor order: each
   * period's current records, copied with the new metadata. What stays
   * behind is ApplyPeriods with Clear: the originals reset where they are.
   */
  function MovedRecords(s: seq<Record>, ps: seq<Period>, m: MetaEdit): seq<Record>
  {
    if ps == [] then []
    else
      var prefix := ps[..|ps| - 1];
      MovedRecords(s, prefix, m) + EditEach(Slice(ApplyPeriods(s, prefix, Clear), ps[|ps| - 1]), Meta(m))
  }

  /** The inner loop of one period: push the record to the temporary station, reset it, and edit the copy's metadata. */
  method MigrateRange(s: seq<Record>, a: nat, z: nat, m: MetaEdit) returns (s': seq<Record>, moved: seq<Record>)
    requires a <= z <= |s|
    ensures s' == ApplyRange(s, Period(a, z), Clear)
    ensures moved == EditEach(s[a..z], Meta(m))
  {
    s' := s;
    moved := [];
    var jj := a;
    while jj < z
      invariant a <= jj <= z && |s'| == |s|
      invariant forall j :: 0 <= j < |s| ==> s'[j] == if a <= j < jj then Apply(Clear, s[j]) else s[j]
      invariant moved == EditEach(s[a..jj], Meta(m))
    {
      moved := moved + [s'[jj]];
      s' := s'[jj := Reset(s'[jj])];
      moved := moved[|moved| - 1 := Apply(Meta(m), moved[|moved| - 1])];
      jj := jj + 1;
    }
  }

  lemma MovedRecordsStep(s: seq<Record>, ps: seq<Period>, k: nat, m: MetaEdit)
    requires k < |ps|
    ensures MovedRecords(s, ps[..k + 1], m) ==
      MovedRecords(s, ps[..k], m) + EditEach(Slice(ApplyPeriods(s, ps[..k], Clear), ps[k]), Meta(m))
  {
    assert ps[..k + 1][..k] == ps[..k];
  }

  /** The series and the temporary station after the first k periods. */
  predicate MigratedUpTo(s: seq<Record>, ps: seq<Period>, k: nat, m: MetaEdit, cur: seq<Record>, moved: seq<Record>)
    requires k <= |ps|
  {
    cur == ApplyPeriods(s, ps[..k], Clear) && moved == MovedRecords(s, ps[..k], m)
  }

  /** One restriction period [a, z) of the migrating loop: reset in place and copied out. */
  method MigratePeriod(s: seq<Record>, ps: seq<Period>, k: nat, a: nat, z: nat, m: MetaEdit, cur: seq<Record>, sofar: seq<Record>)
    returns (s': seq<Record>, moved: seq<Record>)
    requires Fits(ps, |s|) && k < |ps| && Period(a, z) == ps[k]
    requires MigratedUpTo(s, ps, k, m, cur, sofar)
    ensures MigratedUpTo(s, ps, k + 1, m, s', moved)
  {
    ApplyPeriodsStep(s, ps, k, Clear);
    MovedRecordsStep(s, ps, k, m);
    var out;
    s', out := MigrateRange(cur, a, z, m);
    moved := sofar + out;
  }

  /** The restriction-period loop of the migrating editTimeSeries for one station. */
  method MigrateSeries(s: seq<Record>, ps: seq<Period>, m: MetaEdit) returns (s': seq<Record>, moved: seq<Record>)
    requires Fits(ps, |s|)
    ensures s' == ApplyPeriods(s, ps, Clear)
    ensures moved == MovedRecords(s, ps, m)
  {
    var cursor := new RestrictionsIdx(ps);
    s', moved := s, [];
    var k := 0;
    while cursor.IsValid()
      invariant cursor.Valid() && cursor.Periods() == ps
      invariant k <= |ps| && cursor.Remaining() == ps[k..]
      invariant MigratedUpTo(s, ps, k, m, s', moved)
      decreases |cursor.Remaining()|
    {
      var a, z := cursor.GetStart(), cursor.GetEnd();
      assert Period(a, z) == ps[k];
      s', moved := MigratePeriod(s, ps, k, a, z, m, s', moved);
      RemainingAfter(ps, k);
      cursor.Next();
      k := k + 1;
    }
    assert ps[..k] == ps;
  }

  lemma DatesOfConcat(a: seq<Record>, b: seq<Record>)
    ensures DatesOf(a + b) == DatesOf(a) + DatesOf(b)
  {
  }

  /** Copying one period of a reset series out with new metadata keeps the original timestamps. */
  lemma MovedSliceDates(s: seq<Record>, cleared: seq<Record>, p: Period, m: MetaEdit)
    requires DatesOf(cleared) == DatesOf(s)
    ensures DatesOf(EditEach(Slice(cleared, p), Meta(m))) == DatesOf(Slice(s, p))
  {
    var t := EditEach(Slice(cleared, p), Meta(m));
    if p.start <= p.end <= |s| {
      forall i | 0 <= i < |t|
        ensures t[i].date == Slice(s, p)[i].date
      {
        assert cleared[p.start + i].date == DatesOf(cleared)[p.start + i];
      }
    }
  }

  /** The temporary station carries exactly the timestamps of the periods, in period order. */
  lemma {:induction false} MovedRecordsDates(s: seq<Record>, ps: seq<Period>, m: MetaEdit)
    ensures DatesOf(MovedRecords(s, ps, m)) == DatesOf(Slices(s, ps))
  {
    if ps != [] {
      var prefix := ps[..|ps| - 1];
      var p := ps[|ps| - 1];
      MovedRecordsDates(s, prefix, m);
      ApplyPeriodsKeepsDates(s, prefix, Clear);
      MovedSliceDates(s, ApplyPeriods(s, prefix, Clear), p, m);
      DatesOfConcat(MovedRecords(s, prefix, m), EditEach(Slice(ApplyPeriods(s, prefix, Clear), p), Meta(m)));
      DatesOfConcat(Slices(s, prefix), Slice(s, p));
    }
  }

  /** Every migrated record carries the new metadata of the series' station. */
  lemma {:induction false} MovedRecordsMeta(s: seq<Record>, ps: seq<Period>, m: MetaEdit, sd: StationMeta)
    requires forall j :: 0 <= j < |s| ==> s[j].meta == sd
    ensures forall i :: 0 <= i < |MovedRecords(s, ps, m)| ==> MovedRecords(s, ps, m)[i].meta == EditMeta(sd, m)
  {
    if ps != [] {
      var prefix := ps[..|ps| - 1];
      MovedRecordsMeta(s, prefix, m, sd);
      ApplyPeriodsKeepsMeta(s, prefix, sd);
    }
  }

  /** Resetting never touches the station metadata. */
  lemma {:induction false} ApplyPeriodsKeepsMeta(s: seq<Record>, ps: seq<Period>, sd: StationMeta)
    requires forall j :: 0 <= j < |s| ==> s[j].meta == sd
    ensures forall j :: 0 <= j < |s| ==> ApplyPeriods(s, ps, Clear)[j].meta == sd
  {
    if ps != [] {
      ApplyPeriodsKeepsMeta(s, ps[..|ps| - 1], sd);
    }
  }

  /** The series with the edit applied in place and the empties left where data moved out. */
  function KeptAfterMigration(blk: MetadataBlock, vv: seq<seq<Record>>): (r: seq<seq<Record>>)
    requires PeriodsFit(blk.base)
    ensures |r| == |vv|
  {
    seq(|vv|, st requires 0 <= st < |vv| =>
      if SkipStation(blk.base, vv[st]) then vv[st] else ApplyPeriods(vv[st], PeriodsOn(blk.base, vv[st]), Clear))
  }

  /** vecTmp: one temporary station per station, empty for skipped ones. */
  function MovedOut(blk: MetadataBlock, vv: seq<seq<Record>>): (r: seq<seq<Record>>)
    requires PeriodsFit(blk.base)
    ensures |r| == |vv|
  {
    seq(|vv|, st requires 0 <= st < |vv| =>
      if SkipStation(blk.base, vv[st]) then [] else MovedRecords(vv[st], PeriodsOn(blk.base, vv[st]), blk.edit))
  }

  /** A series' station ID as written, which mergeMigratedData compares exactly. */
  function ExactId(s: seq<Record>): (id: Option<string>)
    ensures s == [] <==> id.None?
    ensures s != [] ==> id == Some(FrontId(s))
  {
    if s == [] then None else Some(FrontId(s))
  }

  /** Each temporary station merged in turn, FULL_MERGE with priority to the first. */
  function FoldMerge(acc: seq<Record>, tmp: seq<seq<Record>>, mergeSeries: (seq<Record>, seq<Record>) -> seq<Record>): seq<Record>
  {
    if tmp == [] then acc else mergeSeries(FoldMerge(acc, tmp[..|tmp| - 1], mergeSeries), tmp[|tmp| - 1])
  }

  /**
   * mergeMigratedData: the first station already carrying the new ID, or a
   * new empty station appended at the end, receives every temporary station.
   */
  method MergeMigratedData(vv: seq<seq<Record>>, tmp: seq<seq<Record>>, newId: string,
                           mergeSeries: (seq<Record>, seq<Record>) -> seq<Record>) returns (out: seq<seq<Record>>)
    ensures FirstWithId(vv, newId, ExactId).Some? ==>
      var pos := FirstWithId(vv, newId, ExactId).value;
      out == vv[pos := FoldMerge(vv[pos], tmp, mergeSeries)]
    ensures FirstWithId(vv, newId, ExactId).None? ==> out == vv + [FoldMerge([], tmp, mergeSeries)]
  {
    var found := FindStation(vv, newId, ExactId);
    out := vv;
    var pos: nat;
    if found.None? {
      out := out + [[]];
      pos := |out| - 1;
    } else {
      pos := found.value;
    }
    ghost var start := out;
    var station := 0;
    while station < |tmp|
      invariant station <= |tmp|
      invariant out == start[pos := FoldMerge(start[pos], tmp[..station], mergeSeries)]
    {
      assert tmp[..station + 1][..station] == tmp[..station];
      out := out[pos := mergeSeries(out[pos], tmp[station])];
      station := station + 1;
    }
    assert tmp[..station] == tmp;
  }

  /** The station loop of the migrating editTimeSeries. */
  method MigrateStations(blk: MetadataBlock, vv: seq<seq<Record>>) returns (kept: seq<seq<Record>>, tmp: seq<seq<Record>>)
    requires PeriodsFit(blk.base)
    ensures kept == KeptAfterMigration(blk, vv) && tmp == MovedOut(blk, vv)
  {
    kept := vv;
    tmp := [];
    var station := 0;
    while station < |vv|
      invariant station <= |vv| && |kept| == |vv| && |tmp| == station
      invariant forall st :: 0 <= st < station ==> kept[st] == KeptAfterMigration(blk, vv)[st] && tmp[st] == MovedOut(blk, vv)[st]
      invariant forall st :: station <= st < |vv| ==> kept[st] == vv[st]
    {
      tmp := tmp + [[]];
      if !SkipStation(blk.base, vv[station]) {
        var s', moved := MigrateSeries(vv[station], PeriodsOn(blk.base, vv[station]), blk.edit);
        kept := kept[station := s'];
        tmp := tmp[station := moved];
      }
      station := station + 1;
    }
  }

  /**
   * EditingMetadata::editTimeSeries on the series: in place, the metadata of
   * each timestep in the periods is rewritten; otherwise those timesteps move
   * to the station with the new ID.
   */
  method MetadataTimeSeries(blk: MetadataBlock, vv: seq<seq<Record>>,
                            mergeSeries: (seq<Record>, seq<Record>) -> seq<Record>) returns (out: seq<seq<Record>>)
    requires PeriodsFit(blk.base)
    ensures blk.inPlace ==> out == EditedAll(blk.base, Meta(blk.edit), vv)
    ensures !blk.inPlace ==>
      var kept := KeptAfterMigration(blk, vv);
      var tmp := MovedOut(blk, vv);
      (FirstWithId(kept, blk.edit.newId, ExactId).Some? ==>
         var pos := FirstWithId(kept, blk.edit.newId, ExactId).value;
         out == kept[pos := FoldMerge(kept[pos], tmp, mergeSeries)]) &&
      (FirstWithId(kept, blk.edit.newId, ExactId).None? ==> out == kept + [FoldMerge([], tmp, mergeSeries)])
  {
    if blk.inPlace {
      out := EditStations(blk.base, Meta(blk.edit), vv);
    } else {
      var kept, tmp := MigrateStations(blk, vv);
      out := MergeMigratedData(kept, tmp, blk.edit.newId, mergeSeries);
    }
  }

  // ---------------------------------------------------------------- editTimeSeries on the station metadata

  /** A station's ID compared as written, as the STATIONS_SET version of METADATA does. */
  function ExactStationId(sd: StationMeta): (id: Option<string>)
    ensures id == Some(sd.stationId)
  {
    Some(sd.stationId)
  }

  /**
   * The station list after METADATA, the source station being looked up with
   * `srcIdOf`: unchanged without one; otherwise the edit lands on the source
   * (in place) or on the station with the new ID, appended as a copy of the
   * source when there is none.
   */
  function StationsAfterMetadata(blk: MetadataBlock, stations: seq<StationMeta>,
                                 srcIdOf: StationMeta -> Option<string>): (r: seq<StationMeta>)
    ensures FirstWithId(stations, blk.base.stationId, srcIdOf).None? ==> r == stations
  {
    match FirstWithId(stations, blk.base.stationId, srcIdOf)
    case None => stations
    case Some(src) =>
      if blk.inPlace then stations[src := EditMeta(stations[src], blk.edit)]
      else match FirstWithId(stations, blk.edit.newId, ExactStationId)
        case Some(pos) => stations[pos := EditMeta(stations[pos], blk.edit)]
        case None => stations + [EditMeta(stations[src], blk.edit)]
  }

  /** The body of the STATIONS_SET editTimeSeries for a given source lookup. */
  method EditStationList(blk: MetadataBlock, stations: seq<StationMeta>,
                         srcIdOf: StationMeta -> Option<string>) returns (out: seq<StationMeta>)
    ensures out == StationsAfterMetadata(blk, stations, srcIdOf)
  {
    var src := FindStation(stations, blk.base.stationId, srcIdOf);
    if src.None? {
      return stations;
    }
    out := stations;
    var pos := src.value;
    if !blk.inPlace {
      var found := FindStation(stations, blk.edit.newId, ExactStationId);
      if found.None? {
        out := out + [stations[src.value]];
        pos := |out| - 1;
      } else {
        pos := found.value;
      }
    }
    out := out[pos := EditMeta(out[pos], blk.edit)];
  }

  /** EditingMetadata::editTimeSeries(STATIONS_SET) as written: the raw station ID against the upper-cased block ID. */
  method MetadataStationsAsWritten(blk: MetadataBlock, stations: seq<StationMeta>) returns (out: seq<StationMeta>)
    ensures out == StationsAfterMetadata(blk, stations, ExactStationId)
  {
    out := EditStationList(blk, stations, ExactStationId);
  }

  /** The same with the case-insensitive comparison every other block uses. */
  method MetadataStations(blk: MetadataBlock, stations: seq<StationMeta>) returns (out: seq<StationMeta>)
    ensures out == StationsAfterMetadata(blk, stations, StationId)
  {
    out := EditStationList(blk, stations, StationId);
  }

  /**
   * A station written in lower case: the series editing selects it, but the
   * metadata editing as written never finds it.
   */
  lemma LowerCaseStationMissed()
    ensures var sd := StationMeta("wfj2", "", Nodata, Nodata, Nodata, Nodata, Nodata);
            var base := Block(Upper("wfj2"), {}, {}, false, d => [], "METADATA");
            var blk := MetadataBlock(base, MetaEdit("Weissfluhjoch", "", Nodata, Nodata, Nodata, Nodata, Nodata), true);
            var r := Record(Some(0), sd, map[], {});
            !SkipStation(base, [r]) &&
            StationsAfterMetadata(blk, [sd], ExactStationId) == [sd] &&
            StationsAfterMetadata(blk, [sd], StationId)[0].stationName == "Weissfluhjoch"
  {
    var sd := StationMeta("wfj2", "", Nodata, Nodata, Nodata, Nodata, Nodata);
    assert Upper("wfj2") == "WFJ2";
    assert sd.stationId != "WFJ2";
    assert FirstWithId([sd], "WFJ2", ExactStationId).None?;
    assert FirstWithId([sd], "WFJ2", StationId) == Some(0);
  }

  /**
   * With the case-insensitive lookup, the station list and the series agree:
   * for a specific station ID, the first station whose ID matches in any case
   * is the one edited in place.
   */
  lemma MetadataStationsFindsSeriesStation(blk: MetadataBlock, stations: seq<StationMeta>, i: nat)
    requires blk.inPlace && i < |stations| && Upper(stations[i].stationId) == blk.base.stationId
    requires forall j :: 0 <= j < i ==> Upper(stations[j].stationId) != blk.base.stationId
    ensures StationsAfterMetadata(blk, stations, StationId) == stations[i := EditMeta(stations[i], blk.edit)]
  {
    assert FirstWithId(stations, blk.base.stationId, StationId).Some?;
  }
}
