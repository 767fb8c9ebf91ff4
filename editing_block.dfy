/**
 * The EditingBlock base of the input data editing stage
 * (DataEditingAlgorithms.h/.cc): which stations a block applies to, the
 * restriction periods it edits, and the record-level edits the SWAP, MOVE,
 * COPY, EXCLUDE, KEEP and METADATA blocks apply at each timestep.
 */
module EditingBlock {
  import opened Common
  import opened Meteo
  import opened Restrictions

  /** The (upper-cased key, value) pairs of one block's arguments. */
  type Args = seq<(string, string)>

  /**
   * The configuration every block holds: its upper-cased station ID, the
   * EXCLUDE and ONLY station sets, and its WHEN time restrictions. The
   * restrictions are known through whether there are any and through the
   * index ranges RestrictionsIdx computes from a series' dates.
   */
  datatype Block = Block(stationId: string, excluded: set<string>, kept: set<string>,
                         restricted: bool, periodsOf: seq<Option<int>> -> seq<Period>, name: string)

  /** RestrictionsIdx only hands out index ranges within the series it was built on. */
  ghost predicate PeriodsFit(b: Block)
  {
    forall d: seq<Option<int>> :: Fits(b.periodsOf(d), |d|)
  }

  /** The periods a block edits on series `s`. */
  function PeriodsOn(b: Block, s: seq<Record>): (ps: seq<Period>)
    requires PeriodsFit(b)
    ensures Fits(ps, |s|)
  {
    assert Fits(b.periodsOf(DatesOf(s)), |DatesOf(s)|);
    b.periodsOf(DatesOf(s))
  }

  // ---------------------------------------------------------------- station sets

  /** The upper-cased whitespace-separated words of one argument value. */
  function UpperWords(v: string): (r: set<string>)
    ensures forall w :: w in Words(v) ==> Upper(w) in r
    ensures forall x :: x in r ==> exists w :: w in Words(v) && x == Upper(w)
  {
    set w | w in Words(v) :: Upper(w)
  }

  /** The station set of every argument named `keyword`, accumulated in argument order. */
  function StationSetOf(args: Args, keyword: string): set<string>
  {
    if args == [] then {}
    else
      var last := args[|args| - 1];
      StationSetOf(args[..|args| - 1], keyword) + (if last.0 == keyword then UpperWords(last.1) else {})
  }

  /** A station is in the set exactly when some argument `keyword` names it, in any case. */
  lemma {:induction false} StationSetMembers(args: Args, keyword: string, x: string)
    ensures x in StationSetOf(args, keyword) <==>
            exists i :: 0 <= i < |args| && args[i].0 == keyword && x in UpperWords(args[i].1)
  {
    if args != [] {
      var n := |args| - 1;
      StationSetMembers(args[..n], keyword, x);
      if x in StationSetOf(args, keyword) && x !in StationSetOf(args[..n], keyword) {
        assert args[n].0 == keyword && x in UpperWords(args[n].1);
      }
      if exists i :: 0 <= i < |args| && args[i].0 == keyword && x in UpperWords(args[i].1) {
        var i :| 0 <= i < |args| && args[i].0 == keyword && x in UpperWords(args[i].1);
        if i < n {
          assert args[..n][i] == args[i];
        }
      }
    }
  }

  /** initStationSet: the loop over the arguments, inserting the upper-cased words of each matching one. */
  method InitStationSet(args: Args, keyword: string) returns (results: set<string>)
    ensures results == StationSetOf(args, keyword)
  {
    results := {};
    var ii := 0;
    while ii < |args|
      invariant ii <= |args|
      invariant results == StationSetOf(args[..ii], keyword)
    {
      assert args[..ii + 1][..ii] == args[..ii];
      if args[ii].0 == keyword {
        results := results + UpperWords(args[ii].1);
      }
      ii := ii + 1;
    }
    assert args[..ii] == args;
  }

  /**
   * The EditingBlock constructor: EXCLUDE and ONLY station sets from the
   * arguments, and the station ID upper-cased. The time restrictions arrive
   * already parsed.
   */
  method NewBlock(stationId: string, args: Args, name: string,
                  restricted: bool, periodsOf: seq<Option<int>> -> seq<Period>) returns (b: Block)
    ensures b.stationId == Upper(stationId) && b.name == name
    ensures b.excluded == StationSetOf(args, "EXCLUDE") && b.kept == StationSetOf(args, "ONLY")
    ensures b.restricted == restricted && b.periodsOf == periodsOf
  {
    var excluded := InitStationSet(args, "EXCLUDE");
    var kept := InitStationSet(args, "ONLY");
    b := Block(Upper(stationId), excluded, kept, restricted, periodsOf, name);
  }

  /** The base-class defaults: a block requires and provides no station, and purges what it requires. */
  function RequiredIds(b: Block): (r: set<string>)
    ensures r == {}
  {
    {}
  }

  function ProvidedIds(b: Block): (r: set<string>)
    ensures r == {}
  {
    {}
  }

  function PurgeIds(b: Block): (r: set<string>)
    ensures r == RequiredIds(b)
  {
    RequiredIds(b)
  }

  /** The upper-cased ID of a non-empty series, None for an empty one. */
  function SeriesId(s: seq<Record>): (id: Option<string>)
    ensures s == [] <==> id.None?
    ensures s != [] ==> id == Some(Upper(FrontId(s)))
  {
    if s == [] then None else Some(Upper(FrontId(s)))
  }

  /**
   * skipStation: a block edits a series when it is non-empty, its station is
   * the block's own (or the block is the `*` one), the station is not
   * excluded, and either no ONLY list was given or the station is on it.
   */
  function SkipStation(b: Block, s: seq<Record>): (skip: bool)
    ensures s == [] ==> skip
    ensures s != [] ==>
      (!skip <==> (b.stationId == "*" || b.stationId == Upper(FrontId(s))) &&
                  Upper(FrontId(s)) !in b.excluded &&
                  (b.kept == {} || Upper(FrontId(s)) in b.kept))
  {
    if s == [] then true
    else
      var currentId := Upper(FrontId(s));
      if b.stationId != "*" && b.stationId != currentId then true
      else if currentId in b.excluded then true
      else if b.kept == {} then false
      else currentId !in b.kept
  }

  /** EXCLUDE wins over ONLY: a station named in both is skipped, whatever the block's station ID. */
  lemma ExcludeBeatsOnly(b: Block, s: seq<Record>)
    requires s != [] && Upper(FrontId(s)) in b.excluded
    ensures SkipStation(b, s)
  {
  }

  // ---------------------------------------------------------------- time filtering

  /** One period's records, nothing when the period does not lie within the series. */
  function Slice(s: seq<Record>, p: Period): (r: seq<Record>)
    ensures p.start <= p.end <= |s| ==> r == s[p.start..p.end]
  {
    if p.start <= p.end <= |s| then s[p.start..p.end] else []
  }

  /** The records of every period, in period order. */
  function Slices(s: seq<Record>, ps: seq<Period>): seq<Record>
  {
    if ps == [] then [] else Slices(s, ps[..|ps| - 1]) + Slice(s, ps[|ps| - 1])
  }

  /** The number of timesteps the periods cover, counted with multiplicity. */
  function Covered(ps: seq<Period>): nat
  {
    if ps == [] then 0
    else
      var p := ps[|ps| - 1];
      Covered(ps[..|ps| - 1]) + (if p.start <= p.end then p.end - p.start else 0)
  }

  lemma FitsPrefix(ps: seq<Period>, n: nat, m: nat)
    requires Fits(ps, m) && n <= |ps|
    ensures Fits(ps[..n], m)
  {
    forall k | 0 <= k < n ensures ps[..n][k].start <= ps[..n][k].end <= m {
      assert ps[..n][k] == ps[k];
    }
  }

  lemma SlicesStep(s: seq<Record>, ps: seq<Period>, k: nat)
    requires k < |ps|
    ensures Slices(s, ps[..k + 1]) == Slices(s, ps[..k]) + Slice(s, ps[k])
    ensures Covered(ps[..k + 1]) == Covered(ps[..k]) + (if ps[k].start <= ps[k].end then ps[k].end - ps[k].start else 0)
  {
    assert ps[..k + 1][..k] == ps[..k];
  }

  /** The filtered series has one record per covered timestep. */
  lemma {:induction false} SlicesLength(s: seq<Record>, ps: seq<Period>)
    requires Fits(ps, |s|)
    ensures |Slices(s, ps)| == Covered(ps)
  {
    if ps != [] {
      var n := |ps| - 1;
      FitsPrefix(ps, n, |s|);
      SlicesLength(s, ps[..n]);
      assert ps[n].start <= ps[n].end <= |s|;
    }
  }

  /** The filtered series holds only records of the original series. */
  lemma {:induction false} SlicesFromSeries(s: seq<Record>, ps: seq<Period>)
    ensures forall i :: 0 <= i < |Slices(s, ps)| ==> Slices(s, ps)[i] in s
  {
    if ps != [] {
      var n := |ps| - 1;
      SlicesFromSeries(s, ps[..n]);
      SliceFromSeries(s, ps[n]);
    }
  }

  lemma SliceFromSeries(s: seq<Record>, p: Period)
    ensures forall i :: 0 <= i < |Slice(s, p)| ==> Slice(s, p)[i] in s
  {
    if p.start <= p.end <= |s| {
      forall i | 0 <= i < |Slice(s, p)| ensures Slice(s, p)[i] in s {
        assert Slice(s, p)[i] == s[p.start + i];
      }
    }
  }

  /** A single period spanning the whole series keeps it as it is. */
  lemma SlicesWhole(s: seq<Record>)
    ensures Slices(s, [Period(0, |s|)]) == s
  {
    assert [Period(0, |s|)][..0] == [];
  }

  /**
   * timeFilterFromStation: without restrictions the series itself; otherwise
   * the records of each restriction period, pushed back in cursor order.
   */
  method TimeFilterFromStation(b: Block, s: seq<Record>) returns (r: seq<Record>)
    requires PeriodsFit(b)
    ensures !b.restricted ==> r == s
    ensures b.restricted ==> r == Slices(s, PeriodsOn(b, s))
  {
    if !b.restricted {
      return s;
    }
    r := CopyPeriods(s, PeriodsOn(b, s));
  }

  /** The loop of timeFilterFromStation over a RestrictionsIdx cursor on the periods `ps`. */
  method CopyPeriods(s: seq<Record>, ps: seq<Period>) returns (r: seq<Record>)
    requires Fits(ps, |s|)
    ensures r == Slices(s, ps)
  {
    var cursor := new RestrictionsIdx(ps);
    r := [];
    var k := 0;
    while cursor.IsValid()
      invariant cursor.Valid() && cursor.Periods() == ps
      invariant k <= |ps| && cursor.Remaining() == ps[k..]
      invariant r == Slices(s, ps[..k])
      decreases |cursor.Remaining()|
    {
      SlicesStep(s, ps, k);
      var a, z := cursor.GetStart(), cursor.GetEnd();
      assert Period(a, z) == ps[k] && a <= z <= |s|;
      r := PushRange(r, s, a, z);
      RemainingAfter(ps, k);
      cursor.Next();
      k := k + 1;
    }
    assert ps[..k] == ps;
  }

  /** The inner loop of timeFilterFromStation: push_back of the timesteps [a, z). */
  method PushRange(r: seq<Record>, s: seq<Record>, a: nat, z: nat) returns (r': seq<Record>)
    requires a <= z <= |s|
    ensures r' == r + s[a..z]
  {
    r' := r;
    var jj := a;
    while jj < z
      invariant a <= jj <= z
      invariant r' == r + s[a..jj]
    {
      assert s[a..jj + 1] == s[a..jj] + [s[jj]];
      r' := r' + [s[jj]];
      jj := jj + 1;
    }
  }

  // ---------------------------------------------------------------- record edits

  /**
   * SWAP on one record: both parameters are added if missing, then src takes
   * dest's value and dest takes src's former value.
   */
  function SwapRecord(r: Record, src: string, dest: string): (r': Record)
    ensures r'.params.Keys == r.params.Keys + {src, dest}
    ensures r'.params[dest] == Value(r, src)
    ensures r'.params[src] == Value(r, dest)
    ensures forall q :: q in r.params && q != src && q != dest ==> r'.params[q] == r.params[q]
    ensures r'.date == r.date && r'.meta == r.meta && r'.generated == r.generated
  {
    var r1 := AddParameter(r, src);
    var srcValue := Value(r1, src);
    var r2 := AddParameter(r1, dest);
    SetValue(SetValue(r2, src, Value(r2, dest)), dest, srcValue)
  }

  /** Swapping twice only leaves behind the two added parameters. */
  lemma SwapInvolutive(r: Record, src: string, dest: string)
    ensures SwapRecord(SwapRecord(r, src, dest), src, dest) == AddParameter(AddParameter(r, src), dest)
  {
    var a := SwapRecord(SwapRecord(r, src, dest), src, dest);
    var b := AddParameter(AddParameter(r, src), dest);
    assert a.params == b.params;
  }

  /**
   * MOVE of one source on one record: dest is added if missing; where dest
   * holds nodata it takes src's value and src becomes nodata; a dest that
   * already holds data is left alone.
   */
  function MoveRecord(r: Record, src: string, dest: string): (r': Record)
    ensures Value(r, dest) != Nodata ==> r' == r
    ensures Value(r, dest) == Nodata ==>
      r'.params.Keys == r.params.Keys + {src, dest} && r'.params[src] == Nodata &&
      (src != dest ==> r'.params[dest] == Value(r, src)) &&
      (forall q :: q in r.params && q != src && q != dest ==> r'.params[q] == r.params[q])
    ensures r'.date == r.date && r'.meta == r.meta && r'.generated == r.generated
  {
    var r1 := AddParameter(r, dest);
    if r1.params[dest] == Nodata then SetValue(SetValue(r1, dest, Value(r1, src)), src, Nodata)
    else r1
  }

  /** A second MOVE with the same parameters changes nothing more. */
  lemma MoveIdempotent(r: Record, src: string, dest: string)
    ensures MoveRecord(MoveRecord(r, src, dest), src, dest) == MoveRecord(r, src, dest)
  {
    var m := MoveRecord(r, src, dest);
    if Value(m, dest) == Nodata {
      var mm := MoveRecord(m, src, dest);
      assert mm.params == m.params;
    }
  }

  /** COPY on one record: dest is added if missing and takes src's value whenever the record has src. */
  function CopyRecord(r: Record, src: string, dest: string): (r': Record)
    ensures r'.params.Keys == r.params.Keys + {dest}
    ensures src in r.params ==> r'.params[dest] == r.params[src]
    ensures src !in r.params ==> r'.params[dest] == Value(r, dest)
    ensures forall q :: q in r.params && q != dest ==> r'.params[q] == r.params[q]
    ensures r'.date == r.date && r'.meta == r.meta && r'.generated == r.generated
  {
    var r1 := AddParameter(r, dest);
    if src in r1.params then SetValue(r1, dest, r1.params[src]) else r1
  }

  /** After a COPY from an existing parameter, src and dest read the same. */
  lemma CopyMakesEqual(r: Record, src: string, dest: string)
    requires src in r.params
    ensures Value(CopyRecord(r, src, dest), dest) == Value(CopyRecord(r, src, dest), src)
    ensures CopyRecord(CopyRecord(r, src, dest), src, dest) == CopyRecord(r, src, dest)
  {
  }

  /** EXCLUDE on one record: the listed parameters it has become nodata; nothing is added. */
  function ExcludeRecord(r: Record, params: set<string>): (r': Record)
    ensures r'.params.Keys == r.params.Keys
    ensures forall q :: q in r.params ==> r'.params[q] == (if q in params then Nodata else r.params[q])
    ensures r'.date == r.date && r'.meta == r.meta && r'.generated == r.generated
  {
    r.(params := map q | q in r.params :: if q in params then Nodata else r.params[q])
  }

  /**
   * KEEP on one record (EditingKeep::processStation): a reset copy gets back
   * the values of the kept parameters the record has.
   */
  function KeepRecord(r: Record, params: set<string>): (r': Record)
    ensures r'.params.Keys == r.params.Keys
    ensures forall q :: q in r.params && q in params ==> r'.params[q] == r.params[q]
    ensures forall q :: q in r.params && q !in params ==> r'.params[q] == Nodata
    ensures r'.date == r.date && r'.meta == r.meta && r'.generated == r.generated
  {
    var md := Reset(r);
    md.(params := map q | q in md.params :: if q in params then r.params[q] else Nodata)
  }

  /** KEEP of a set is EXCLUDE of every other parameter the record has. */
  lemma KeepIsExcludeOfRest(r: Record, params: set<string>)
    ensures KeepRecord(r, params) == ExcludeRecord(r, r.params.Keys - params)
  {
    assert KeepRecord(r, params).params == ExcludeRecord(r, r.params.Keys - params).params;
  }

  /** KEEP and EXCLUDE are idempotent. */
  lemma KeepExcludeIdempotent(r: Record, params: set<string>)
    ensures KeepRecord(KeepRecord(r, params), params) == KeepRecord(r, params)
    ensures ExcludeRecord(ExcludeRecord(r, params), params) == ExcludeRecord(r, params)
  {
    assert KeepRecord(KeepRecord(r, params), params).params == KeepRecord(r, params).params;
    assert ExcludeRecord(ExcludeRecord(r, params), params).params == ExcludeRecord(r, params).params;
  }

  /**
   * The metadata a METADATA block writes: an empty name or ID, or a nodata
   * coordinate, leaves that part alone. Latitude and longitude, and slope and
   * azimuth, are set together.
   */
  datatype MetaEdit = MetaEdit(newName: string, newId: string, lat: real, lon: real,
                               alt: real, slope: real, azi: real)

  function EditMeta(m: StationMeta, e: MetaEdit): (m': StationMeta)
    ensures m'.stationName == (if e.newName != "" then e.newName else m.stationName)
    ensures m'.stationId == (if e.newId != "" then e.newId else m.stationId)
    ensures (m'.lat, m'.lon) == (if e.lat != Nodata then (e.lat, e.lon) else (m.lat, m.lon))
    ensures m'.alt == (if e.alt != Nodata then e.alt else m.alt)
    ensures (m'.slope, m'.azi) == (if e.slope != Nodata then (e.slope, e.azi) else (m.slope, m.azi))
  {
    var m1 := if e.newName != "" then m.(stationName := e.newName) else m;
    var m2 := if e.newId != "" then m1.(stationId := e.newId) else m1;
    var m3 := if e.lat != Nodata then m2.(lat := e.lat, lon := e.lon) else m2;
    var m4 := if e.alt != Nodata then m3.(alt := e.alt) else m3;
    if e.slope != Nodata then m4.(slope := e.slope, azi := e.azi) else m4
  }

  /** Writing the same metadata twice is writing it once. */
  lemma EditMetaIdempotent(m: StationMeta, e: MetaEdit)
    ensures EditMeta(EditMeta(m, e), e) == EditMeta(m, e)
  {
  }

  /** The per-timestep edit a block applies inside its restriction periods. */
  datatype Edit =
    | Swap(src: string, dest: string)
    | Move(src: string, dest: string)
    | Copy(src: string, dest: string)
    | Exclude(params: set<string>)
    | Keep(params: set<string>)
    | Undefine
    | Clear
    | Meta(m: MetaEdit)

  function Apply(e: Edit, r: Record): (r': Record)
    ensures !e.Undefine? ==> r'.date == r.date
    ensures e.Undefine? ==> r'.date.None?
    ensures !e.Meta? ==> r'.meta == r.meta
    ensures e.Meta? ==> r'.meta == EditMeta(r.meta, e.m)
  {
    match e
    case Swap(src, dest) => SwapRecord(r, src, dest)
    case Move(src, dest) => MoveRecord(r, src, dest)
    case Copy(src, dest) => CopyRecord(r, src, dest)
    case Exclude(ps) => ExcludeRecord(r, ps)
    case Keep(ps) => KeepRecord(r, ps)
    case Undefine => r.(date := None)
    case Clear => Reset(r)
    case Meta(m) => r.(meta := EditMeta(r.meta, m))
  }

  // ---------------------------------------------------------------- edits over periods

  /** One period's timesteps edited, every other record untouched. */
  function ApplyRange(s: seq<Record>, p: Period, e: Edit): (r: seq<Record>)
    ensures |r| == |s|
    ensures forall j :: 0 <= j < |s| ==> r[j] == if p.start <= j < p.end then Apply(e, s[j]) else s[j]
  {
    seq(|s|, j requires 0 <= j < |s| => if p.start <= j < p.end then Apply(e, s[j]) else s[j])
  }

  /** The periods edited one after the other, in cursor order. */
  function ApplyPeriods(s: seq<Record>, ps: seq<Period>, e: Edit): (r: seq<Record>)
    ensures |r| == |s|
  {
    if ps == [] then s else ApplyRange(ApplyPeriods(s, ps[..|ps| - 1], e), ps[|ps| - 1], e)
  }

  lemma ApplyPeriodsStep(s: seq<Record>, ps: seq<Period>, k: nat, e: Edit)
    requires k < |ps|
    ensures ApplyPeriods(s, ps[..k + 1], e) == ApplyRange(ApplyPeriods(s, ps[..k], e), ps[k], e)
  {
    assert ps[..k + 1][..k] == ps[..k];
  }

  /** `j` lies in no period at all. */
  predicate Outside(ps: seq<Period>, j: nat)
  {
    forall k :: 0 <= k < |ps| ==> !(ps[k].start <= j < ps[k].end)
  }

  /** A timestep outside every period is left as it was. */
  lemma {:induction false} ApplyPeriodsOutside(s: seq<Record>, ps: seq<Period>, e: Edit, j: nat)
    requires j < |s| && Outside(ps, j)
    ensures ApplyPeriods(s, ps, e)[j] == s[j]
  {
    if ps != [] {
      var n := |ps| - 1;
      assert Outside(ps[..n], j) by {
        forall k | 0 <= k < n ensures !(ps[..n][k].start <= j < ps[..n][k].end) {
          assert ps[..n][k] == ps[k];
        }
      }
      ApplyPeriodsOutside(s, ps[..n], e, j);
    }
  }

  /** `j` lies in period `k` and in no other. */
  predicate OnlyIn(ps: seq<Period>, k: nat, j: nat)
  {
    k < |ps| && ps[k].start <= j < ps[k].end &&
    forall k' :: 0 <= k' < |ps| && k' != k ==> !(ps[k'].start <= j < ps[k'].end)
  }

  /** A timestep in exactly one period is edited exactly once. */
  lemma {:induction false} ApplyPeriodsOnce(s: seq<Record>, ps: seq<Period>, e: Edit, k: nat, j: nat)
    requires j < |s| && OnlyIn(ps, k, j)
    ensures ApplyPeriods(s, ps, e)[j] == Apply(e, s[j])
  {
    var n := |ps| - 1;
    var front := ps[..n];
    if k == n {
      assert Outside(front, j) by {
        forall k' | 0 <= k' < n ensures !(front[k'].start <= j < front[k'].end) {
          assert front[k'] == ps[k'];
        }
      }
      ApplyPeriodsOutside(s, front, e, j);
    } else {
      assert OnlyIn(front, k, j) by {
        assert front[k] == ps[k];
        forall k' | 0 <= k' < n && k' != k ensures !(front[k'].start <= j < front[k'].end) {
          assert front[k'] == ps[k'];
        }
      }
      ApplyPeriodsOnce(s, front, e, k, j);
    }
  }

  /** Every edit but Undefine keeps the timestamps, so the periods of the edited series are the same. */
  lemma {:induction false} ApplyPeriodsKeepsDates(s: seq<Record>, ps: seq<Period>, e: Edit)
    requires !e.Undefine?
    ensures DatesOf(ApplyPeriods(s, ps, e)) == DatesOf(s)
  {
    if ps != [] {
      ApplyPeriodsKeepsDates(s, ps[..|ps| - 1], e);
    }
  }

  /** With Undefine, each record is either the original one or carries an undefined date. */
  lemma {:induction false} UndefineOrOriginal(s: seq<Record>, ps: seq<Period>)
    ensures forall j :: 0 <= j < |s| ==>
      ApplyPeriods(s, ps, Undefine)[j] == s[j] || ApplyPeriods(s, ps, Undefine)[j].date.None?
  {
    if ps != [] {
      UndefineOrOriginal(s, ps[..|ps| - 1]);
    }
  }

  /** The timesteps of one period edited in place, by the inner loop over `jj`. */
  method EditRange(e: Edit, s: seq<Record>, a: nat, z: nat) returns (s': seq<Record>)
    requires a <= z <= |s|
    ensures s' == ApplyRange(s, Period(a, z), e)
  {
    s' := s;
    var jj := a;
    while jj < z
      invariant a <= jj <= z && |s'| == |s|
      invariant forall j :: 0 <= j < |s| ==> s'[j] == if a <= j < jj then Apply(e, s[j]) else s[j]
    {
      s' := s'[jj := Apply(e, s'[jj])];
      jj := jj + 1;
    }
  }

  /** The restriction-period loop: a cursor over `ps`, each period edited in turn. */
  method EditSeries(e: Edit, s: seq<Record>, ps: seq<Period>) returns (s': seq<Record>)
    requires Fits(ps, |s|)
    ensures s' == ApplyPeriods(s, ps, e)
  {
    var cursor := new RestrictionsIdx(ps);
    s' := s;
    var k := 0;
    while cursor.IsValid()
      invariant cursor.Valid() && cursor.Periods() == ps
      invariant k <= |ps| && cursor.Remaining() == ps[k..]
      invariant s' == ApplyPeriods(s, ps[..k], e)
      decreases |cursor.Remaining()|
    {
      ApplyPeriodsStep(s, ps, k, e);
      var a, z := cursor.GetStart(), cursor.GetEnd();
      assert Period(a, z) == ps[k];
      s' := EditRange(e, s', a, z);
      RemainingAfter(ps, k);
      cursor.Next();
      k := k + 1;
    }
    assert ps[..k] == ps;
  }

  /** Every station's series after one block applies `e`: skipped stations are untouched. */
  function EditedAll(b: Block, e: Edit, vv: seq<seq<Record>>): (r: seq<seq<Record>>)
    requires PeriodsFit(b)
    ensures |r| == |vv|
    ensures forall st :: 0 <= st < |vv| && SkipStation(b, vv[st]) ==> r[st] == vv[st]
  {
    seq(|vv|, st requires 0 <= st < |vv| =>
      if SkipStation(b, vv[st]) then vv[st] else ApplyPeriods(vv[st], PeriodsOn(b, vv[st]), e))
  }

  /** The loop over the stations that SWAP, COPY, KEEP and in-place METADATA share. */
  method EditStations(b: Block, e: Edit, vv: seq<seq<Record>>) returns (out: seq<seq<Record>>)
    requires PeriodsFit(b)
    ensures out == EditedAll(b, e, vv)
  {
    out := vv;
    var station := 0;
    while station < |vv|
      invariant station <= |vv| && |out| == |vv|
      invariant forall st :: 0 <= st < station ==> out[st] == EditedAll(b, e, vv)[st]
      invariant forall st :: station <= st < |vv| ==> out[st] == vv[st]
    {
      if !SkipStation(b, vv[station]) {
        var edited := EditSeries(e, vv[station], PeriodsOn(b, vv[station]));
        out := out[station := edited];
      }
      station := station + 1;
    }
  }

  /** On a series whose periods do not overlap, each timestep in a period is edited once and the rest kept. */
  lemma EditedAllDisjoint(b: Block, e: Edit, vv: seq<seq<Record>>, st: nat, k: nat, j: nat)
    requires PeriodsFit(b) && st < |vv| && !SkipStation(b, vv[st]) && j < |vv[st]|
    requires OnlyIn(PeriodsOn(b, vv[st]), k, j)
    ensures EditedAll(b, e, vv)[st][j] == Apply(e, vv[st][j])
  {
    ApplyPeriodsOnce(vv[st], PeriodsOn(b, vv[st]), e, k, j);
  }
}
