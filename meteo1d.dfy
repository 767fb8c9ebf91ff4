/**
 * Meteo1DInterpolator: per parameter, a ResamplingStack of algorithms with an
 * optional maximum gap size each, built from the configuration; at resampling
 * time the stack is filtered by the size of the data gap and the position of
 * the requested date within the series is classified.
 */
module Meteo1D {
  import opened Common
  import opened Meteo

  /** One configured resampling algorithm: its upper-cased name and its arguments. */
  datatype Algorithm = Algorithm(name: string, args: seq<(string, string)>)

  /** ResamplingAlgorithms::ResamplingPosition. */
  datatype Position = ExactMatch | Before | Begin | End

  // ---------------------------------------------------------------- eraseArg

  /** The arguments without those whose key is `argname`, in their order. */
  function Without(args: seq<(string, string)>, argname: string): (r: seq<(string, string)>)
  {
    if args == [] then []
    else Without(args[..|args| - 1], argname) + (if args[|args| - 1].0 == argname then [] else [args[|args| - 1]])
  }

  /** eraseArg: erase in place every pair whose key is `argname`. */
  method EraseArg(vecArgs: seq<(string, string)>, argname: string) returns (v: seq<(string, string)>)
    ensures v == Without(vecArgs, argname)
  {
    v := vecArgs;
    var i := 0;
    ghost var j := 0;
    while i < |v|
      invariant i <= |v| && j <= |vecArgs|
      invariant v[..i] == Without(vecArgs[..j], argname)
      invariant v[i..] == vecArgs[j..]
      decreases |v| - i
    {
      assert vecArgs[..j + 1][..j] == vecArgs[..j];
      assert v[i] == vecArgs[j];
      if v[i].0 == argname {
        ghost var prefix, tail := v[..i], v[i + 1..];
        assert tail == vecArgs[j + 1..];
        v := v[..i] + v[i + 1..];
        assert v[..i] == prefix && v[i..] == tail;
      } else {
        i := i + 1;
      }
      j := j + 1;
    }
    assert vecArgs[..j] == vecArgs;
  }

  /** No pair keyed `argname` is left, and every other pair is kept. */
  lemma {:induction false} WithoutMembers(args: seq<(string, string)>, argname: string)
    ensures forall a :: a in Without(args, argname) <==> a in args && a.0 != argname
  {
    if args != [] {
      WithoutMembers(args[..|args| - 1], argname);
      assert args == args[..|args| - 1] + [args[|args| - 1]];
    }
  }

  /** Erasing keeps the relative order: the result of a concatenation is the concatenation of the results. */
  lemma {:induction false} WithoutAppend(a: seq<(string, string)>, b: seq<(string, string)>, argname: string)
    ensures Without(a + b, argname) == Without(a, argname) + Without(b, argname)
  {
    if b != [] {
      assert (a + b)[..|a + b| - 1] == a + b[..|b| - 1];
      WithoutAppend(a, b[..|b| - 1], argname);
    } else {
      assert a + b == a;
    }
  }

  // ---------------------------------------------------------------- constructor settings

  datatype Settings = Settings(windowSize: real, enableResampling: bool)

  /**
   * The constructor's reading of WINDOW_SIZE (seconds, default 86400) and
   * ENABLE_RESAMPLING (default true): a negative window is an IOError, the
   * window is kept in days, and a zero window disables resampling.
   */
  function ReadSettings(windowCfg: Option<real>, enableCfg: Option<bool>): (r: Result<Settings>)
    ensures r.Err? <==> windowCfg.Some? && windowCfg.value < 0.0
    ensures r.Err? ==> r.kind == IOError
    ensures r.Ok? ==> r.value.windowSize * 86400.0 == (if windowCfg.Some? then windowCfg.value else 86400.0)
    ensures r.Ok? ==> (r.value.enableResampling <==>
      (enableCfg.None? || enableCfg.value) && r.value.windowSize != 0.0)
  {
    var w := if windowCfg.Some? then windowCfg.value else 86400.0;
    if w < 0.0 then Err(IOError)
    else Ok(Settings(w / 86400.0, (if enableCfg.Some? then enableCfg.value else true) && w / 86400.0 != 0.0))
  }

  // ---------------------------------------------------------------- ResamplingStack

  /** The algorithms kept for a gap of size `gap`: those with no limit or a limit at least `gap`, in stack order. */
  function Usable(algos: seq<Algorithm>, gaps: seq<real>, gap: real): (r: seq<Algorithm>)
    requires |algos| == |gaps|
  {
    if algos == [] then []
    else
      var n := |algos| - 1;
      Usable(algos[..n], gaps[..n], gap) + (if gaps[n] == Nodata || gap <= gaps[n] then [algos[n]] else [])
  }

  /** An algorithm is usable for a gap exactly when its limit is unset or not exceeded. */
  lemma {:induction false} UsableMembers(algos: seq<Algorithm>, gaps: seq<real>, gap: real, i: nat)
    requires |algos| == |gaps| && i < |algos|
    requires forall j :: 0 <= j < |algos| && j != i ==> algos[j] != algos[i]
    ensures algos[i] in Usable(algos, gaps, gap) <==> gaps[i] == Nodata || gap <= gaps[i]
  {
    var n := |algos| - 1;
    if i < n {
      UsableMembers(algos[..n], gaps[..n], gap, i);
    } else {
      UsableAbsent(algos[..n], gaps[..n], gap, algos[i]);
    }
  }

  lemma {:induction false} UsableAbsent(algos: seq<Algorithm>, gaps: seq<real>, gap: real, a: Algorithm)
    requires |algos| == |gaps| && a !in algos
    ensures a !in Usable(algos, gaps, gap)
  {
    if algos != [] {
      var n := |algos| - 1;
      UsableAbsent(algos[..n], gaps[..n], gap, a);
    }
  }

  /** Without any gap limit the whole stack is used, in order. */
  lemma {:induction false} UnlimitedKeepsAll(algos: seq<Algorithm>, gaps: seq<real>, gap: real)
    requires |algos| == |gaps| && forall j :: 0 <= j < |gaps| ==> gaps[j] == Nodata
    ensures Usable(algos, gaps, gap) == algos
  {
    if algos != [] {
      var n := |algos| - 1;
      UnlimitedKeepsAll(algos[..n], gaps[..n], gap);
      assert algos[..n] + [algos[n]] == algos;
    }
  }

  /**
   * The value a stack leaves in md(ii): each algorithm resamples from the value
   * the previous one left; the loop stops after an algorithm other than the
   * first changed the value away from the original record's, or, on an exact
   * match, as soon as the value equals the original one.
   */
  function RunStack(algos: seq<Algorithm>, pos: Position, orig: real, cur: real,
                    resample: (Algorithm, real) -> real, first: bool): (v: real)
    decreases |algos|
  {
    if algos == [] then cur
    else
      var nv := resample(algos[0], cur);
      if (!first && orig != nv) || (pos == ExactMatch && orig == nv) then nv
      else RunStack(algos[1..], pos, orig, nv, resample, false)
  }

  class ResamplingStack {
    var stack: seq<Algorithm>
    var maxGapSizes: seq<real>

    ghost predicate Valid()
      reads this
    {
      |stack| == |maxGapSizes|
    }

    constructor ()
      ensures Valid() && stack == [] && maxGapSizes == []
    {
      stack, maxGapSizes := [], [];
    }

    /** addAlgorithm: push onto both parallel vectors. */
    method AddAlgorithm(algo: Algorithm, maxGapSize: real)
      requires Valid()
      modifies this
      ensures Valid()
      ensures stack == old(stack) + [algo] && maxGapSizes == old(maxGapSizes) + [maxGapSize]
    {
      stack := stack + [algo];
      maxGapSizes := maxGapSizes + [maxGapSize];
    }

    function Empty(): (b: bool)
      reads this
      ensures b <==> |stack| == 0
    {
      stack == []
    }

    /** buildStack: the algorithms allowed for a gap of the given size. */
    method BuildStack(gapSize: real) returns (res: seq<Algorithm>)
      requires Valid()
      ensures res == Usable(stack, maxGapSizes, gapSize)
    {
      res := [];
      var ii := 0;
      while ii < |stack|
        invariant ii <= |stack|
        invariant res == Usable(stack[..ii], maxGapSizes[..ii], gapSize)
      {
        assert stack[..ii + 1][..ii] == stack[..ii] && maxGapSizes[..ii + 1][..ii] == maxGapSizes[..ii];
        if maxGapSizes[ii] == Nodata {
          res := res + [stack[ii]];
        } else if gapSize <= maxGapSizes[ii] {
          res := res + [stack[ii]];
        }
        ii := ii + 1;
      }
      assert stack[..ii] == stack && maxGapSizes[..ii] == maxGapSizes;
    }

    /**
     * resample: build the stack for the gap, then run its algorithms on md(ii)
     * with the two early exits; `orig` is vecM[index](ii) and `cur` md(ii) on entry.
     */
    method Resample(gapSize: real, pos: Position, orig: real, cur: real,
                    resample: (Algorithm, real) -> real) returns (v: real)
      requires Valid()
      ensures v == RunStack(Usable(stack, maxGapSizes, gapSize), pos, orig, cur, resample, true)
    {
      var algos := BuildStack(gapSize);
      v := cur;
      var jj := 0;
      while jj < |algos|
        invariant jj <= |algos|
        invariant RunStack(algos, pos, orig, cur, resample, true) == RunStack(algos[jj..], pos, orig, v, resample, jj == 0)
      {
        assert algos[jj..][1..] == algos[jj + 1..];
        v := resample(algos[jj], v);
        if jj > 0 && orig != v {
          break;
        } else if pos == ExactMatch && orig == v {
          break;
        }
        jj := jj + 1;
      }
    }

    /**
     * processAlgorithms for one parameter: NONE becomes LINEAR, MAX_GAP_SIZE
     * (nodata when unset) must not be negative and is converted to days, the
     * MAX_GAP_SIZE argument is removed from the algorithm's arguments (except
     * for the virtual-station ACCUMULATE, which gets a PERIOD argument), and an
     * empty stack receives a default LINEAR without gap limit.
     */
    method ProcessAlgorithms(firstTime: bool, vstationsRankOne: bool, refreshRate: string, parname: string,
                             vecAlgos: seq<(string, string)>, maxGapCfg: string -> real,
                             argsOf: (string, string) -> seq<(string, string)>) returns (r: Result<()>)
      requires Valid()
      modifies this
      ensures Valid()
      ensures r.Ok? <==> forall i :: 0 <= i < |vecAlgos| ==> GapOk(parname, vecAlgos[i].1, maxGapCfg)
      ensures r.Err? ==> r.kind == IOError
      ensures r.Ok? && old(stack) == [] && vecAlgos == [] ==>
        stack == [Algorithm("LINEAR", argsOf(parname, "LINEAR"))] && maxGapSizes == [Nodata]
      ensures r.Ok? && (old(stack) != [] || vecAlgos != []) ==>
        stack == old(stack) + Planned(firstTime, vstationsRankOne, refreshRate, parname, vecAlgos, argsOf)
        && maxGapSizes == old(maxGapSizes) + PlannedGaps(parname, vecAlgos, maxGapCfg)
    {
      r := ProcessList(firstTime, vstationsRankOne, refreshRate, parname, vecAlgos, maxGapCfg, argsOf);
      if r.Err? {
        return;
      }
      if Empty() {
        AddAlgorithm(Algorithm("LINEAR", argsOf(parname, "LINEAR")), Nodata);
      }
    }

    /** The loop of processAlgorithms over the configured algorithms, stopping at the first invalid gap limit. */
    method ProcessList(firstTime: bool, vstationsRankOne: bool, refreshRate: string, parname: string,
                       vecAlgos: seq<(string, string)>, maxGapCfg: string -> real,
                       argsOf: (string, string) -> seq<(string, string)>) returns (r: Result<()>)
      requires Valid()
      modifies this
      ensures Valid()
      ensures r.Ok? <==> forall i :: 0 <= i < |vecAlgos| ==> GapOk(parname, vecAlgos[i].1, maxGapCfg)
      ensures r.Err? ==> r.kind == IOError
      ensures r.Ok? ==> stack == old(stack) + Planned(firstTime, vstationsRankOne, refreshRate, parname, vecAlgos, argsOf)
      ensures r.Ok? ==> maxGapSizes == old(maxGapSizes) + PlannedGaps(parname, vecAlgos, maxGapCfg)
    {
      var ii := 0;
      ghost var s0, g0 := stack, maxGapSizes;
      r := Ok(());
      while ii < |vecAlgos|
        invariant ii <= |vecAlgos| && Valid() && r.Ok?
        invariant forall i :: 0 <= i < ii ==> GapOk(parname, vecAlgos[i].1, maxGapCfg)
        invariant stack == s0 + Planned(firstTime, vstationsRankOne, refreshRate, parname, vecAlgos[..ii], argsOf)
        invariant maxGapSizes == g0 + PlannedGaps(parname, vecAlgos[..ii], maxGapCfg)
      {
        ghost var prevS, prevG := stack, maxGapSizes;
        var configured := vecAlgos[ii].1;
        r := ProcessOne(firstTime, vstationsRankOne, refreshRate, parname, configured, maxGapCfg, argsOf);
        if r.Err? {
          assert !GapOk(parname, vecAlgos[ii].1, maxGapCfg);
          return;
        }
        PlannedStep(firstTime, vstationsRankOne, refreshRate, parname, vecAlgos, ii, maxGapCfg, argsOf,
                    s0, g0, prevS, prevG, stack, maxGapSizes);
        ii := ii + 1;
      }
      assert vecAlgos[..ii] == vecAlgos;
    }

    /** One configured algorithm of processAlgorithms: check and convert its gap limit, then push it. */
    method ProcessOne(firstTime: bool, vstationsRankOne: bool, refreshRate: string, parname: string,
                      configured: string, maxGapCfg: string -> real,
                      argsOf: (string, string) -> seq<(string, string)>) returns (r: Result<()>)
      requires Valid()
      modifies this
      ensures Valid()
      ensures r.Ok? <==> GapOk(parname, configured, maxGapCfg)
      ensures r.Err? ==> r.kind == IOError
      ensures r.Ok? ==> stack == old(stack) + [PlannedOne(firstTime, vstationsRankOne, refreshRate, parname, configured, argsOf)]
      ensures r.Ok? ==> maxGapSizes == old(maxGapSizes) + [GapOf(parname, configured, maxGapCfg)]
    {
      var algoName := AlgoName(configured);
      var maxGap := maxGapCfg(parname + "::" + algoName + "::MAX_GAP_SIZE");
      if maxGap != Nodata {
        if maxGap < 0.0 {
          return Err(IOError);
        } else {
          maxGap := maxGap / 86400.0;
        }
      }
      if firstTime && algoName == "ACCUMULATE" && vstationsRankOne {
        AddAlgorithm(Algorithm(algoName, [("PERIOD", refreshRate)]), maxGap);
      } else {
        var args := EraseArg(argsOf(parname, algoName), "MAX_GAP_SIZE");
        AddAlgorithm(Algorithm(algoName, args), maxGap);
      }
      return Ok(());
    }
  }

  /** The algorithm processAlgorithms pushes for one configured name. */
  function PlannedOne(firstTime: bool, vstationsRankOne: bool, refreshRate: string, parname: string,
                      configured: string, argsOf: (string, string) -> seq<(string, string)>): Algorithm
  {
    var name := AlgoName(configured);
    if firstTime && name == "ACCUMULATE" && vstationsRankOne then Algorithm(name, [("PERIOD", refreshRate)])
    else Algorithm(name, Without(argsOf(parname, name), "MAX_GAP_SIZE"))
  }

  /** The upper-cased algorithm name, NONE standing for the default LINEAR. */
  function AlgoName(configured: string): (n: string)
    ensures n != "NONE"
    ensures Upper(configured) != "NONE" ==> n == Upper(configured)
  {
    if Upper(configured) == "NONE" then "LINEAR" else Upper(configured)
  }

  function GapKey(parname: string, configured: string): string
  {
    parname + "::" + AlgoName(configured) + "::MAX_GAP_SIZE"
  }

  /** A MAX_GAP_SIZE is accepted when unset (nodata) or not negative. */
  predicate GapAccepted(g: real)
  {
    g == Nodata || g >= 0.0
  }

  /** The MAX_GAP_SIZE configured for one algorithm of a parameter is accepted. */
  predicate GapOk(parname: string, configured: string, maxGapCfg: string -> real)
  {
    GapAccepted(maxGapCfg(GapKey(parname, configured)))
  }

  /** The gap limit stored for one algorithm of a parameter. */
  function GapOf(parname: string, configured: string, maxGapCfg: string -> real): real
  {
    StoredGap(maxGapCfg(GapKey(parname, configured)))
  }

  /** The gap limit stored for a configured value: nodata stays nodata, seconds become days. */
  function StoredGap(g: real): real
  {
    if g == Nodata then Nodata else g / 86400.0
  }

  function Planned(firstTime: bool, vstationsRankOne: bool, refreshRate: string, parname: string,
                   vecAlgos: seq<(string, string)>, argsOf: (string, string) -> seq<(string, string)>): (r: seq<Algorithm>)
    ensures |r| == |vecAlgos|
  {
    if vecAlgos == [] then []
    else
      var n := |vecAlgos| - 1;
      Planned(firstTime, vstationsRankOne, refreshRate, parname, vecAlgos[..n], argsOf)
        + [PlannedOne(firstTime, vstationsRankOne, refreshRate, parname, vecAlgos[n].1, argsOf)]
  }

  function PlannedGaps(parname: string, vecAlgos: seq<(string, string)>, maxGapCfg: string -> real): (r: seq<real>)
    ensures |r| == |vecAlgos|
  {
    if vecAlgos == [] then []
    else
      var n := |vecAlgos| - 1;
      PlannedGaps(parname, vecAlgos[..n], maxGapCfg) + [GapOf(parname, vecAlgos[n].1, maxGapCfg)]
  }

  /** One step of the processAlgorithms loop keeps the stack equal to the plan of the algorithms seen so far. */
  lemma PlannedStep(firstTime: bool, vstationsRankOne: bool, refreshRate: string, parname: string,
                    vecAlgos: seq<(string, string)>, ii: nat, maxGapCfg: string -> real,
                    argsOf: (string, string) -> seq<(string, string)>,
                    s0: seq<Algorithm>, g0: seq<real>, prevS: seq<Algorithm>, prevG: seq<real>,
                    stack: seq<Algorithm>, gaps: seq<real>)
    requires ii < |vecAlgos|
    requires prevS == s0 + Planned(firstTime, vstationsRankOne, refreshRate, parname, vecAlgos[..ii], argsOf)
    requires prevG == g0 + PlannedGaps(parname, vecAlgos[..ii], maxGapCfg)
    requires stack == prevS + [PlannedOne(firstTime, vstationsRankOne, refreshRate, parname, vecAlgos[ii].1, argsOf)]
    requires gaps == prevG + [GapOf(parname, vecAlgos[ii].1, maxGapCfg)]
    ensures stack == s0 + Planned(firstTime, vstationsRankOne, refreshRate, parname, vecAlgos[..ii + 1], argsOf)
    ensures gaps == g0 + PlannedGaps(parname, vecAlgos[..ii + 1], maxGapCfg)
  {
    PlannedSnoc(firstTime, vstationsRankOne, refreshRate, parname, vecAlgos, ii, argsOf);
    PlannedGapsSnoc(parname, vecAlgos, ii, maxGapCfg);
  }

  lemma PlannedSnoc(firstTime: bool, vstationsRankOne: bool, refreshRate: string, parname: string,
                    vecAlgos: seq<(string, string)>, ii: nat, argsOf: (string, string) -> seq<(string, string)>)
    requires ii < |vecAlgos|
    ensures Planned(firstTime, vstationsRankOne, refreshRate, parname, vecAlgos[..ii + 1], argsOf) ==
      Planned(firstTime, vstationsRankOne, refreshRate, parname, vecAlgos[..ii], argsOf)
        + [PlannedOne(firstTime, vstationsRankOne, refreshRate, parname, vecAlgos[ii].1, argsOf)]
  {
    var t := vecAlgos[..ii + 1];
    assert t[..ii] == vecAlgos[..ii] && t[ii] == vecAlgos[ii];
  }

  lemma PlannedGapsSnoc(parname: string, vecAlgos: seq<(string, string)>, ii: nat, maxGapCfg: string -> real)
    requires ii < |vecAlgos|
    ensures PlannedGaps(parname, vecAlgos[..ii + 1], maxGapCfg) ==
      PlannedGaps(parname, vecAlgos[..ii], maxGapCfg) + [GapOf(parname, vecAlgos[ii].1, maxGapCfg)]
  {
    var t := vecAlgos[..ii + 1];
    assert t[..ii] == vecAlgos[..ii] && t[ii] == vecAlgos[ii];
  }

  /** No planned algorithm is NONE, and gap limits are never negative unless unset. */
  lemma {:induction false} PlannedNames(firstTime: bool, vstationsRankOne: bool, refreshRate: string, parname: string,
                                        vecAlgos: seq<(string, string)>, argsOf: (string, string) -> seq<(string, string)>)
    ensures forall a :: a in Planned(firstTime, vstationsRankOne, refreshRate, parname, vecAlgos, argsOf) ==> a.name != "NONE"
    ensures forall a :: a in Planned(firstTime, vstationsRankOne, refreshRate, parname, vecAlgos, argsOf) ==>
      a.name == "ACCUMULATE" || forall x :: x in a.args ==> x.0 != "MAX_GAP_SIZE"
  {
    if vecAlgos != [] {
      var n := |vecAlgos| - 1;
      PlannedNames(firstTime, vstationsRankOne, refreshRate, parname, vecAlgos[..n], argsOf);
      var name := AlgoName(vecAlgos[n].1);
      WithoutMembers(argsOf(parname, name), "MAX_GAP_SIZE");
    }
  }

  // ---------------------------------------------------------------- resampleData

  /**
   * Where the requested date sits, given the index IOUtils::seek returned
   * (`None` for npos): before the first record is `Begin` at index 0, at or after
   * the last is `End` at the last index, an inexact neighbour is `Before`, an
   * exact date an `ExactMatch`. A date strictly inside the series without a
   * seek result leaves the index at npos, which the source then dereferences.
   */
  function Locate(date: int, dates: seq<int>, index: Option<nat>): (r: Result<(Position, nat)>)
    requires |dates| > 0
    requires index.Some? ==> index.value < |dates|
    ensures r.Ok? ==> r.value.1 < |dates|
    ensures index.None? && date < dates[0] ==> r == Ok((Begin, 0))
    ensures index.None? && !(date < dates[0]) && date >= dates[|dates| - 1] ==> r == Ok((End, |dates| - 1))
    ensures index.None? && dates[0] <= date < dates[|dates| - 1] ==> r == Err(Undefined)
    ensures index.Some? ==> r.Ok? && r.value.1 == index.value
    ensures index.Some? ==> (r.value.0 == ExactMatch <==> dates[index.value] == date)
    ensures index.Some? && dates[index.value] != date ==> r.value.0 == Before
  {
    if index.None? then
      if date < dates[0] then Ok((Begin, 0))
      else if date >= dates[|dates| - 1] then Ok((End, |dates| - 1))
      else Err(Undefined)
    else if dates[index.value] != date then Ok((Before, index.value))
    else Ok((ExactMatch, index.value))
  }

  /** The dates of a series (undefined dates read as `INodata`, never compared here). */
  function Dates(vecM: seq<Record>): (d: seq<int>)
    ensures |d| == |vecM|
  {
    seq(|vecM|, i requires 0 <= i < |vecM| => if vecM[i].date.Some? then vecM[i].date.value else INodata)
  }

  /** The record resampleData starts from, and whether it is resampled (`None` for the empty series). */
  datatype Start = Start(md: Record, pos: Position, index: nat, isResampled: bool)

  /**
   * The part of resampleData that does not depend on the resampling algorithms:
   * an empty series yields false (None); with resampling disabled an exact match
   * is returned as is and any other date yields a nodata record at that date;
   * with resampling enabled the clone is reset, dated and marked resampled
   * unless it is an exact match, ready for the per-parameter stacks.
   */
  function ResampleStart(date: int, vecM: seq<Record>, index: Option<nat>, enableResampling: bool): (r: Result<Option<Start>>)
    requires index.Some? ==> index.value < |vecM|
    ensures vecM == [] ==> r == Ok(None)
    ensures r.Ok? && r.value.Some? ==> r.value.value.index < |vecM|
    ensures r.Ok? && r.value.Some? && !r.value.value.isResampled && !enableResampling ==>
      r.value.value.md == vecM[r.value.value.index]
    ensures r.Ok? && r.value.Some? && (r.value.value.isResampled || enableResampling) ==>
      r.value.value.md == Reset(vecM[r.value.value.index]).(date := Some(date))
    ensures r.Ok? && r.value.Some? ==> (r.value.value.isResampled <==> r.value.value.pos != ExactMatch)
  {
    if vecM == [] then Ok(None)
    else
      match Locate(date, Dates(vecM), index)
      case Err(e) => Err(e)
      case Ok((pos, idx)) =>
        var isResampled := pos != ExactMatch;
        var md := vecM[idx];
        if !enableResampling && !isResampled then Ok(Some(Start(md, pos, idx, false)))
        else Ok(Some(Start(Reset(md).(date := Some(date)), pos, idx, isResampled)))
  }

  /** On an exact match the stack stops at the first algorithm that gives back the original value. */
  lemma ExactMatchStopsOnOriginal(algos: seq<Algorithm>, orig: real, cur: real, resample: (Algorithm, real) -> real)
    requires algos != [] && resample(algos[0], cur) == orig
    ensures RunStack(algos, ExactMatch, orig, cur, resample, true) == orig
  {
  }

  /** The result of a stack is the value left by some algorithm of it, or the starting value for an empty stack. */
  lemma {:induction false} RunStackComesFromAlgorithm(algos: seq<Algorithm>, pos: Position, orig: real, cur: real,
                                                      resample: (Algorithm, real) -> real, first: bool)
    ensures algos == [] ==> RunStack(algos, pos, orig, cur, resample, first) == cur
    ensures algos != [] ==> exists a, x :: a in algos && RunStack(algos, pos, orig, cur, resample, first) == resample(a, x)
  {
    if algos != [] {
      var nv := resample(algos[0], cur);
      if !((!first && orig != nv) || (pos == ExactMatch && orig == nv)) && algos[1..] != [] {
        RunStackComesFromAlgorithm(algos[1..], pos, orig, nv, resample, false);
        var a, x :| a in algos[1..] && RunStack(algos[1..], pos, orig, nv, resample, false) == resample(a, x);
        assert a in algos;
      } else {
        assert RunStack(algos, pos, orig, cur, resample, first) == resample(algos[0], cur);
        assert algos[0] in algos;
      }
    }
  }
}
