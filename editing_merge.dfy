/**
 * The station-merging blocks of DataEditingAlgorithms.cc: MERGE, which merges
 * a declared list of stations into one, and AUTOMERGE, which merges stations
 * sharing an ID and removes the merged-in copies by swap-with-back and
 * pop_back. Both work on the station metadata (STATIONS_SET) and on the
 * series (vector<METEO_SET>); the shared loops are generic over the element
 * type, with the element's ID and the merge operation as parameters.
 * MeteoData::mergeTimeSeries and StationData::merge are not part of this
 * model and appear as such parameters.
 */
module EditingMerge {
  import opened Common
  import opened Meteo
  import opened Restrictions
  import opened EditingBlock
  import opened EditingAlgorithms

  // ---------------------------------------------------------------- finding the target

  /** The first index whose element has ID `id`; `idOf` is None for an element without one (an empty series). */
  function FirstWithId<T>(v: seq<T>, id: string, idOf: T -> Option<string>): (r: Option<nat>)
    ensures r.Some? ==> r.value < |v| && idOf(v[r.value]) == Some(id)
    ensures r.Some? ==> forall j :: 0 <= j < r.value ==> idOf(v[j]) != Some(id)
    ensures r.None? <==> forall j :: 0 <= j < |v| ==> idOf(v[j]) != Some(id)
  {
    if v == [] then None
    else if idOf(v[0]) == Some(id) then Some(0)
    else match FirstWithId(v[1..], id, idOf)
      case None => None
      case Some(k) => Some(k + 1)
  }

  /** The search loop that opens editTimeSeries of MERGE and of AUTOMERGE for one station. */
  method FindStation<T>(v: seq<T>, id: string, idOf: T -> Option<string>) returns (r: Option<nat>)
    ensures r == FirstWithId(v, id, idOf)
  {
    var ii := 0;
    while ii < |v|
      invariant ii <= |v|
      invariant forall j :: 0 <= j < ii ==> idOf(v[j]) != Some(id)
    {
      if idOf(v[ii]) == Some(id) {
        return Some(ii);
      }
      ii := ii + 1;
    }
    return None;
  }

  /** The ID of a station, compared upper-cased. */
  function StationId(sd: StationMeta): (id: Option<string>)
    ensures id == Some(Upper(sd.stationId))
  {
    Some(Upper(sd.stationId))
  }

  // ---------------------------------------------------------------- MERGE

  /** A MERGE block: the stations to merge from in declaration order, the parameters to merge (all when empty). */
  datatype MergeBlock = MergeBlock(base: Block, merged: seq<string>, params: set<string>,
                                   strategy: Option<string>, conflicts: Option<string>)

  predicate Distinct(ws: seq<string>)
  {
    forall i, j :: 0 <= i < j < |ws| ==> ws[i] != ws[j]
  }

  /** Building a set from the list loses an element exactly when the list repeats one. */
  lemma {:induction false} DistinctCard(ws: seq<string>)
    ensures |ElemSet(ws)| <= |ws|
    ensures |ElemSet(ws)| == |ws| <==> Distinct(ws)
  {
    if ws != [] {
      var n := |ws| - 1;
      var front := ws[..n];
      DistinctCard(front);
      assert ws == front + [ws[n]];
      assert ElemSet(ws) == ElemSet(front) + {ws[n]};
      if ws[n] in front {
        assert ElemSet(ws) == ElemSet(front);
        var i :| 0 <= i < n && front[i] == ws[n];
        assert ws[i] == ws[n];
      } else {
        assert ws[n] !in ElemSet(front);
        if Distinct(front) {
          forall i, j | 0 <= i < j < |ws| ensures ws[i] != ws[j] {
            if j < n { assert ws[i] == front[i] && ws[j] == front[j]; }
            else { assert ws[i] in front; }
          }
        } else {
          var i, j :| 0 <= i < j < n && front[i] == front[j];
          assert ws[i] == ws[j];
        }
      }
    }
  }

  /** The stations named by the last MERGE argument, upper-cased. */
  function MergedOf(args: Args): seq<string>
  {
    UpperList(LastValue(args, "MERGE"))
  }

  /**
   * The MERGE constructor and parse_args: the `*` station is refused first;
   * then a repeated source station, the station merging with itself, and an
   * empty list, each an InvalidArgumentException.
   */
  method ParseMerge(rawId: string, base: Block, args: Args) returns (r: Result<MergeBlock>)
    requires base.stationId == Upper(rawId)
    ensures rawId == "*" ==> r == Err(InvalidArgument)
    ensures r.Ok? <==> rawId != "*" && Distinct(MergedOf(args)) && base.stationId !in MergedOf(args) && MergedOf(args) != []
    ensures r.Err? ==> r.kind == InvalidArgument
    ensures r.Ok? ==> r.value == MergeBlock(base, MergedOf(args), ElemSet(UpperList(LastValue(args, "PARAMS"))),
                                            LastValue(args, "MERGE_STRATEGY"), LastValue(args, "MERGE_CONFLICTS"))
  {
    if rawId == "*" {
      return Err(InvalidArgument);
    }
    var m := ScanArg(args, "MERGE");
    var p := ScanArg(args, "PARAMS");
    var strategy := ScanArg(args, "MERGE_STRATEGY");
    var conflicts := ScanArg(args, "MERGE_CONFLICTS");
    var merged := UpperList(m);
    var tmp := ElemSet(merged);
    DistinctCard(merged);
    if |tmp| < |merged| {
      return Err(InvalidArgument);
    }
    if base.stationId in tmp {
      return Err(InvalidArgument);
    }
    if merged == [] {
      return Err(InvalidArgument);
    }
    return Ok(MergeBlock(base, merged, ElemSet(UpperList(p)), strategy, conflicts));
  }

  /** requiredIDs of MERGE, and so its purgeIDs: the stations it merges from. */
  function MergeRequiredIds(blk: MergeBlock): (r: set<string>)
    ensures forall x :: x in r <==> x in blk.merged
  {
    ElemSet(blk.merged)
  }

  /**
   * One source station merged into `acc`: every element whose ID is `from`, in
   * index order. The target itself (index `to`) is read as it has become.
   */
  function MergeRow<T>(acc: T, v: seq<T>, to: nat, from: string,
                       idOf: T -> Option<string>, combine: (T, T) -> T): T
  {
    if v == [] then acc
    else
      var n := |v| - 1;
      var a := MergeRow(acc, v[..n], to, from, idOf, combine);
      var cur := if n == to then a else v[n];
      if idOf(cur) == Some(from) then combine(a, cur) else a
  }

  /** The target after every source station of the list, in declaration order. */
  function MergeAllFrom<T>(v: seq<T>, to: nat, froms: seq<string>,
                           idOf: T -> Option<string>, combine: (T, T) -> T): T
    requires to < |v|
  {
    if froms == [] then v[to]
    else
      var n := |froms| - 1;
      MergeRow(MergeAllFrom(v, to, froms[..n], idOf, combine), v, to, Upper(froms[n]), idOf, combine)
  }

  /** The inner loop over all elements for one source station. */
  method MergeOneSource<T>(v: seq<T>, to: nat, from: string,
                           idOf: T -> Option<string>, combine: (T, T) -> T) returns (v': seq<T>)
    requires to < |v|
    ensures v' == v[to := MergeRow(v[to], v, to, from, idOf, combine)]
  {
    v' := v;
    var ii := 0;
    while ii < |v|
      invariant ii <= |v|
      invariant v' == v[to := MergeRow(v[to], v[..ii], to, from, idOf, combine)]
    {
      assert v[..ii + 1][..ii] == v[..ii];
      if idOf(v'[ii]) == Some(from) {
        v' := v'[to := combine(v'[to], v'[ii])];
      }
      ii := ii + 1;
    }
    assert v[..ii] == v;
  }

  /**
   * editTimeSeries of MERGE on either kind of element: without the target
   * nothing changes; otherwise only the target changes, and it becomes every
   * listed station merged into it in order.
   */
  method MergeListed<T>(v: seq<T>, target: string, merged: seq<string>,
                        idOf: T -> Option<string>, combine: (T, T) -> T) returns (v': seq<T>)
    ensures FirstWithId(v, target, idOf).None? ==> v' == v
    ensures FirstWithId(v, target, idOf).Some? ==>
      v' == v[FirstWithId(v, target, idOf).value := MergeAllFrom(v, FirstWithId(v, target, idOf).value, merged, idOf, combine)]
  {
    var found := FindStation(v, target, idOf);
    if found.None? {
      return v;
    }
    var to := found.value;
    v' := v;
    var jj := 0;
    while jj < |merged|
      invariant jj <= |merged|
      invariant v' == v[to := MergeAllFrom(v, to, merged[..jj], idOf, combine)]
    {
      assert merged[..jj + 1][..jj] == merged[..jj];
      ghost var before := v';
      v' := MergeOneSource(v', to, Upper(merged[jj]), idOf, combine);
      MergeRowOthers(before, v, to, Upper(merged[jj]), idOf, combine);
      jj := jj + 1;
    }
    assert merged[..jj] == merged;
  }

  /** MergeRow only reads the target from `acc`, so the target's own old value does not matter. */
  lemma {:induction false} MergeRowOthers<T>(w: seq<T>, v: seq<T>, to: nat, from: string,
                                             idOf: T -> Option<string>, combine: (T, T) -> T)
    requires |w| == |v| && to < |v| && forall i :: 0 <= i < |v| && i != to ==> w[i] == v[i]
    ensures MergeRow(w[to], w, to, from, idOf, combine) == MergeRow(w[to], v, to, from, idOf, combine)
  {
    MergeRowPrefix(w, v, |v|, w[to], to, from, idOf, combine);
    assert w[..|v|] == w && v[..|v|] == v;
  }

  lemma {:induction false} MergeRowPrefix<T>(w: seq<T>, v: seq<T>, n: nat, acc: T, to: nat, from: string,
                                             idOf: T -> Option<string>, combine: (T, T) -> T)
    requires |w| == |v| && n <= |v| && forall i :: 0 <= i < |v| && i != to ==> w[i] == v[i]
    ensures MergeRow(acc, w[..n], to, from, idOf, combine) == MergeRow(acc, v[..n], to, from, idOf, combine)
  {
    if n > 0 {
      MergeRowPrefix(w, v, n - 1, acc, to, from, idOf, combine);
      assert w[..n][..n - 1] == w[..n - 1] && v[..n][..n - 1] == v[..n - 1];
    }
  }

  /** A series prepared for merging: filtered to the periods when there are restrictions, and KEEP applied when PARAMS was given. */
  function MergePrepared(blk: MergeBlock, s: seq<Record>): (r: seq<Record>)
    ensures !blk.base.restricted && blk.params == {} ==> r == s
  {
    var t := if blk.base.restricted then Slices(s, blk.base.periodsOf(DatesOf(s))) else s;
    if blk.params == {} then t else ApplyRange(t, Period(0, |t|), Keep(blk.params))
  }

  /** EditingMerge::editTimeSeries on the series; empty series never match. */
  method MergeTimeSeries(blk: MergeBlock, vv: seq<seq<Record>>,
                         mergeSeries: (seq<Record>, seq<Record>) -> seq<Record>) returns (out: seq<seq<Record>>)
    ensures FirstWithId(vv, blk.base.stationId, SeriesId).None? ==> out == vv
    ensures FirstWithId(vv, blk.base.stationId, SeriesId).Some? ==>
      var to := FirstWithId(vv, blk.base.stationId, SeriesId).value;
      out == vv[to := MergeAllFrom(vv, to, blk.merged, SeriesId, (a, s) => mergeSeries(a, MergePrepared(blk, s)))]
  {
    out := MergeListed(vv, blk.base.stationId, blk.merged, SeriesId, (a, s) => mergeSeries(a, MergePrepared(blk, s)));
  }

  /** EditingMerge::editTimeSeries on the station metadata. */
  method MergeStations(blk: MergeBlock, stations: seq<StationMeta>,
                       mergeStation: (StationMeta, StationMeta) -> StationMeta) returns (out: seq<StationMeta>)
    ensures FirstWithId(stations, blk.base.stationId, StationId).None? ==> out == stations
    ensures FirstWithId(stations, blk.base.stationId, StationId).Some? ==>
      var to := FirstWithId(stations, blk.base.stationId, StationId).value;
      out == stations[to := MergeAllFrom(stations, to, blk.merged, StationId, mergeStation)]
  {
    out := MergeListed(stations, blk.base.stationId, blk.merged, StationId, mergeStation);
  }

  /** A station that is not on the list is never merged in: with no matching element the target is unchanged. */
  lemma {:induction false} MergeRowNoMatch<T>(acc: T, v: seq<T>, to: nat, from: string,
                                              idOf: T -> Option<string>, combine: (T, T) -> T)
    requires idOf(acc) != Some(from)
    requires forall i :: 0 <= i < |v| && i != to ==> idOf(v[i]) != Some(from)
    ensures MergeRow(acc, v, to, from, idOf, combine) == acc
  {
    if v != [] {
      var n := |v| - 1;
      MergeRowNoMatch(acc, v[..n], to, from, idOf, combine);
    }
  }

  // ---------------------------------------------------------------- AUTOMERGE

  /** An AUTOMERGE block; the strategy defaults to FULL_MERGE when absent. */
  datatype AutoMergeBlock = AutoMergeBlock(base: Block, strategy: Option<string>, conflicts: Option<string>)

  /** parse_args of AUTOMERGE: the last MERGE_STRATEGY and MERGE_CONFLICTS given, if any. */
  method ParseAutoMerge(base: Block, args: Args) returns (blk: AutoMergeBlock)
    ensures blk == AutoMergeBlock(base, LastValue(args, "MERGE_STRATEGY"), LastValue(args, "MERGE_CONFLICTS"))
  {
    var strategy := ScanArg(args, "MERGE_STRATEGY");
    var conflicts := ScanArg(args, "MERGE_CONFLICTS");
    blk := AutoMergeBlock(base, strategy, conflicts);
  }

  /** Merging into an element that has an ID keeps that ID. */
  ghost predicate KeepsId<T(!new)>(idOf: T -> Option<string>, combine: (T, T) -> T)
  {
    forall a, b :: idOf(a).Some? ==> idOf(combine(a, b)) == idOf(a)
  }

  /** std::swap of element `k` with the back, then pop_back: the multiset loses exactly element `k`. */
  lemma SwapPop<T>(t: seq<T>, k: nat)
    requires k < |t|
    ensures multiset(t[k := t[|t| - 1]][..|t| - 1]) == multiset(t) - multiset{t[k]}
  {
    var n := |t| - 1;
    if k == n {
      assert t[k := t[n]] == t;
      assert t == t[..n] + [t[n]];
    } else {
      var u := t[k := t[n]][..n];
      assert u == t[..k] + [t[n]] + t[k + 1..n];
      assert t == t[..k] + [t[k]] + t[k + 1..n] + [t[n]];
    }
  }

  /** The same on the part of the vector from the current index on: its front is swapped with the back and popped. */
  function SwapPopFront<T>(t: seq<T>): (r: seq<T>)
    requires t != []
    ensures |r| == |t| - 1
  {
    t[0 := t[|t| - 1]][..|t| - 1]
  }

  /** Swapping the front with the back and popping loses exactly the front. */
  lemma SwapPopFrontLoses<T>(t: seq<T>)
    requires t != []
    ensures multiset(SwapPopFront(t)) + multiset{t[0]} == multiset(t)
  {
    var n := |t| - 1;
    if n > 0 {
      assert SwapPopFront(t) == [t[n]] + t[1..n];
      assert t == [t[0]] + t[1..n] + [t[n]];
    }
  }

  /**
   * The elements with ID `id` that the loop of mergeStations meets when it
   * scans `t` from the front, in the order it meets them: a match is taken,
   * the back moves into its place and is examined next.
   */
  function Met<T>(t: seq<T>, id: string, idOf: T -> Option<string>): seq<T>
    decreases |t|
  {
    if t == [] then []
    else if idOf(t[0]) == Some(id) then [t[0]] + Met(SwapPopFront(t), id, idOf)
    else Met(t[1..], id, idOf)
  }

  /** What the same scan leaves of `t`: the elements with another ID, in the order they end up. */
  function Rest<T>(t: seq<T>, id: string, idOf: T -> Option<string>): (r: seq<T>)
    ensures |r| <= |t|
    decreases |t|
  {
    if t == [] then []
    else if idOf(t[0]) == Some(id) then Rest(SwapPopFront(t), id, idOf)
    else [t[0]] + Rest(t[1..], id, idOf)
  }

  /** The target after absorbing `ds` one by one, in order. */
  function Absorb<T>(acc: T, ds: seq<T>, combine: (T, T) -> T): T
    decreases |ds|
  {
    if ds == [] then acc else Absorb(combine(acc, ds[0]), ds[1..], combine)
  }

  /**
   * The vector after mergeStations / mergeMeteo at `to`: the elements before
   * the target are untouched, the target has absorbed the elements of its ID
   * that the loop met, and the other elements follow it.
   */
  function MergedAt<T>(v: seq<T>, to: nat, id: string, idOf: T -> Option<string>, combine: (T, T) -> T): (r: seq<T>)
    requires to < |v|
    ensures to < |r| <= |v|
  {
    v[..to] + [Absorb(v[to], Met(v[to + 1..], id, idOf), combine)] + Rest(v[to + 1..], id, idOf)
  }

  /** The scan splits `t`: what it meets and what it leaves are, together, exactly the elements of `t`. */
  lemma {:induction false} MetRestSplit<T>(t: seq<T>, id: string, idOf: T -> Option<string>)
    ensures multiset(Met(t, id, idOf)) + multiset(Rest(t, id, idOf)) == multiset(t)
    decreases |t|
  {
    if t != [] {
      var u := if idOf(t[0]) == Some(id) then SwapPopFront(t) else t[1..];
      MetRestSplit(u, id, idOf);
      if idOf(t[0]) == Some(id) {
        SwapPopFrontLoses(t);
        assert multiset(Met(t, id, idOf)) == multiset{t[0]} + multiset(Met(u, id, idOf));
      } else {
        assert multiset(t) == multiset{t[0]} + multiset(u) by { assert t == [t[0]] + u; }
        assert multiset(Rest(t, id, idOf)) == multiset{t[0]} + multiset(Rest(u, id, idOf));
      }
    }
  }

  /** Every element the scan meets has the ID. */
  lemma {:induction false} MetOfId<T>(t: seq<T>, id: string, idOf: T -> Option<string>)
    ensures forall x :: x in Met(t, id, idOf) ==> idOf(x) == Some(id)
    decreases |t|
  {
    if t != [] {
      if idOf(t[0]) == Some(id) {
        MetOfId(SwapPopFront(t), id, idOf);
      } else {
        MetOfId(t[1..], id, idOf);
      }
    }
  }

  /** No element of the ID is left by the scan. */
  lemma {:induction false} RestNoId<T>(t: seq<T>, id: string, idOf: T -> Option<string>)
    ensures forall j :: 0 <= j < |Rest(t, id, idOf)| ==> idOf(Rest(t, id, idOf)[j]) != Some(id)
    decreases |t|
  {
    if t != [] {
      if idOf(t[0]) == Some(id) {
        RestNoId(SwapPopFront(t), id, idOf);
      } else {
        var u := t[1..];
        RestNoId(u, id, idOf);
        forall j | 0 <= j < |Rest(t, id, idOf)| ensures idOf(Rest(t, id, idOf)[j]) != Some(id) {
          if j > 0 { assert Rest(t, id, idOf)[j] == Rest(u, id, idOf)[j - 1]; }
        }
      }
    }
  }

  /** Absorbing into an element that has an ID keeps that ID. */
  lemma {:induction false} AbsorbKeepsId<T(!new)>(acc: T, ds: seq<T>, idOf: T -> Option<string>, combine: (T, T) -> T)
    requires KeepsId(idOf, combine) && idOf(acc).Some?
    ensures idOf(Absorb(acc, ds, combine)) == idOf(acc)
    decreases |ds|
  {
    if ds != [] {
      AbsorbKeepsId(combine(acc, ds[0]), ds[1..], idOf, combine);
    }
  }

  /**
   * mergeStations at `to`: the elements before the target are untouched; the
   * target absorbs the later elements of its ID, each once; the other later
   * elements are kept, each once; none of the ID is left after the target.
   */
  lemma MergedAtMeaning<T>(v: seq<T>, to: nat, id: string, idOf: T -> Option<string>, combine: (T, T) -> T)
    requires to < |v|
    ensures MergedAt(v, to, id, idOf, combine)[..to] == v[..to]
    ensures MergedAt(v, to, id, idOf, combine)[to] == Absorb(v[to], Met(v[to + 1..], id, idOf), combine)
    ensures multiset(Met(v[to + 1..], id, idOf)) + multiset(MergedAt(v, to, id, idOf, combine)[to + 1..]) == multiset(v[to + 1..])
    ensures forall x :: x in Met(v[to + 1..], id, idOf) ==> idOf(x) == Some(id)
    ensures forall j :: to < j < |MergedAt(v, to, id, idOf, combine)| ==> idOf(MergedAt(v, to, id, idOf, combine)[j]) != Some(id)
  {
    var r := MergedAt(v, to, id, idOf, combine);
    var rest := Rest(v[to + 1..], id, idOf);
    MetRestSplit(v[to + 1..], id, idOf);
    MetOfId(v[to + 1..], id, idOf);
    RestNoId(v[to + 1..], id, idOf);
    assert r[to + 1..] == rest;
    forall j | to < j < |r| ensures idOf(r[j]) != Some(id) {
      assert r[j] == rest[j - to - 1];
    }
  }

  /** One merge step at index `jj`: merged into the target, then swapped with the back and popped. */
  method SwapPopInto<T>(v: seq<T>, to: nat, jj: nat, combine: (T, T) -> T) returns (v': seq<T>)
    requires to < jj < |v|
    ensures |v'| == |v| - 1
    ensures v'[..jj] == v[..jj][to := combine(v[to], v[jj])]
    ensures v'[jj..] == SwapPopFront(v[jj..])
  {
    var merged := v[to := combine(v[to], v[jj])];
    var last := |merged| - 1;
    var swapped := merged[jj := merged[last]][last := merged[jj]];
    v' := swapped[..last];
  }

  /**
   * What the loop of mergeStations, at index `jj` on the vector `w`, will leave:
   * the target absorbs what the scan of `w[jj..]` meets, and the elements already
   * passed stay ahead of what the scan leaves.
   */
  function Pending<T>(w: seq<T>, to: nat, jj: nat, id: string, idOf: T -> Option<string>, combine: (T, T) -> T): seq<T>
    requires to < jj <= |w|
  {
    w[..to] + [Absorb(w[to], Met(w[jj..], id, idOf), combine)] + w[to + 1..jj] + Rest(w[jj..], id, idOf)
  }

  /** An element of another ID is passed. */
  lemma PendingSkip<T>(w: seq<T>, to: nat, jj: nat, id: string, idOf: T -> Option<string>, combine: (T, T) -> T)
    requires to < jj < |w| && idOf(w[jj]) != Some(id)
    ensures Pending(w, to, jj, id, idOf, combine) == Pending(w, to, jj + 1, id, idOf, combine)
  {
    var t := w[jj..];
    assert t[1..] == w[jj + 1..];
    assert Rest(t, id, idOf) == [t[0]] + Rest(w[jj + 1..], id, idOf);
    assert w[to + 1..jj + 1] == w[to + 1..jj] + [t[0]];
  }

  /** An element of the ID is merged into the target, swapped with the back and popped. */
  lemma PendingTake<T>(w: seq<T>, w': seq<T>, to: nat, jj: nat, id: string, idOf: T -> Option<string>, combine: (T, T) -> T)
    requires to < jj < |w| && idOf(w[jj]) == Some(id) && |w'| == |w| - 1
    requires w'[..jj] == w[..jj][to := combine(w[to], w[jj])]
    requires w'[jj..] == SwapPopFront(w[jj..])
    ensures Pending(w, to, jj, id, idOf, combine) == Pending(w', to, jj, id, idOf, combine)
  {
    var t := w[jj..];
    assert w'[..to] == w'[..jj][..to] == w[..to];
    assert w'[to] == w'[..jj][to] == combine(w[to], w[jj]);
    assert w'[to + 1..jj] == w'[..jj][to + 1..] == w[to + 1..jj];
    var m := Met(SwapPopFront(t), id, idOf);
    assert Met(t, id, idOf) == [t[0]] + m;
    assert ([t[0]] + m)[1..] == m;
  }

  /**
   * mergeStations / mergeMeteo: each later element sharing the target's ID is
   * merged into the target, swapped with the back and popped, and the same
   * index is examined again.
   */
  method MergeInto<T>(to: nat, v: seq<T>, id: string,
                      idOf: T -> Option<string>, combine: (T, T) -> T) returns (v': seq<T>)
    requires to < |v| && idOf(v[to]) == Some(id)
    ensures v' == MergedAt(v, to, id, idOf, combine)
  {
    v' := v;
    var jj := to + 1;
    while jj < |v'|
      invariant to < jj <= |v'|
      invariant Pending(v', to, jj, id, idOf, combine) == MergedAt(v, to, id, idOf, combine)
      decreases |v'| - jj
    {
      if idOf(v'[jj]) == Some(id) {
        ghost var before := v';
        v' := SwapPopInto(v', to, jj, combine);
        PendingTake(before, v', to, jj, id, idOf, combine);
      } else {
        PendingSkip(v', to, jj, id, idOf, combine);
        jj := jj + 1;
      }
    }
    assert v'[jj..] == [];
    assert v'[..to] + [v'[to]] + v'[to + 1..] == v';
  }

  /** The IDs present in a vector. */
  function IdsOf<T>(v: seq<T>, idOf: T -> Option<string>): set<Option<string>>
  {
    set i | 0 <= i < |v| :: idOf(v[i])
  }

  /** Replacing `b` by `a` and `t` by `rest`, where only elements of the ID leave, keeps every element of another ID. */
  lemma KeepsOthers<T>(pre: seq<T>, a: T, b: T, t: seq<T>, met: seq<T>, rest: seq<T>, id: string, idOf: T -> Option<string>)
    requires multiset(met) + multiset(rest) == multiset(t)
    requires forall x :: x in met ==> idOf(x) == Some(id)
    requires idOf(a) == Some(id) && idOf(b) == Some(id)
    ensures forall x :: idOf(x) != Some(id) ==> multiset(pre + [a] + rest)[x] == multiset(pre + [b] + t)[x]
  {
    forall x | idOf(x) != Some(id) ensures multiset(pre + [a] + rest)[x] == multiset(pre + [b] + t)[x] {
      assert x != a && x != b && x !in met;
    }
  }

  /** A merge at `to` with the target's own ID keeps every element of another ID as often as before. */
  lemma MergedAtKeeps<T>(v: seq<T>, to: nat, id: string, idOf: T -> Option<string>, combine: (T, T) -> T)
    requires to < |v| && idOf(v[to]) == Some(id)
    requires idOf(Absorb(v[to], Met(v[to + 1..], id, idOf), combine)) == Some(id)
    ensures forall x :: idOf(x) != Some(id) ==> multiset(MergedAt(v, to, id, idOf, combine))[x] == multiset(v)[x]
  {
    assert v == v[..to] + [v[to]] + v[to + 1..];
    var met := Met(v[to + 1..], id, idOf);
    MetRestSplit(v[to + 1..], id, idOf);
    MetOfId(v[to + 1..], id, idOf);
    KeepsOthers(v[..to], Absorb(v[to], met, combine), v[to], v[to + 1..], met, Rest(v[to + 1..], id, idOf), id, idOf);
  }

  /** A merge at `to` with the target's own ID and an ID-keeping merge loses no ID. */
  lemma MergedAtIds<T(!new)>(v: seq<T>, to: nat, id: string, idOf: T -> Option<string>, combine: (T, T) -> T)
    requires to < |v| && idOf(v[to]) == Some(id) && KeepsId(idOf, combine)
    ensures IdsOf(MergedAt(v, to, id, idOf, combine), idOf) == IdsOf(v, idOf)
  {
    var r := MergedAt(v, to, id, idOf, combine);
    AbsorbKeepsId(v[to], Met(v[to + 1..], id, idOf), idOf, combine);
    MergedAtKeeps(v, to, id, idOf, combine);
    MergedAtMeaning(v, to, id, idOf, combine);
    forall o | o in IdsOf(r, idOf) ensures o in IdsOf(v, idOf) {
      var i :| 0 <= i < |r| && idOf(r[i]) == o;
      if o != Some(id) {
        assert multiset(v)[r[i]] > 0 by { assert r[i] in r; }
        var k :| 0 <= k < |v| && v[k] == r[i];
      }
    }
    forall o | o in IdsOf(v, idOf) ensures o in IdsOf(r, idOf) {
      var i :| 0 <= i < |v| && idOf(v[i]) == o;
      if o != Some(id) {
        assert multiset(r)[v[i]] > 0 by { assert v[i] in v; }
        var k :| 0 <= k < |r| && r[k] == v[i];
      }
    }
  }

  /**
   * The vector after the `*` loop from index `ii` on: each element that is
   * not skipped and has an ID runs mergeStations at its index, in turn.
   */
  function AutoMerged<T>(v: seq<T>, ii: nat, idOf: T -> Option<string>, skipId: Option<string> -> bool,
                         combine: (T, T) -> T): seq<T>
    decreases |v| - ii
  {
    if ii >= |v| then v
    else
      var id := idOf(v[ii]);
      if skipId(id) || id.None? then AutoMerged(v, ii + 1, idOf, skipId, combine)
      else AutoMerged(MergedAt(v, ii, id.value, idOf, combine), ii + 1, idOf, skipId, combine)
  }

  /**
   * The invariant of the `*` loop at index `ii` on `w`, started from `v`: no
   * element before `ii` that is not skipped shares its ID with a later one,
   * the skipped elements and those without an ID are all kept, and every ID
   * of `v` is still present.
   */
  ghost predicate AutoInv<T(!new)>(v: seq<T>, w: seq<T>, ii: nat, idOf: T -> Option<string>, skipId: Option<string> -> bool)
  {
    (forall i, j :: 0 <= i < ii && i < j < |w| && !skipId(idOf(w[i])) && idOf(w[i]).Some? ==> idOf(w[j]) != idOf(w[i])) &&
    (forall x :: idOf(x).None? || skipId(idOf(x)) ==> multiset(w)[x] == multiset(v)[x]) &&
    IdsOf(w, idOf) == IdsOf(v, idOf)
  }

  /** One iteration of the `*` loop keeps its invariant. */
  lemma AutoInvStep<T(!new)>(v: seq<T>, w: seq<T>, ii: nat, idOf: T -> Option<string>, skipId: Option<string> -> bool,
                             combine: (T, T) -> T)
    requires ii < |w| && KeepsId(idOf, combine) && AutoInv(v, w, ii, idOf, skipId)
    ensures !skipId(idOf(w[ii])) && idOf(w[ii]).Some? ==>
      AutoInv(v, MergedAt(w, ii, idOf(w[ii]).value, idOf, combine), ii + 1, idOf, skipId)
    ensures skipId(idOf(w[ii])) || idOf(w[ii]).None? ==> AutoInv(v, w, ii + 1, idOf, skipId)
  {
    var id := idOf(w[ii]);
    if !skipId(id) && id.Some? {
      var after := MergedAt(w, ii, id.value, idOf, combine);
      AutoMergeStep(w, ii, id.value, idOf, skipId, combine);
      AbsorbKeepsId(w[ii], Met(w[ii + 1..], id.value, idOf), idOf, combine);
      MergedAtKeeps(w, ii, id.value, idOf, combine);
      MergedAtIds(w, ii, id.value, idOf, combine);
      forall x | idOf(x).None? || skipId(idOf(x)) ensures multiset(after)[x] == multiset(v)[x] {
        assert idOf(x) != id;
      }
    }
  }

  /**
   * editTimeSeries of AUTOMERGE for the `*` station: every element not
   * skipped is merged with the later ones sharing its ID. Afterwards no
   * element not skipped shares its ID with a later one, every ID is still
   * present, and the skipped elements are all kept.
   */
  method AutoMergeAll<T(!new)>(v: seq<T>, idOf: T -> Option<string>, skipId: Option<string> -> bool,
                         combine: (T, T) -> T) returns (v': seq<T>)
    requires KeepsId(idOf, combine)
    ensures v' == AutoMerged(v, 0, idOf, skipId, combine)
    ensures |v'| <= |v|
    ensures forall i, j :: 0 <= i < j < |v'| && !skipId(idOf(v'[i])) && idOf(v'[i]).Some? ==> idOf(v'[j]) != idOf(v'[i])
    ensures forall x :: idOf(x).None? || skipId(idOf(x)) ==> multiset(v')[x] == multiset(v)[x]
    ensures IdsOf(v', idOf) == IdsOf(v, idOf)
  {
    v' := v;
    var ii := 0;
    while ii < |v'|
      invariant ii <= |v'| <= |v|
      invariant AutoMerged(v', ii, idOf, skipId, combine) == AutoMerged(v, 0, idOf, skipId, combine)
      invariant AutoInv(v, v', ii, idOf, skipId)
    {
      var id := idOf(v'[ii]);
      AutoInvStep(v, v', ii, idOf, skipId, combine);
      if !skipId(id) && id.Some? {
        v' := MergeInto(ii, v', id.value, idOf, combine);
      }
      ii := ii + 1;
    }
  }

  /** The `*` loop's invariant survives one mergeStations call at index `ii`. */
  lemma AutoMergeStep<T(!new)>(before: seq<T>, ii: nat, id: string,
                               idOf: T -> Option<string>, skipId: Option<string> -> bool, combine: (T, T) -> T)
    requires ii < |before| && idOf(before[ii]) == Some(id) && KeepsId(idOf, combine)
    requires forall i, j :: 0 <= i < ii && i < j < |before| && !skipId(idOf(before[i])) && idOf(before[i]).Some? ==>
      idOf(before[j]) != idOf(before[i])
    ensures var after := MergedAt(before, ii, id, idOf, combine);
      forall i, j :: 0 <= i < ii + 1 && i < j < |after| && !skipId(idOf(after[i])) && idOf(after[i]).Some? ==>
        idOf(after[j]) != idOf(after[i])
  {
    var after := MergedAt(before, ii, id, idOf, combine);
    MergedAtMeaning(before, ii, id, idOf, combine);
    AbsorbKeepsId(before[ii], Met(before[ii + 1..], id, idOf), idOf, combine);
    forall i, j | 0 <= i < ii + 1 && i < j < |after| && !skipId(idOf(after[i])) && idOf(after[i]).Some?
      ensures idOf(after[j]) != idOf(after[i])
    {
      if i < ii {
        assert after[i] == after[..ii][i] == before[..ii][i] == before[i];
        if j < ii {
          assert after[j] == after[..ii][j] == before[..ii][j] == before[j];
        } else if j == ii {
          assert idOf(before[ii]) != idOf(before[i]);
        } else {
          var x := after[j];
          assert x in after[ii + 1..] by { assert after[ii + 1..][j - ii - 1] == x; }
          assert multiset(before[ii + 1..])[x] >= multiset(after[ii + 1..])[x] > 0;
          var j' :| 0 <= j' < |before[ii + 1..]| && before[ii + 1..][j'] == x;
          assert before[ii + 1 + j'] == x;
        }
      }
    }
  }

  /**
   * editTimeSeries of AUTOMERGE for one station: the first element with the
   * block's ID becomes the target; without one nothing changes.
   */
  method AutoMergeOne<T>(v: seq<T>, target: string, idOf: T -> Option<string>, combine: (T, T) -> T) returns (v': seq<T>)
    ensures FirstWithId(v, target, idOf).None? ==> v' == v
    ensures FirstWithId(v, target, idOf).Some? ==>
      var to := FirstWithId(v, target, idOf).value;
      v' == MergedAt(v, to, target, idOf, combine) &&
      forall j :: 0 <= j < |v'| && j != to ==> idOf(v'[j]) != Some(target)
  {
    var found := FindStation(v, target, idOf);
    if found.None? {
      return v;
    }
    var to := found.value;
    v' := MergeInto(to, v, target, idOf, combine);
    MergedAtMeaning(v, to, target, idOf, combine);
    forall j | 0 <= j < to ensures idOf(v'[j]) != Some(target) {
      assert v'[j] == v'[..to][j] == v[..to][j];
    }
  }

  /** skipStation depends on a series only through its upper-cased ID. */
  function SkipsId(b: Block, id: Option<string>): (skip: bool)
    ensures forall s :: SeriesId(s) == id ==> skip == SkipStation(b, s)
  {
    id.None? ||
    (b.stationId != "*" && b.stationId != id.value) || id.value in b.excluded ||
    (b.kept != {} && id.value !in b.kept)
  }

  /** The skip test of the `*` loop over the series, as a test on IDs. */
  function SkipOf(b: Block): Option<string> -> bool
  {
    id => SkipsId(b, id)
  }

  /** The `*` loop over the station metadata skips nothing. */
  function NoSkip(id: Option<string>): bool
  {
    false
  }

  /** The series merged into the target for AUTOMERGE: the whole series, or only its periods under restrictions. */
  function AutoMergePrepared(b: Block, s: seq<Record>): seq<Record>
  {
    if b.restricted then Slices(s, b.periodsOf(DatesOf(s))) else s
  }

  /** One mergeTimeSeries call of mergeMeteo: the source series prepared, then merged into the target. */
  function AutoCombine(b: Block, mergeSeries: (seq<Record>, seq<Record>) -> seq<Record>): (seq<Record>, seq<Record>) -> seq<Record>
  {
    (a: seq<Record>, s: seq<Record>) => mergeSeries(a, AutoMergePrepared(b, s))
  }

  /**
   * EditingAutoMerge::editTimeSeries on the series. mergeTimeSeries is taken
   * to keep the station of the series it merges into.
   */
  method AutoMergeTimeSeries(blk: AutoMergeBlock, vv: seq<seq<Record>>,
                             mergeSeries: (seq<Record>, seq<Record>) -> seq<Record>) returns (out: seq<seq<Record>>)
    requires forall a, b :: a != [] ==> SeriesId(mergeSeries(a, b)) == SeriesId(a)
    ensures |out| <= |vv|
    ensures blk.base.stationId == "*" ==>
      out == AutoMerged(vv, 0, SeriesId, SkipOf(blk.base), AutoCombine(blk.base, mergeSeries)) &&
      IdsOf(out, SeriesId) == IdsOf(vv, SeriesId) &&
      forall i, j :: 0 <= i < j < |out| && !SkipStation(blk.base, out[i]) ==> SeriesId(out[j]) != SeriesId(out[i])
    ensures blk.base.stationId != "*" && FirstWithId(vv, blk.base.stationId, SeriesId).None? ==> out == vv
    ensures blk.base.stationId != "*" && FirstWithId(vv, blk.base.stationId, SeriesId).Some? ==>
      var to := FirstWithId(vv, blk.base.stationId, SeriesId).value;
      out == MergedAt(vv, to, blk.base.stationId, SeriesId, AutoCombine(blk.base, mergeSeries)) &&
      forall j :: 0 <= j < |out| && j != to ==> SeriesId(out[j]) != Some(blk.base.stationId)
  {
    var combine := AutoCombine(blk.base, mergeSeries);
    forall a, b | SeriesId(a).Some? ensures SeriesId(combine(a, b)) == SeriesId(a) {
      assert combine(a, b) == mergeSeries(a, AutoMergePrepared(blk.base, b));
    }
    assert KeepsId(SeriesId, combine);
    if blk.base.stationId == "*" {
      out := AutoMergeAll(vv, SeriesId, SkipOf(blk.base), combine);
    } else {
      out := AutoMergeOne(vv, blk.base.stationId, SeriesId, combine);
    }
  }

  /**
   * EditingAutoMerge::editTimeSeries on the station metadata; StationData::merge
   * is taken to keep the ID of the station merged into.
   */
  method AutoMergeStations(blk: AutoMergeBlock, stations: seq<StationMeta>,
                           mergeStation: (StationMeta, StationMeta) -> StationMeta) returns (out: seq<StationMeta>)
    requires forall a, b :: Upper(mergeStation(a, b).stationId) == Upper(a.stationId)
    ensures |out| <= |stations|
    ensures blk.base.stationId == "*" ==>
      out == AutoMerged(stations, 0, StationId, NoSkip, mergeStation) &&
      IdsOf(out, StationId) == IdsOf(stations, StationId) &&
      forall i, j :: 0 <= i < j < |out| ==> Upper(out[j].stationId) != Upper(out[i].stationId)
    ensures blk.base.stationId != "*" && FirstWithId(stations, blk.base.stationId, StationId).None? ==> out == stations
    ensures blk.base.stationId != "*" && FirstWithId(stations, blk.base.stationId, StationId).Some? ==>
      var to := FirstWithId(stations, blk.base.stationId, StationId).value;
      out == MergedAt(stations, to, blk.base.stationId, StationId, mergeStation) &&
      forall j :: 0 <= j < |out| && j != to ==> Upper(out[j].stationId) != blk.base.stationId
  {
    forall a, b | StationId(a).Some? ensures StationId(mergeStation(a, b)) == StationId(a) {
      assert Upper(mergeStation(a, b).stationId) == Upper(a.stationId);
    }
    assert KeepsId(StationId, mergeStation);
    if blk.base.stationId == "*" {
      out := AutoMergeAll(stations, StationId, NoSkip, mergeStation);
      forall i, j | 0 <= i < j < |out| ensures Upper(out[j].stationId) != Upper(out[i].stationId) {
        assert StationId(out[j]) != StationId(out[i]);
      }
    } else {
      out := AutoMergeOne(stations, blk.base.stationId, StationId, mergeStation);
      if FirstWithId(stations, blk.base.stationId, StationId).Some? {
        var to := FirstWithId(stations, blk.base.stationId, StationId).value;
        forall j | 0 <= j < |out| && j != to ensures Upper(out[j].stationId) != blk.base.stationId {
          assert StationId(out[j]) != Some(blk.base.stationId);
        }
      }
    }
  }
}
