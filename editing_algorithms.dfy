/**
 * The parameter-editing blocks of DataEditingAlgorithms.cc: SWAP, MOVE,
 * EXCLUDE, KEEP, COPY and the argument checks of CREATE. Each block's
 * parse_args becomes a method returning the block or the
 * InvalidArgumentException it throws; each editTimeSeries a method over all
 * stations' series, proved equal to a function of the original series.
 */
module EditingAlgorithms {
  import opened Common
  import opened Meteo
  import opened Restrictions
  import opened EditingBlock

  // ---------------------------------------------------------------- arguments

  /** The value of the last argument named `key`: repeated keys overwrite earlier ones. */
  function LastValue(args: Args, key: string): Option<string>
  {
    if args == [] then None
    else if args[|args| - 1].0 == key then Some(args[|args| - 1].1)
    else LastValue(args[..|args| - 1], key)
  }

  /** LastValue finds a key exactly when an argument has it, and then it is the last such argument's value. */
  lemma {:induction false} LastValueSpec(args: Args, key: string)
    ensures LastValue(args, key).None? <==> forall i :: 0 <= i < |args| ==> args[i].0 != key
    ensures LastValue(args, key).Some? ==>
      exists i :: 0 <= i < |args| && args[i] == (key, LastValue(args, key).value) &&
                  forall j :: i < j < |args| ==> args[j].0 != key
  {
    if args != [] {
      var n := |args| - 1;
      LastValueSpec(args[..n], key);
      if args[n].0 != key {
        forall i | 0 <= i < n ensures args[..n][i] == args[i] { }
        if LastValue(args, key).Some? {
          var i :| 0 <= i < n && args[..n][i] == (key, LastValue(args, key).value) &&
                   forall j :: i < j < n ==> args[..n][j].0 != key;
          assert args[i] == (key, LastValue(args, key).value);
        }
      }
    }
  }

  /** The parse_args loop for one key: each matching argument overwrites the value read so far. */
  method ScanArg(args: Args, key: string) returns (r: Option<string>)
    ensures r == LastValue(args, key)
  {
    r := None;
    var ii := 0;
    while ii < |args|
      invariant ii <= |args|
      invariant r == LastValue(args[..ii], key)
    {
      assert args[..ii + 1][..ii] == args[..ii];
      if args[ii].0 == key {
        r := Some(args[ii].1);
      }
      ii := ii + 1;
    }
    assert args[..ii] == args;
  }

  /** The words of a value read with readLineToSet or readLineToVec after upper-casing it. */
  function UpperList(v: Option<string>): (ws: seq<string>)
  {
    if v.None? then [] else Words(Upper(v.value))
  }

  function ElemSet(ws: seq<string>): (r: set<string>)
    ensures forall x :: x in r <==> x in ws
  {
    set w | w in ws
  }

  // ---------------------------------------------------------------- SWAP and COPY

  /** A SWAP or COPY block: an upper-cased source and a destination taken as written. */
  datatype PairBlock = PairBlock(base: Block, src: string, dest: string)

  /**
   * parse_args of SWAP and COPY: DEST and SRC are both required (a missing
   * one is an InvalidArgumentException); the last occurrence of each wins and
   * only SRC is upper-cased.
   */
  method ParseSrcDest(base: Block, args: Args) returns (r: Result<PairBlock>)
    ensures r.Ok? <==> LastValue(args, "DEST").Some? && LastValue(args, "SRC").Some?
    ensures r.Err? ==> r.kind == InvalidArgument
    ensures r.Ok? ==> r.value == PairBlock(base, Upper(LastValue(args, "SRC").value), LastValue(args, "DEST").value)
  {
    var dest := ScanArg(args, "DEST");
    var src := ScanArg(args, "SRC");
    if dest.None? {
      return Err(InvalidArgument);
    }
    if src.None? {
      return Err(InvalidArgument);
    }
    return Ok(PairBlock(base, Upper(src.value), dest.value));
  }

  /** EditingSwap::editTimeSeries: at each timestep of the periods, src and dest exchange values. */
  method SwapTimeSeries(blk: PairBlock, vv: seq<seq<Record>>) returns (out: seq<seq<Record>>)
    requires PeriodsFit(blk.base)
    ensures out == EditedAll(blk.base, Swap(blk.src, blk.dest), vv)
  {
    out := EditStations(blk.base, Swap(blk.src, blk.dest), vv);
  }

  /** EditingCopy::editTimeSeries: at each timestep of the periods, dest is added and takes src's value where there is one. */
  method CopyTimeSeries(blk: PairBlock, vv: seq<seq<Record>>) returns (out: seq<seq<Record>>)
    requires PeriodsFit(blk.base)
    ensures out == EditedAll(blk.base, Copy(blk.src, blk.dest), vv)
  {
    out := EditStations(blk.base, Copy(blk.src, blk.dest), vv);
  }

  /** On a timestep in exactly one period of an edited station, SWAP exchanges the two values. */
  lemma SwapExchanges(blk: PairBlock, vv: seq<seq<Record>>, st: nat, k: nat, j: nat)
    requires PeriodsFit(blk.base) && st < |vv| && !SkipStation(blk.base, vv[st]) && j < |vv[st]|
    requires OnlyIn(PeriodsOn(blk.base, vv[st]), k, j)
    ensures Value(EditedAll(blk.base, Swap(blk.src, blk.dest), vv)[st][j], blk.dest) == Value(vv[st][j], blk.src)
    ensures Value(EditedAll(blk.base, Swap(blk.src, blk.dest), vv)[st][j], blk.src) == Value(vv[st][j], blk.dest)
  {
    EditedAllDisjoint(blk.base, Swap(blk.src, blk.dest), vv, st, k, j);
  }

  // ---------------------------------------------------------------- MOVE

  /** A MOVE block: the upper-cased sources, held in a std::set and so visited in sorted order. */
  datatype MoveBlock = MoveBlock(base: Block, srcs: seq<string>, dest: string)

  /**
   * parse_args of MOVE: DEST is required, and SRC must be given and name at
   * least one parameter; the last SRC argument's words are the sources.
   */
  method ParseMove(base: Block, args: Args) returns (r: Result<MoveBlock>)
    ensures r.Ok? <==> LastValue(args, "DEST").Some? && UpperList(LastValue(args, "SRC")) != []
    ensures r.Err? ==> r.kind == InvalidArgument
    ensures r.Ok? ==> r.value.base == base && r.value.dest == LastValue(args, "DEST").value
    ensures r.Ok? ==> SortedSet(r.value.srcs) && ElemSet(r.value.srcs) == ElemSet(UpperList(LastValue(args, "SRC")))
  {
    var dest := ScanArg(args, "DEST");
    var src := ScanArg(args, "SRC");
    if dest.None? {
      return Err(InvalidArgument);
    }
    var srcs := ToSet(UpperList(src));
    assert UpperList(src) != [] ==> UpperList(src)[0] in srcs;
    if src.None? || srcs == [] {
      return Err(InvalidArgument);
    }
    assert srcs[0] in UpperList(src);
    return Ok(MoveBlock(base, srcs, dest.value));
  }

  /**
   * One station after MOVE: each source in turn, when the front record has it,
   * is moved into dest over the periods of the series as it then is.
   */
  function MovedSeries(b: Block, srcs: seq<string>, dest: string, s: seq<Record>): (r: seq<Record>)
    requires PeriodsFit(b)
    ensures |r| == |s|
  {
    if srcs == [] then s
    else
      var cur := MovedSeries(b, srcs[..|srcs| - 1], dest, s);
      var src := srcs[|srcs| - 1];
      if cur != [] && src in cur[0].params then ApplyPeriods(cur, PeriodsOn(b, cur), Move(src, dest)) else cur
  }

  /** The loop over the sources for one station. */
  method MoveStation(b: Block, srcs: seq<string>, dest: string, s: seq<Record>) returns (s': seq<Record>)
    requires PeriodsFit(b) && s != []
    ensures s' == MovedSeries(b, srcs, dest, s)
  {
    s' := s;
    var ii := 0;
    while ii < |srcs|
      invariant ii <= |srcs|
      invariant s' == MovedSeries(b, srcs[..ii], dest, s)
    {
      assert srcs[..ii + 1][..ii] == srcs[..ii];
      var src := srcs[ii];
      if src in s'[0].params {
        s' := EditSeries(Move(src, dest), s', PeriodsOn(b, s'));
      }
      ii := ii + 1;
    }
    assert srcs[..ii] == srcs;
  }

  /** EditingMove::editTimeSeries over all stations. */
  method MoveTimeSeries(blk: MoveBlock, vv: seq<seq<Record>>) returns (out: seq<seq<Record>>)
    requires PeriodsFit(blk.base)
    ensures |out| == |vv|
    ensures forall st :: 0 <= st < |vv| ==>
      out[st] == if SkipStation(blk.base, vv[st]) then vv[st] else MovedSeries(blk.base, blk.srcs, blk.dest, vv[st])
  {
    out := vv;
    var station := 0;
    while station < |vv|
      invariant station <= |vv| && |out| == |vv|
      invariant forall st :: 0 <= st < station ==>
        out[st] == if SkipStation(blk.base, vv[st]) then vv[st] else MovedSeries(blk.base, blk.srcs, blk.dest, vv[st])
      invariant forall st :: station <= st < |vv| ==> out[st] == vv[st]
    {
      if !SkipStation(blk.base, vv[station]) {
        var moved := MoveStation(blk.base, blk.srcs, blk.dest, vv[station]);
        out := out[station := moved];
      }
      station := station + 1;
    }
  }

  /** A record whose dest already holds data is left alone by a MOVE over any periods. */
  lemma {:induction false} MovePeriodsKeepsData(s: seq<Record>, ps: seq<Period>, src: string, dest: string, j: nat)
    requires j < |s| && Value(s[j], dest) != Nodata
    ensures ApplyPeriods(s, ps, Move(src, dest))[j] == s[j]
  {
    if ps != [] {
      MovePeriodsKeepsData(s, ps[..|ps| - 1], src, dest, j);
    }
  }

  /** MOVE keeps pre-existing dest values: a record that had dest data is unchanged after all sources. */
  lemma {:induction false} MoveKeepsExisting(b: Block, srcs: seq<string>, dest: string, s: seq<Record>, j: nat)
    requires PeriodsFit(b) && j < |s| && Value(s[j], dest) != Nodata
    ensures MovedSeries(b, srcs, dest, s)[j] == s[j]
  {
    if srcs != [] {
      var cur := MovedSeries(b, srcs[..|srcs| - 1], dest, s);
      MoveKeepsExisting(b, srcs[..|srcs| - 1], dest, s, j);
      MovePeriodsKeepsData(cur, PeriodsOn(b, cur), srcs[|srcs| - 1], dest, j);
    }
  }

  /** MOVE never changes a timestamp. */
  lemma {:induction false} MoveKeepsDates(b: Block, srcs: seq<string>, dest: string, s: seq<Record>)
    requires PeriodsFit(b)
    ensures DatesOf(MovedSeries(b, srcs, dest, s)) == DatesOf(s)
  {
    if srcs != [] {
      var cur := MovedSeries(b, srcs[..|srcs| - 1], dest, s);
      MoveKeepsDates(b, srcs[..|srcs| - 1], dest, s);
      ApplyPeriodsKeepsDates(cur, PeriodsOn(b, cur), Move(srcs[|srcs| - 1], dest));
    }
  }

  // ---------------------------------------------------------------- EXCLUDE and KEEP

  /** An EXCLUDE or KEEP block; `wildcard` is the lone `*` parameter of EXCLUDE. */
  datatype ParamsBlock = ParamsBlock(base: Block, params: set<string>, wildcard: bool)

  /**
   * parse_args of EXCLUDE and KEEP: PARAMS must be given and name at least
   * one parameter. EXCLUDE turns to its wildcard form when the set is exactly
   * the single name `*`.
   */
  method ParseParams(base: Block, args: Args) returns (r: Result<ParamsBlock>)
    ensures r.Ok? <==> UpperList(LastValue(args, "PARAMS")) != []
    ensures r.Err? ==> r.kind == InvalidArgument
    ensures r.Ok? ==> r.value.base == base && r.value.params == ElemSet(UpperList(LastValue(args, "PARAMS")))
    ensures r.Ok? ==> (r.value.wildcard <==> r.value.params == {"*"})
  {
    var v := ScanArg(args, "PARAMS");
    var params := ElemSet(UpperList(v));
    assert UpperList(v) != [] ==> UpperList(v)[0] in params;
    if v.None? || |params| == 0 {
      return Err(InvalidArgument);
    }
    assert UpperList(v)[0] in params;
    var wildcard := false;
    if |params| == 1 {
      var first :| first in params;
      assert |params - {first}| == 0;
      assert params == {first};
      wildcard := first == "*";
    } else {
      assert params != {"*"};
    }
    return Ok(ParamsBlock(base, params, wildcard));
  }

  /** `std::remove_if` on IsUndef followed by erase: the records with a defined date, in order. */
  function RemoveUndef(s: seq<Record>): (r: seq<Record>)
    ensures |r| <= |s|
    ensures forall i :: 0 <= i < |r| ==> r[i].date.Some?
  {
    if s == [] then []
    else if s[|s| - 1].date.None? then RemoveUndef(s[..|s| - 1])
    else RemoveUndef(s[..|s| - 1]) + [s[|s| - 1]]
  }

  /** The erasure keeps exactly the records with a defined date. */
  lemma {:induction false} RemoveUndefMembers(s: seq<Record>, x: Record)
    ensures x in RemoveUndef(s) <==> x in s && x.date.Some?
  {
    if s != [] {
      var n := |s| - 1;
      RemoveUndefMembers(s[..n], x);
      assert s == s[..n] + [s[n]];
    }
  }

  /** One station after EXCLUDE. */
  function ExcludedSeries(blk: ParamsBlock, s: seq<Record>): (r: seq<Record>)
    requires PeriodsFit(blk.base)
  {
    var e := if blk.wildcard then Undefine else Exclude(blk.params);
    var edited := ApplyPeriods(s, PeriodsOn(blk.base, s), e);
    if blk.wildcard then RemoveUndef(edited) else edited
  }

  /** EditingExclude::editTimeSeries: processStation per period, then the undefined timestamps erased for `*`. */
  method ExcludeTimeSeries(blk: ParamsBlock, vv: seq<seq<Record>>) returns (out: seq<seq<Record>>)
    requires PeriodsFit(blk.base)
    ensures |out| == |vv|
    ensures forall st :: 0 <= st < |vv| ==>
      out[st] == if SkipStation(blk.base, vv[st]) then vv[st] else ExcludedSeries(blk, vv[st])
  {
    out := vv;
    var station := 0;
    while station < |vv|
      invariant station <= |vv| && |out| == |vv|
      invariant forall st :: 0 <= st < station ==>
        out[st] == if SkipStation(blk.base, vv[st]) then vv[st] else ExcludedSeries(blk, vv[st])
      invariant forall st :: station <= st < |vv| ==> out[st] == vv[st]
    {
      if !SkipStation(blk.base, vv[station]) {
        var e := if blk.wildcard then Undefine else Exclude(blk.params);
        var edited := EditSeries(e, vv[station], PeriodsOn(blk.base, vv[station]));
        if blk.wildcard {
          edited := RemoveUndef(edited);
        }
        out := out[station := edited];
      }
      station := station + 1;
    }
  }

  /**
   * The wildcard deletes whole timestamps: what is left are unchanged
   * original records with a defined date, and every such record outside the
   * periods is still there.
   */
  lemma WildcardDeletesTimestamps(blk: ParamsBlock, s: seq<Record>)
    requires PeriodsFit(blk.base) && blk.wildcard
    ensures forall x :: x in ExcludedSeries(blk, s) ==> x in s && x.date.Some?
    ensures forall j :: 0 <= j < |s| && Outside(PeriodsOn(blk.base, s), j) && s[j].date.Some? ==>
      s[j] in ExcludedSeries(blk, s)
  {
    var ps := PeriodsOn(blk.base, s);
    var edited := ApplyPeriods(s, ps, Undefine);
    UndefineOrOriginal(s, ps);
    forall x | x in ExcludedSeries(blk, s) ensures x in s && x.date.Some? {
      RemoveUndefMembers(edited, x);
      var j :| 0 <= j < |edited| && edited[j] == x;
    }
    forall j | 0 <= j < |s| && Outside(ps, j) && s[j].date.Some? ensures s[j] in ExcludedSeries(blk, s) {
      ApplyPeriodsOutside(s, ps, Undefine, j);
      RemoveUndefMembers(edited, s[j]);
    }
  }

  /** Without the wildcard, EXCLUDE keeps every timestamp. */
  lemma ExcludeKeepsTimestamps(blk: ParamsBlock, s: seq<Record>)
    requires PeriodsFit(blk.base) && !blk.wildcard
    ensures DatesOf(ExcludedSeries(blk, s)) == DatesOf(s)
  {
    ApplyPeriodsKeepsDates(s, PeriodsOn(blk.base, s), Exclude(blk.params));
  }

  /** EditingKeep::editTimeSeries: at each timestep of the periods, only the kept parameters keep their values. */
  method KeepTimeSeries(blk: ParamsBlock, vv: seq<seq<Record>>) returns (out: seq<seq<Record>>)
    requires PeriodsFit(blk.base)
    ensures out == EditedAll(blk.base, Keep(blk.params), vv)
  {
    out := EditStations(blk.base, Keep(blk.params), vv);
  }

  /** On a timestep in exactly one period of an edited station, KEEP leaves only the kept values. */
  lemma KeepLeavesKept(blk: ParamsBlock, vv: seq<seq<Record>>, st: nat, k: nat, j: nat, q: string)
    requires PeriodsFit(blk.base) && st < |vv| && !SkipStation(blk.base, vv[st]) && j < |vv[st]|
    requires OnlyIn(PeriodsOn(blk.base, vv[st]), k, j)
    ensures Value(EditedAll(blk.base, Keep(blk.params), vv)[st][j], q) == if q in blk.params then Value(vv[st][j], q) else Nodata
  {
    EditedAllDisjoint(blk.base, Keep(blk.params), vv, st, k, j);
  }

  // ---------------------------------------------------------------- CREATE arguments

  /** cleanGeneratorArgs: the arguments without ALGORITHM and PARAM, in order, for the generator. */
  method CleanGeneratorArgs(args: Args) returns (r: Args)
    ensures r == Cleaned(args)
  {
    r := [];
    var ii := 0;
    while ii < |args|
      invariant ii <= |args|
      invariant r == Cleaned(args[..ii])
    {
      assert args[..ii + 1][..ii] == args[..ii];
      if args[ii].0 != "ALGORITHM" && args[ii].0 != "PARAM" {
        r := r + [args[ii]];
      }
      ii := ii + 1;
    }
    assert args[..ii] == args;
  }

  /** The arguments a CREATE block forwards: every pair not keyed ALGORITHM or PARAM, in order, repeats kept. */
  function Cleaned(args: Args): Args
  {
    if args == [] then []
    else Cleaned(args[..|args| - 1]) +
         (if args[|args| - 1].0 == "ALGORITHM" || args[|args| - 1].0 == "PARAM" then [] else [args[|args| - 1]])
  }

  /** Cleaned drops exactly the ALGORITHM and PARAM pairs and never adds one. */
  lemma {:induction false} CleanedMembers(args: Args)
    ensures forall a :: a in Cleaned(args) <==> a in args && a.0 != "ALGORITHM" && a.0 != "PARAM"
    ensures |Cleaned(args)| <= |args|
  {
    if args != [] {
      CleanedMembers(args[..|args| - 1]);
      assert args == args[..|args| - 1] + [args[|args| - 1]];
    }
  }

  /** Cleaned keeps the relative order: the arguments of a concatenation are the concatenation of the arguments. */
  lemma {:induction false} CleanedAppend(a: Args, b: Args)
    ensures Cleaned(a + b) == Cleaned(a) + Cleaned(b)
    decreases |b|
  {
    if b == [] {
      assert a + b == a;
    } else {
      CleanedAppend(a, b[..|b| - 1]);
      assert (a + b)[..|a + b| - 1] == a + b[..|b| - 1];
    }
  }

  /** parse_args of CREATE: PARAM and ALGORITHM must both be non-empty, PARAM checked first. */
  method ParseCreate(args: Args) returns (r: Result<(string, string)>)
    ensures r.Ok? <==> LastValue(args, "PARAM").Some? && LastValue(args, "PARAM").value != "" &&
                       LastValue(args, "ALGORITHM").Some? && LastValue(args, "ALGORITHM").value != ""
    ensures r.Err? ==> r.kind == InvalidArgument
    ensures r.Ok? ==> r.value == (LastValue(args, "ALGORITHM").value, LastValue(args, "PARAM").value)
  {
    var algorithm := ScanArg(args, "ALGORITHM");
    var param := ScanArg(args, "PARAM");
    if param.None? || param.value == "" {
      return Err(InvalidArgument);
    }
    if algorithm.None? || algorithm.value == "" {
      return Err(InvalidArgument);
    }
    return Ok((algorithm.value, param.value));
  }
}
