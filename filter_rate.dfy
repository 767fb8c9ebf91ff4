/**
 * The RATE filter (meteoFilters/FilterRate.cc): a point is rejected when the
 * rate of change towards the last kept point (LEFT), towards the next valid
 * point (RIGHT) or a combination of both lies outside [min, max].
 * The rate itself, a floating-point quotient of value and Julian-date
 * differences, is a parameter `rate(curr, prev)` of the model.
 */
module FilterRate {
  import opened Common

  datatype RateMethod = Left | Right | LeftAndRight | LeftOrRight

  datatype Params = Params(minRate: real, maxRate: real, mode: RateMethod)

  /** One timestep of the filtered parameter: its Julian date and its value. */
  datatype Sample = Sample(julian: real, value: real)

  datatype Arg = Arg(key: string, value: string)

  /** findNextPoint: the first index at or after `start` that holds a value. */
  function FindNextPoint(v: seq<Sample>, start: nat): (r: Option<nat>)
    decreases |v| - start
    ensures r.Some? ==> start <= r.value < |v| && v[r.value].value != Nodata
    ensures r.Some? ==> forall j :: start <= j < r.value ==> v[j].value == Nodata
    ensures r.None? ==> forall j :: start <= j < |v| ==> v[j].value == Nodata
  {
    if start >= |v| then None
    else if v[start].value != Nodata then Some(start)
    else FindNextPoint(v, start + 1)
  }

  /** getRate: nodata when the current value is missing, else the rate towards `cmp`. */
  function GetRate(v: seq<Sample>, idx: nat, cmp: nat, rate: (Sample, Sample) -> real): (r: real)
    requires idx < |v| && cmp < |v|
    ensures v[idx].value == Nodata ==> r == Nodata
    ensures v[idx].value != Nodata ==> r == rate(v[idx], v[cmp])
  {
    if v[idx].value == Nodata then Nodata else rate(v[idx], v[cmp])
  }

  predicate OutOfBounds(r: real, p: Params) { r > p.maxRate || r < p.minRate }

  /** filterOut: should the point `idx` be rejected? */
  function FilterOut(v: seq<Sample>, idx: nat, lastGood: nat, nextGood: Option<nat>,
                     p: Params, rate: (Sample, Sample) -> real): (r: bool)
    requires idx < |v| && lastGood < |v|
    requires nextGood.Some? ==> nextGood.value < |v|
    ensures v[idx].value == Nodata ==> !r
    ensures v[idx].value != Nodata && p.mode == Left ==>
      (r <==> rate(v[idx], v[lastGood]) != Nodata && OutOfBounds(rate(v[idx], v[lastGood]), p))
    ensures p.mode == Right && nextGood.None? ==> !r
    ensures v[idx].value != Nodata && p.mode == Right && nextGood.Some? ==>
      (r <==> rate(v[idx], v[nextGood.value]) != Nodata && OutOfBounds(rate(v[idx], v[nextGood.value]), p))
    ensures v[idx].value != Nodata && (p.mode == LeftAndRight || p.mode == LeftOrRight) && nextGood.None? ==>
      (r <==> rate(v[idx], v[lastGood]) != Nodata && OutOfBounds(rate(v[idx], v[lastGood]), p))
    ensures v[idx].value != Nodata && p.mode == LeftAndRight && nextGood.Some? ==>
      (r <==> rate(v[idx], v[lastGood]) != Nodata && OutOfBounds(rate(v[idx], v[lastGood]), p)
               && OutOfBounds(rate(v[idx], v[nextGood.value]), p))
    ensures v[idx].value != Nodata && p.mode == LeftOrRight && nextGood.Some? ==>
      (r <==> rate(v[idx], v[lastGood]) != Nodata && (OutOfBounds(rate(v[idx], v[lastGood]), p)
               || OutOfBounds(rate(v[idx], v[nextGood.value]), p)))
  {
    if v[idx].value == Nodata then false
    else if p.mode == Left then
      var left := GetRate(v, idx, lastGood, rate);
      left != Nodata && OutOfBounds(left, p)
    else if p.mode == Right then
      if nextGood.None? then false
      else
        var right := GetRate(v, idx, nextGood.value, rate);
        right != Nodata && OutOfBounds(right, p)
    else
      var left := GetRate(v, idx, lastGood, rate);
      if left == Nodata then false
      else
        var filterLeft := OutOfBounds(left, p);
        if nextGood.None? then filterLeft
        else
          var filterRight := OutOfBounds(GetRate(v, idx, nextGood.value, rate), p);
          if p.mode == LeftAndRight then filterLeft && filterRight else filterLeft || filterRight
  }

  /** The last index before `n` that holds a value. */
  function LastValidBefore(s: seq<Sample>, n: nat): (r: Option<nat>)
    requires n <= |s|
    ensures r.Some? ==> r.value < n && s[r.value].value != Nodata
    ensures r.Some? ==> forall j :: r.value < j < n ==> s[j].value == Nodata
    ensures r.None? ==> forall j :: 0 <= j < n ==> s[j].value == Nodata
  {
    if n == 0 then None
    else if s[n - 1].value != Nodata then Some(n - 1)
    else LastValidBefore(s, n - 1)
  }

  lemma LastValidAgrees(a: seq<Sample>, b: seq<Sample>, n: nat)
    requires n <= |a| && n <= |b|
    requires forall j :: 0 <= j < n ==> a[j] == b[j]
    ensures LastValidBefore(a, n) == LastValidBefore(b, n)
  {
    if n > 0 {
      LastValidAgrees(a, b, n - 1);
    }
  }

  /** Point `i` of the result is rejected: it holds a value, a kept point precedes it and the test fails. */
  predicate Rejected(v: seq<Sample>, o: seq<Sample>, i: nat, p: Params, rate: (Sample, Sample) -> real)
    requires i < |v| == |o|
  {
    v[i].value != Nodata && LastValidBefore(o, i).Some?
    && FilterOut(v, i, LastValidBefore(o, i).value, FindNextPoint(v, i + 1), p, rate)
  }

  /**
   * process: a copy of the input in which every rejected point is set to nodata.
   * The left neighbour of a point is the last point kept so far, the right one
   * the next point holding a value in the input.
   */
  method Process(v: seq<Sample>, p: Params, rate: (Sample, Sample) -> real) returns (o: seq<Sample>)
    ensures |o| == |v|
    ensures forall i :: 0 <= i < |v| ==> o[i] == v[i] || o[i] == v[i].(value := Nodata)
    ensures FindNextPoint(v, 0).None? ==> o == v
    ensures forall i :: 0 <= i < |v| && (forall j :: 0 <= j < i ==> v[j].value == Nodata) ==> o[i] == v[i]
    ensures forall i :: 0 <= i < |v| ==> (o[i] == v[i] <==> !Rejected(v, o, i, p, rate))
  {
    o := v;
    var nextGood: Option<nat> := None;
    var first := FindNextPoint(o, 0);
    if first.None? {
      NothingRejected(v, p, rate);
      return;
    }
    ScanStart(v, first.value, p, rate);
    var lastGood;
    o, lastGood, nextGood := ScanFrom(v, first.value, p, rate);
    ScanDone(v, o, first.value, lastGood, nextGood, p, rate);
  }

  /** The loop of `process`, from the point after the first valid one to the end. */
  method ScanFrom(v: seq<Sample>, first: nat, p: Params, rate: (Sample, Sample) -> real)
    returns (o: seq<Sample>, lastGood: nat, nextGood: Option<nat>)
    requires Scanned(v, v, first + 1, first, None, p, rate)
    ensures Scanned(v, o, |v|, lastGood, nextGood, p, rate)
    ensures forall i :: 0 <= i <= first ==> o[i] == v[i]
  {
    o, lastGood, nextGood := v, first, None;
    var ii := first + 1;
    while ii < |o|
      invariant first < ii <= |o| == |v|
      invariant Scanned(v, o, ii, lastGood, nextGood, p, rate)
      invariant forall i :: 0 <= i <= first ==> o[i] == v[i]
    {
      o, lastGood, nextGood := Visit(v, o, ii, lastGood, nextGood, p, rate);
      ii := ii + 1;
    }
  }

  /** Without any valid point nothing is rejected. */
  lemma NothingRejected(v: seq<Sample>, p: Params, rate: (Sample, Sample) -> real)
    requires FindNextPoint(v, 0).None?
    ensures forall i :: 0 <= i < |v| ==> !Rejected(v, v, i, p, rate)
  {
  }

  /** The scan state once the first valid point has been passed: nothing before it is rejected. */
  lemma ScanStart(v: seq<Sample>, first: nat, p: Params, rate: (Sample, Sample) -> real)
    requires FindNextPoint(v, 0) == Some(first)
    ensures Scanned(v, v, first + 1, first, None, p, rate)
  {
    assert LastValidBefore(v, first + 1) == Some(first);
    forall i | 0 <= i <= first ensures !Rejected(v, v, i, p, rate) {
      assert LastValidBefore(v, i).None?;
    }
  }

  /** The finished scan gives the contract of `process`. */
  lemma ScanDone(v: seq<Sample>, o: seq<Sample>, first: nat, lastGood: nat, nextGood: Option<nat>,
                 p: Params, rate: (Sample, Sample) -> real)
    requires FindNextPoint(v, 0) == Some(first)
    requires Scanned(v, o, |v|, lastGood, nextGood, p, rate)
    requires forall i :: 0 <= i <= first ==> o[i] == v[i]
    ensures |o| == |v|
    ensures forall i :: 0 <= i < |v| ==> o[i] == v[i] || o[i] == v[i].(value := Nodata)
    ensures forall i :: 0 <= i < |v| && (forall j :: 0 <= j < i ==> v[j].value == Nodata) ==> o[i] == v[i]
    ensures forall i :: 0 <= i < |v| ==> (o[i] == v[i] <==> !Rejected(v, o, i, p, rate))
  {
    forall i | 0 <= i < |v| && (forall j :: 0 <= j < i ==> v[j].value == Nodata)
      ensures o[i] == v[i]
    {
      if i > first {
        assert false;
      }
    }
  }

  /** The state of the scan of `process` once every point before `ii` has been visited. */
  predicate Scanned(v: seq<Sample>, o: seq<Sample>, ii: nat, lastGood: nat, nextGood: Option<nat>,
                    p: Params, rate: (Sample, Sample) -> real)
  {
    ii <= |o| == |v|
    && lastGood < ii && LastValidBefore(o, ii) == Some(lastGood)
    && (forall i :: ii <= i < |v| ==> o[i] == v[i])
    && (forall i :: 0 <= i < ii ==> o[i] == v[i] || o[i] == v[i].(value := Nodata))
    && Decided(v, o, ii, p, rate)
    && o[lastGood] == v[lastGood]
    && (nextGood.Some? ==> nextGood.value < |v|)
    && (p.mode == Left ==> nextGood.None?)
    && (nextGood.Some? ==> forall j :: ii <= j < nextGood.value ==> v[j].value == Nodata)
  }

  /** One iteration of the loop of `process`: decide point `ii`. */
  method Visit(v: seq<Sample>, o: seq<Sample>, ii: nat, lastGood: nat, nextGood: Option<nat>,
               p: Params, rate: (Sample, Sample) -> real)
    returns (o': seq<Sample>, lastGood': nat, nextGood': Option<nat>)
    requires ii < |o| && Scanned(v, o, ii, lastGood, nextGood, p, rate)
    ensures Scanned(v, o', ii + 1, lastGood', nextGood', p, rate)
    ensures forall i :: 0 <= i < ii ==> o'[i] == o[i]
    ensures o'[ii] == v[ii] || o'[ii] == v[ii].(value := Nodata)
  {
    o', lastGood', nextGood' := o, lastGood, nextGood;
    if o[ii].value == Nodata {
      DecidedStep(v, o, o, ii, p, rate);
      return;
    }
    assert o[ii] == v[ii] && v[ii].value != Nodata;
    assert nextGood.Some? ==> nextGood.value <= ii;
    if p.mode != Left && (nextGood.None? || nextGood.value <= ii) {
      nextGood' := FindNextPoint(o, ii + 1);
    }
    NextPointAgrees(o, v, ii + 1);
    assert p.mode != Left ==> nextGood' == FindNextPoint(v, ii + 1);
    assert nextGood'.Some? ==> ii < nextGood'.value && o[nextGood'.value] == v[nextGood'.value];
    var filterPoint := FilterOut(o, ii, lastGood, nextGood', p, rate);
    FilterOutAgrees(o, v, ii, lastGood, nextGood', FindNextPoint(v, ii + 1), p, rate);
    if filterPoint {
      o' := o[ii := o[ii].(value := Nodata)];
    } else {
      lastGood' := ii;
    }
    LastValidAgrees(o', o, ii);
    assert o'[ii] == v[ii] <==> !Rejected(v, o', ii, p, rate);
    DecidedStep(v, o, o', ii, p, rate);
  }

  /** FilterOut only looks at the point, its left and its right neighbour. */
  lemma FilterOutAgrees(o: seq<Sample>, v: seq<Sample>, idx: nat, lastGood: nat, nextGood: Option<nat>,
                        expected: Option<nat>, p: Params, rate: (Sample, Sample) -> real)
    requires |o| == |v| && idx < |v| && lastGood < |v|
    requires nextGood.Some? ==> nextGood.value < |v|
    requires expected.Some? ==> expected.value < |v|
    requires o[idx] == v[idx] && o[lastGood] == v[lastGood]
    requires nextGood.Some? ==> o[nextGood.value] == v[nextGood.value]
    requires p.mode != Left ==> nextGood == expected
    ensures FilterOut(o, idx, lastGood, nextGood, p, rate) == FilterOut(v, idx, lastGood, expected, p, rate)
  {
  }

  /** Every point before `n` is kept exactly when it is not rejected. */
  predicate Decided(v: seq<Sample>, o: seq<Sample>, n: nat, p: Params, rate: (Sample, Sample) -> real)
    requires n <= |v| == |o|
  {
    forall i {:trigger Rejected(v, o, i, p, rate)} :: 0 <= i < n ==> (o[i] == v[i] <==> !Rejected(v, o, i, p, rate))
  }

  /** Deciding point `ii` keeps the decisions taken before it, which depend only on the result before `ii`. */
  lemma DecidedStep(v: seq<Sample>, before: seq<Sample>, o: seq<Sample>, ii: nat, p: Params, rate: (Sample, Sample) -> real)
    requires |v| == |before| == |o| && ii < |v|
    requires forall j :: 0 <= j < ii ==> o[j] == before[j]
    requires Decided(v, before, ii, p, rate)
    requires o[ii] == v[ii] <==> !Rejected(v, o, ii, p, rate)
    ensures Decided(v, o, ii + 1, p, rate)
  {
    forall i | 0 <= i < ii ensures o[i] == v[i] <==> !Rejected(v, o, i, p, rate) {
      LastValidAgrees(o, before, i);
      assert before[i] == v[i] <==> !Rejected(v, before, i, p, rate);
    }
  }

  /** The search for the next valid point sees the same values in the working copy as in the input. */
  lemma NextPointAgrees(o: seq<Sample>, v: seq<Sample>, start: nat)
    requires |o| == |v| && start <= |v|
    requires forall i :: start <= i < |v| ==> o[i] == v[i]
    ensures FindNextPoint(o, start) == FindNextPoint(v, start)
    decreases |v| - start
  {
    if start < |v| {
      NextPointAgrees(o, v, start + 1);
    }
  }

  /** The outcome of parse_args before the defaults are filled in. */
  predicate IsMethodName(s: string)
  {
    Upper(s) in {"LEFT", "RIGHT", "LEFT_AND_RIGHT", "LEFT_OR_RIGHT"}
  }

  function MethodOf(s: string): (m: RateMethod)
    requires IsMethodName(s)
    ensures Upper(s) == "LEFT" <==> m == Left
    ensures Upper(s) == "RIGHT" <==> m == Right
    ensures Upper(s) == "LEFT_AND_RIGHT" <==> m == LeftAndRight
  {
    var u := Upper(s);
    if u == "LEFT" then Left else if u == "RIGHT" then Right
    else if u == "LEFT_AND_RIGHT" then LeftAndRight else LeftOrRight
  }

  /** The value of the last argument with the given key, if any. */
  function LastArg(args: seq<Arg>, key: string): (r: Option<string>)
    ensures r.Some? ==> Arg(key, r.value) in args
  {
    if args == [] then None
    else if args[|args| - 1].key == key then Some(args[|args| - 1].value)
    else LastArg(args[..|args| - 1], key)
  }

  /** LastArg finds a value exactly when the key occurs, and then it is the value of its last occurrence. */
  lemma {:induction false} LastArgIsLast(args: seq<Arg>, key: string)
    ensures LastArg(args, key).None? <==> forall i :: 0 <= i < |args| ==> args[i].key != key
    ensures LastArg(args, key).Some? ==> exists i :: (0 <= i < |args| && args[i].key == key
      && args[i].value == LastArg(args, key).value && forall j :: i < j < |args| ==> args[j].key != key)
    decreases |args|
  {
    if args == [] {
    } else if args[|args| - 1].key == key {
      var i := |args| - 1;
      assert args[i].key == key && args[i].value == LastArg(args, key).value;
    } else {
      var init := args[..|args| - 1];
      assert LastArg(args, key) == LastArg(init, key);
      assert forall j :: 0 <= j < |init| ==> args[j] == init[j];
      LastArgIsLast(init, key);
      if LastArg(init, key).Some? {
        var i :| 0 <= i < |init| && init[i].key == key
          && init[i].value == LastArg(init, key).value && forall j :: i < j < |init| ==> init[j].key != key;
        assert args[i] == init[i];
        assert forall j :: i < j < |args| ==> args[j].key != key;
        assert args[i].key == key && args[i].value == LastArg(args, key).value;
      }
    }
  }

  /** Every argument parse_args inspects is readable: numbers convert, methods are known. */
  predicate ArgsReadable(args: seq<Arg>, toReal: string -> Option<real>)
  {
    forall a :: a in args ==>
      (a.key == "MIN" || a.key == "MAX" ==> toReal(a.value).Some?) &&
      (a.key == "METHOD" ==> IsMethodName(a.value))
  }

  /**
   * parse_args: MAX is mandatory, MIN defaults to -MAX and may not exceed MAX,
   * METHOD defaults to LEFT; the last occurrence of a key wins.
   */
  method ParseArgs(args: seq<Arg>, toReal: string -> Option<real>) returns (r: Result<Params>)
    ensures r.Err? ==> r.kind == InvalidArgument
    ensures r.Ok? <==> ArgsReadable(args, toReal) && LastArg(args, "MAX").Some?
                       && (LastArg(args, "MIN").Some? ==>
                           toReal(LastArg(args, "MIN").value).value <= toReal(LastArg(args, "MAX").value).value)
    ensures r.Ok? ==> r.value.maxRate == toReal(LastArg(args, "MAX").value).value
    ensures r.Ok? ==> (r.value.minRate ==
      if LastArg(args, "MIN").Some? then toReal(LastArg(args, "MIN").value).value else -r.value.maxRate)
    ensures r.Ok? ==> (r.value.mode ==
      if LastArg(args, "METHOD").Some? then MethodOf(LastArg(args, "METHOD").value) else Left)
  {
    var minRate, maxRate, mode := 0.0, 0.0, Left;
    var hasMin, hasMax := false, false;
    KeysDistinct();
    var k := 0;
    while k < |args|
      invariant k <= |args|
      invariant ArgsReadable(args[..k], toReal)
      invariant hasMin <==> LastArg(args[..k], "MIN").Some?
      invariant hasMax <==> LastArg(args[..k], "MAX").Some?
      invariant hasMin ==> minRate == toReal(LastArg(args[..k], "MIN").value).value
      invariant hasMax ==> maxRate == toReal(LastArg(args[..k], "MAX").value).value
      invariant mode == (if LastArg(args[..k], "METHOD").Some? then MethodOf(LastArg(args[..k], "METHOD").value) else Left)
    {
      var arg := args[k];
      ArgStep(args, k, toReal);
      LastArgStep(args, k, "MIN");
      LastArgStep(args, k, "MAX");
      LastArgStep(args, k, "METHOD");
      if arg.key == "MIN" {
        var x := toReal(arg.value);
        if x.None? { return Err(InvalidArgument); }
        minRate, hasMin := x.value, true;
      } else if arg.key == "MAX" {
        var x := toReal(arg.value);
        if x.None? { return Err(InvalidArgument); }
        maxRate, hasMax := x.value, true;
      } else if arg.key == "METHOD" {
        var m := ParseMethod(arg.value);
        if m.Err? { return Err(InvalidArgument); }
        mode := m.value;
      }
      k := k + 1;
    }
    assert args[..k] == args;
    if !hasMax { return Err(InvalidArgument); }
    if hasMin && minRate > maxRate { return Err(InvalidArgument); }
    if !hasMin { minRate := -maxRate; }
    r := Ok(Params(minRate, maxRate, mode));
  }

  /** The METHOD argument: one of the four names, in any case. */
  method ParseMethod(s: string) returns (r: Result<RateMethod>)
    ensures r.Ok? <==> IsMethodName(s)
    ensures r.Ok? ==> r.value == MethodOf(s)
  {
    var typeStr := Upper(s);
    if typeStr == "LEFT" { return Ok(Left); }
    else if typeStr == "RIGHT" { return Ok(Right); }
    else if typeStr == "LEFT_AND_RIGHT" { return Ok(LeftAndRight); }
    else if typeStr == "LEFT_OR_RIGHT" { return Ok(LeftOrRight); }
    else { return Err(InvalidArgument); }
  }

  /** Reading argument `k` extends what is known about the first `k` arguments. */
  lemma ArgStep(args: seq<Arg>, k: nat, toReal: string -> Option<real>)
    requires k < |args|
    ensures ArgsReadable(args[..k + 1], toReal) <==> (ArgsReadable(args[..k], toReal)
      && (args[k].key == "MIN" || args[k].key == "MAX" ==> toReal(args[k].value).Some?)
      && (args[k].key == "METHOD" ==> IsMethodName(args[k].value)))
    ensures !(args[k].key == "MIN" || args[k].key == "MAX" ==> toReal(args[k].value).Some?) ==> !ArgsReadable(args, toReal)
    ensures !(args[k].key == "METHOD" ==> IsMethodName(args[k].value)) ==> !ArgsReadable(args, toReal)
  {
    assert args[..k + 1] == args[..k] + [args[k]];
    assert (args[..k + 1])[..k] == args[..k];
    assert (args[..k + 1])[k] == args[k];
  }

  /** The last `key` among the first `k + 1` arguments is argument `k` or the last one before it. */
  lemma LastArgStep(args: seq<Arg>, k: nat, key: string)
    requires k < |args|
    ensures LastArg(args[..k + 1], key) == if args[k].key == key then Some(args[k].value) else LastArg(args[..k], key)
  {
    assert (args[..k + 1])[..k] == args[..k];
  }

  /** The three keys parse_args looks for are different strings. */
  lemma KeysDistinct()
    ensures "MIN" != "MAX" && "MIN" != "METHOD" && "MAX" != "METHOD"
  {
    assert "MIN"[1] != "MAX"[1];
    assert |"MIN"| != |"METHOD"|;
    assert |"MAX"| != |"METHOD"|;
  }
}
