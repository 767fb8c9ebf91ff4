/**
 * DataGenerator: for every parameter with configured generators, try the
 * generators in order until one reports success, either on one record per
 * station (fillMissing(METEO_SET)) or on whole time series restricted to the
 * generator's time periods (fillMissing(vector<METEO_SET>)). Records whose
 * value changed are flagged as generated.
 */
module DataGenerator {
  import opened Common
  import opened Meteo
  import opened Restrictions

  /** One entry of a generator stack: the upper-cased algorithm name and the configuration key it came from. */
  datatype Generator = Generator(algo: string, key: string)

  /**
   * What the generator algorithms compute. Their implementations live in the
   * dataGenerators plugins and are not part of this model; a generator only
   * writes the parameter it is asked to fill.
   */
  datatype Behaviour = Behaviour(
    skipStation: (Generator, string) -> bool,
    skipTimeStep: (Generator, Option<int>) -> bool,
    /** generate(param, md): the status it returns and the value it leaves in `param`. */
    generateStatus: (Generator, string, Record) -> bool,
    generateValue: (Generator, string, Record) -> real,
    /** the restriction periods of the generator, as index ranges of the series */
    periods: (Generator, seq<Record>) -> seq<Period>,
    /** create(param, start, end, series): the status and the value left at index kk of [start, end) */
    createStatus: (Generator, string, nat, nat, seq<Record>) -> bool,
    createValue: (Generator, string, nat, nat, seq<Record>, nat) -> real)

  // ---------------------------------------------------------------- getParameters

  /** The position of the first ':' of a key, if any. */
  function ColonOf(k: string): Option<nat>
  {
    FindChar(k, ':', 0)
  }

  /** A key without ':' is ignored; one with ':' needs "::" followed by at least one more character. */
  predicate KeyValid(k: string)
  {
    ColonOf(k).None? || (|k| > ColonOf(k).value + 2 && k[ColonOf(k).value + 1] == ':')
  }

  /** The parameter names found in the keys: the text before the first ':' of each key that has one. */
  function ParamsOf(keys: seq<string>): (r: set<string>)
  {
    if keys == [] then {}
    else
      var k := keys[|keys| - 1];
      ParamsOf(keys[..|keys| - 1]) + (if ColonOf(k).Some? then {k[..ColonOf(k).value]} else {})
  }

  /** getParameters: an InvalidFormat error as soon as one key is malformed, otherwise the set of parameter names. */
  method GetParameters(keys: seq<string>) returns (r: Result<set<string>>)
    ensures r.Ok? <==> forall i :: 0 <= i < |keys| ==> KeyValid(keys[i])
    ensures r.Err? ==> r.kind == InvalidFormat
    ensures r.Ok? ==> r.value == ParamsOf(keys)
  {
    var found: set<string> := {};
    var ii := 0;
    while ii < |keys|
      invariant ii <= |keys|
      invariant forall i :: 0 <= i < ii ==> KeyValid(keys[i])
      invariant found == ParamsOf(keys[..ii])
    {
      assert keys[..ii + 1][..ii] == keys[..ii];
      var pos := FindChar(keys[ii], ':', 0);
      if pos.Some? {
        if |keys[ii]| <= pos.value + 2 {
          return Err(InvalidFormat);
        }
        if keys[ii][pos.value + 1] != ':' {
          return Err(InvalidFormat);
        }
        found := found + {keys[ii][..pos.value]};
      }
      ii := ii + 1;
    }
    assert keys[..ii] == keys;
    return Ok(found);
  }

  /** Each name returned is the colon-free prefix of a key, and each key with a ':' contributes its prefix. */
  lemma {:induction false} ParamsOfMembers(keys: seq<string>, p: string)
    ensures p in ParamsOf(keys) <==>
      exists i :: 0 <= i < |keys| && ColonOf(keys[i]).Some? && keys[i][..ColonOf(keys[i]).value] == p
    ensures p in ParamsOf(keys) ==> ':' !in p
  {
    if keys != [] {
      var front := keys[..|keys| - 1];
      ParamsOfMembers(front, p);
      var k := keys[|keys| - 1];
      if p in ParamsOf(keys) && p !in ParamsOf(front) {
        assert ColonOf(k).Some? && k[..ColonOf(k).value] == p;
        assert forall j :: 0 <= j < |p| ==> p[j] == k[j];
      }
      if exists i :: 0 <= i < |keys| && ColonOf(keys[i]).Some? && keys[i][..ColonOf(keys[i]).value] == p {
        var i :| 0 <= i < |keys| && ColonOf(keys[i]).Some? && keys[i][..ColonOf(keys[i]).value] == p;
        if i < |front| {
          assert front[i] == keys[i];
        }
      }
    }
  }

  // ---------------------------------------------------------------- buildStack

  /** The generators configured for a parameter, as (key, algorithm name) pairs in configuration order, without the NONE entries. */
  function Kept(values: seq<(string, string)>): (r: seq<Generator>)
  {
    if values == [] then []
    else
      var last := values[|values| - 1];
      Kept(values[..|values| - 1]) + (if Upper(last.1) == "NONE" then [] else [Generator(Upper(last.1), last.0)])
  }

  /** buildStack: one generator per configured algorithm, upper-cased, skipping NONE. */
  method BuildStack(values: seq<(string, string)>) returns (stack: seq<Generator>)
    ensures stack == Kept(values)
    ensures forall g :: g in stack ==> g.algo != "NONE"
  {
    stack := [];
    var ii := 0;
    while ii < |values|
      invariant ii <= |values|
      invariant stack == Kept(values[..ii])
    {
      assert values[..ii + 1][..ii] == values[..ii];
      var cmdName := Upper(values[ii].1);
      if cmdName != "NONE" {
        stack := stack + [Generator(cmdName, values[ii].0)];
      }
      ii := ii + 1;
    }
    assert values[..ii] == values;
    KeptHasNoNone(values);
  }

  /** No NONE entry survives, and every other entry does. */
  lemma {:induction false} KeptHasNoNone(values: seq<(string, string)>)
    ensures forall g :: g in Kept(values) ==> g.algo != "NONE"
    ensures forall i :: 0 <= i < |values| && Upper(values[i].1) != "NONE" ==> Generator(Upper(values[i].1), values[i].0) in Kept(values)
  {
    if values != [] {
      var front := values[..|values| - 1];
      KeptHasNoNone(front);
      forall i | 0 <= i < |values| && Upper(values[i].1) != "NONE"
        ensures Generator(Upper(values[i].1), values[i].0) in Kept(values)
      {
        if i < |front| {
          assert front[i] == values[i];
        }
      }
    }
  }

  /** Configuration order is preserved: the stack of a concatenation is the concatenation of the stacks. */
  lemma {:induction false} KeptAppend(a: seq<(string, string)>, b: seq<(string, string)>)
    ensures Kept(a + b) == Kept(a) + Kept(b)
  {
    if b != [] {
      assert (a + b)[..|a + b| - 1] == a + b[..|b| - 1];
      KeptAppend(a, b[..|b| - 1]);
    } else {
      assert a + b == a;
    }
  }

  // ---------------------------------------------------------------- fillMissing(METEO_SET)

  /** A generator that is asked to run: it neither skips the station nor the timestep. */
  predicate Runs(B: Behaviour, g: Generator, statId: string, date: Option<int>)
  {
    !B.skipStation(g, statId) && !B.skipTimeStep(g, date)
  }

  /** One generate call on a record, flagging the parameter when its value now differs from `oldVal`. */
  function Generate(B: Behaviour, g: Generator, p: string, oldVal: real, r: Record): (r': Record)
    ensures Value(r', p) == B.generateValue(g, p, r)
    ensures p in r'.generated <==> p in r.generated || B.generateValue(g, p, r) != oldVal
    ensures r'.params.Keys == r.params.Keys + {p}
    ensures forall q :: q in r.params && q != p ==> r'.params[q] == r.params[q]
    ensures r'.generated <= r.generated + {p}
    ensures r'.date == r.date && r'.meta == r.meta
  {
    var v := B.generateValue(g, p, r);
    var r1 := SetValue(r, p, v);
    if v != oldVal then r1.(generated := r1.generated + {p}) else r1
  }

  /** The generators of `gens` tried in order on one record until one reports success. */
  function TryGenerators(B: Behaviour, gens: seq<Generator>, p: string, statId: string, date: Option<int>,
                         oldVal: real, r: Record): (r': Record)
    ensures r'.params.Keys >= r.params.Keys
    ensures forall q :: q in r.params && q != p ==> r'.params[q] == r.params[q]
    ensures r'.generated <= r.generated + {p}
    ensures r'.date == r.date && r'.meta == r.meta
    decreases |gens|
  {
    if gens == [] then r
    else if Runs(B, gens[0], statId, date) then
      var r1 := Generate(B, gens[0], p, oldVal, r);
      if B.generateStatus(gens[0], p, r) then r1
      else TryGenerators(B, gens[1..], p, statId, date, oldVal, r1)
    else TryGenerators(B, gens[1..], p, statId, date, oldVal, r)
  }

  /** One pass of a parameter's generators over all stations of a timestep. */
  function FillParam(B: Behaviour, p: string, gens: seq<Generator>, vec: seq<Record>): (out: seq<Record>)
    requires |vec| > 0
    ensures |out| == |vec|
    ensures forall s :: 0 <= s < |vec| ==>
      out[s] == TryGenerators(B, gens, p, vec[s].meta.stationId, vec[0].date, Value(vec[s], p), AddParameter(vec[s], p))
  {
    seq(|vec|, s requires 0 <= s < |vec| =>
      TryGenerators(B, gens, p, vec[s].meta.stationId, vec[0].date, Value(vec[s], p), AddParameter(vec[s], p)))
  }

  /** fillMissing(METEO_SET) as a function of the configured generators, taken in key order. */
  function FillAll(B: Behaviour, algos: seq<(string, seq<Generator>)>, vec: seq<Record>): (out: seq<Record>)
    ensures |out| == |vec|
  {
    if algos == [] || vec == [] then vec
    else
      var a := algos[|algos| - 1];
      FillParam(B, a.0, a.1, FillAll(B, algos[..|algos| - 1], vec))
  }

  /**
   * fillMissing(METEO_SET): for each parameter and station, add the parameter if
   * missing, then run the generators until one succeeds.
   */
  method FillMissing(B: Behaviour, algos: seq<(string, seq<Generator>)>, vec: seq<Record>) returns (out: seq<Record>)
    ensures out == FillAll(B, algos, vec)
    ensures algos == [] ==> out == vec
  {
    if algos == [] {
      return vec;
    }
    out := vec;
    var a := 0;
    while a < |algos|
      invariant a <= |algos|
      invariant out == FillAll(B, algos[..a], vec)
    {
      assert algos[..a + 1][..a] == algos[..a];
      var p := algos[a].0;
      var gens := algos[a].1;
      out := FillStations(B, p, gens, out);
      a := a + 1;
    }
    assert algos[..a] == algos;
  }

  /** The loop over the stations of one timestep for one parameter. */
  method FillStations(B: Behaviour, p: string, gens: seq<Generator>, vec: seq<Record>) returns (out: seq<Record>)
    ensures vec == [] ==> out == vec
    ensures vec != [] ==> out == FillParam(B, p, gens, vec)
  {
    out := vec;
    var station := 0;
    while station < |out|
      invariant |out| == |vec| && station <= |out|
      invariant forall s :: 0 <= s < station ==> out[s] == FillParam(B, p, gens, vec)[s]
      invariant forall s :: station <= s < |out| ==> out[s] == vec[s]
      invariant |out| > 0 ==> out[0].date == vec[0].date
    {
      var rec := RunGenerators(B, gens, p, out[station], out[0].date);
      out := out[station := rec];
      station := station + 1;
    }
    if |vec| > 0 {
      assert out == FillParam(B, p, gens, vec);
    }
  }

  /** The generator loop of one station: add the parameter, then try the generators until one succeeds. */
  method RunGenerators(B: Behaviour, gens: seq<Generator>, p: string, r: Record, date: Option<int>) returns (rec: Record)
    ensures rec == TryGenerators(B, gens, p, r.meta.stationId, date, Value(r, p), AddParameter(r, p))
  {
    rec := AddParameter(r, p);
    var statId := rec.meta.stationId;
    var oldVal := Value(rec, p);
    ghost var rec0 := rec;
    var status := false;
    var jj := 0;
    while jj < |gens| && !status
      invariant jj <= |gens|
      invariant TryGenerators(B, gens, p, statId, date, oldVal, rec0) ==
        (if status then rec else TryGenerators(B, gens[jj..], p, statId, date, oldVal, rec))
    {
      assert gens[jj..][1..] == gens[jj + 1..];
      if Runs(B, gens[jj], statId, date) {
        status := B.generateStatus(gens[jj], p, rec);
        rec := Generate(B, gens[jj], p, oldVal, rec);
      }
      jj := jj + 1;
    }
  }

  /** Generators that all skip the station or the timestep are never invoked: the record is left as it is. */
  lemma {:induction false} SkippedNotInvoked(B: Behaviour, gens: seq<Generator>, p: string, statId: string,
                                             date: Option<int>, oldVal: real, r: Record)
    requires forall j :: 0 <= j < |gens| ==> !Runs(B, gens[j], statId, date)
    ensures TryGenerators(B, gens, p, statId, date, oldVal, r) == r
  {
    if gens != [] {
      SkippedNotInvoked(B, gens[1..], p, statId, date, oldVal, r);
    }
  }

  /** The first generator that runs and reports success decides the record; later ones are never called. */
  lemma {:induction false} FirstSuccessWins(B: Behaviour, gens: seq<Generator>, i: nat, p: string, statId: string,
                                            date: Option<int>, oldVal: real, r: Record)
    requires i < |gens|
    requires forall j :: 0 <= j < i ==> !Runs(B, gens[j], statId, date)
    requires Runs(B, gens[i], statId, date) && B.generateStatus(gens[i], p, r)
    ensures TryGenerators(B, gens, p, statId, date, oldVal, r) == Generate(B, gens[i], p, oldVal, r)
  {
    if i > 0 {
      FirstSuccessWins(B, gens[1..], i - 1, p, statId, date, oldVal, r);
    }
  }

  /** A value that ends up different from the original one is flagged as generated. */
  lemma {:induction false} ChangedIsFlagged(B: Behaviour, gens: seq<Generator>, p: string, statId: string,
                                            date: Option<int>, oldVal: real, r: Record)
    requires Value(r, p) == oldVal || p in r.generated
    ensures Value(TryGenerators(B, gens, p, statId, date, oldVal, r), p) != oldVal ==>
      p in TryGenerators(B, gens, p, statId, date, oldVal, r).generated
  {
    if gens != [] && Runs(B, gens[0], statId, date) && !B.generateStatus(gens[0], p, r) {
      ChangedIsFlagged(B, gens[1..], p, statId, date, oldVal, Generate(B, gens[0], p, oldVal, r));
    } else if gens != [] && !Runs(B, gens[0], statId, date) {
      ChangedIsFlagged(B, gens[1..], p, statId, date, oldVal, r);
    }
  }

  /** After a pass for `p` every station carries `p`, and no other parameter's value changed. */
  lemma FillParamAddsParam(B: Behaviour, p: string, gens: seq<Generator>, vec: seq<Record>, s: nat)
    requires 0 < |vec| && s < |vec|
    ensures p in FillParam(B, p, gens, vec)[s].params
    ensures forall q :: q in vec[s].params && q != p ==> FillParam(B, p, gens, vec)[s].params[q] == vec[s].params[q]
  {
  }

  // ---------------------------------------------------------------- fillMissing(vector<METEO_SET>)

  /** create over one period: the values of [start, end) are replaced by the generator's. */
  function CreatePeriod(B: Behaviour, g: Generator, p: string, per: Period, s: seq<Record>): (s': seq<Record>)
    ensures |s'| == |s|
    ensures forall kk :: 0 <= kk < |s| && !(per.start <= kk < per.end) ==> s'[kk] == s[kk]
    ensures forall kk :: 0 <= kk < |s| && per.start <= kk < per.end ==>
      s'[kk] == SetValue(s[kk], p, B.createValue(g, p, per.start, per.end, s, kk))
  {
    seq(|s|, kk requires 0 <= kk < |s| =>
      if per.start <= kk < per.end then SetValue(s[kk], p, B.createValue(g, p, per.start, per.end, s, kk)) else s[kk])
  }

  /** The series after create has run on each period in turn. */
  function Created(B: Behaviour, g: Generator, p: string, ps: seq<Period>, s: seq<Record>): (s': seq<Record>)
    ensures |s'| == |s|
  {
    if ps == [] then s
    else CreatePeriod(B, g, p, ps[|ps| - 1], Created(B, g, p, ps[..|ps| - 1], s))
  }

  /** `status &= create(...)` accumulated over the periods (create runs on every period whatever the status). */
  function CreateStatus(B: Behaviour, g: Generator, p: string, ps: seq<Period>, s: seq<Record>): bool
  {
    if ps == [] then true
    else
      var last := ps[|ps| - 1];
      CreateStatus(B, g, p, ps[..|ps| - 1], s)
        && B.createStatus(g, p, last.start, last.end, Created(B, g, p, ps[..|ps| - 1], s))
  }

  /** Flag exactly the records whose value of `p` differs from the original series. */
  function Flag(orig: seq<Record>, s: seq<Record>, p: string): (s': seq<Record>)
    requires |orig| == |s|
    ensures |s'| == |s|
    ensures forall kk :: 0 <= kk < |s| ==> s'[kk].params == s[kk].params && s'[kk].date == s[kk].date
    ensures forall kk :: 0 <= kk < |s| ==>
      (p in s'[kk].generated <==> p in s[kk].generated || Value(orig[kk], p) != Value(s[kk], p))
    ensures forall kk :: 0 <= kk < |s| ==> s'[kk].generated - {p} == s[kk].generated - {p}
  {
    seq(|s|, kk requires 0 <= kk < |s| =>
      if Value(orig[kk], p) != Value(s[kk], p) then s[kk].(generated := s[kk].generated + {p}) else s[kk])
  }

  /** The generators tried in order on a whole series until one succeeds on all its periods. */
  function TryCreators(B: Behaviour, gens: seq<Generator>, p: string, statId: string,
                       orig: seq<Record>, s: seq<Record>): (s': seq<Record>)
    requires |orig| == |s|
    ensures |s'| == |s|
    decreases |gens|
  {
    if gens == [] then s
    else if !B.skipStation(gens[0], statId) then
      var ps := B.periods(gens[0], s);
      var s1 := Flag(orig, Created(B, gens[0], p, ps, s), p);
      if CreateStatus(B, gens[0], p, ps, s) then s1
      else TryCreators(B, gens[1..], p, statId, orig, s1)
    else TryCreators(B, gens[1..], p, statId, orig, s)
  }

  /** One pass of a parameter's generators over every non-empty station series. */
  function FillSeriesParam(B: Behaviour, p: string, gens: seq<Generator>, vv: seq<seq<Record>>): (out: seq<seq<Record>>)
    ensures |out| == |vv|
  {
    seq(|vv|, st requires 0 <= st < |vv| =>
      if vv[st] == [] then vv[st]
      else
        var s0 := vv[st][0 := AddParameter(vv[st][0], p)];
        TryCreators(B, gens, p, s0[0].meta.stationId, s0, s0))
  }

  function FillAllSeries(B: Behaviour, algos: seq<(string, seq<Generator>)>, vv: seq<seq<Record>>): (out: seq<seq<Record>>)
    ensures |out| == |vv|
  {
    if algos == [] then vv
    else
      var a := algos[|algos| - 1];
      FillSeriesParam(B, a.0, a.1, FillAllSeries(B, algos[..|algos| - 1], vv))
  }

  /** The restriction-period loop of one generator: run create on each period and AND the statuses. */
  method CreateOverPeriods(B: Behaviour, g: Generator, p: string, s: seq<Record>) returns (status: bool, s': seq<Record>)
    ensures s' == Created(B, g, p, B.periods(g, s), s)
    ensures status == CreateStatus(B, g, p, B.periods(g, s), s)
  {
    var ps := B.periods(g, s);
    var cursor := new RestrictionsIdx(ps);
    status := true;
    s' := s;
    var k := 0;
    while cursor.IsValid()
      invariant cursor.Valid() && cursor.Periods() == ps
      invariant k <= |ps| && cursor.Remaining() == ps[k..]
      invariant s' == Created(B, g, p, ps[..k], s)
      invariant status == CreateStatus(B, g, p, ps[..k], s)
      decreases |cursor.Remaining()|
    {
      var start, end := cursor.GetStart(), cursor.GetEnd();
      assert Period(start, end) == ps[k];
      status, s' := CreateOnPeriod(B, g, p, ps, k, s, start, end, status, s');
      RemainingAfter(ps, k);
      cursor.Next();
      k := k + 1;
    }
    assert ps[..k] == ps;
  }

  /** One period of the loop of `CreateOverPeriods`: create runs on [start, end) and its status is ANDed in. */
  method CreateOnPeriod(B: Behaviour, g: Generator, p: string, ps: seq<Period>, k: nat, s: seq<Record>,
                        start: nat, end: nat, status: bool, cur: seq<Record>) returns (status': bool, cur': seq<Record>)
    requires k < |ps| && ps[k] == Period(start, end)
    requires cur == Created(B, g, p, ps[..k], s) && status == CreateStatus(B, g, p, ps[..k], s)
    ensures cur' == Created(B, g, p, ps[..k + 1], s)
    ensures status' == CreateStatus(B, g, p, ps[..k + 1], s)
  {
    CreatedStep(B, g, p, ps, k, s);
    var ok := B.createStatus(g, p, start, end, cur);
    cur' := CreatePeriod(B, g, p, Period(start, end), cur);
    status' := status && ok;
  }

  /** Unfolding the period folds by one period. */
  lemma CreatedStep(B: Behaviour, g: Generator, p: string, ps: seq<Period>, k: nat, s: seq<Record>)
    requires k < |ps|
    ensures Created(B, g, p, ps[..k + 1], s) == CreatePeriod(B, g, p, ps[k], Created(B, g, p, ps[..k], s))
    ensures CreateStatus(B, g, p, ps[..k + 1], s) ==
      (CreateStatus(B, g, p, ps[..k], s) && B.createStatus(g, p, ps[k].start, ps[k].end, Created(B, g, p, ps[..k], s)))
  {
    assert ps[..k + 1][..k] == ps[..k];
  }

  /** fillMissing(vector<METEO_SET>): per parameter and non-empty station, generators run over the restriction periods. */
  method FillMissingSeries(B: Behaviour, algos: seq<(string, seq<Generator>)>, vv: seq<seq<Record>>) returns (out: seq<seq<Record>>)
    ensures out == FillAllSeries(B, algos, vv)
    ensures algos == [] ==> out == vv
  {
    if algos == [] {
      return vv;
    }
    out := vv;
    var a := 0;
    while a < |algos|
      invariant a <= |algos|
      invariant out == FillAllSeries(B, algos[..a], vv)
    {
      assert algos[..a + 1][..a] == algos[..a];
      var p := algos[a].0;
      var gens := algos[a].1;
      ghost var before := out;
      var station := 0;
      while station < |out|
        invariant |out| == |before| && station <= |out|
        invariant forall st :: 0 <= st < station ==> out[st] == FillSeriesParam(B, p, gens, before)[st]
        invariant forall st :: station <= st < |out| ==> out[st] == before[st]
      {
        if out[station] != [] {
          var series := out[station][0 := AddParameter(out[station][0], p)];
          var statId := series[0].meta.stationId;
          var orig := series;
          var status := false;
          var jj := 0;
          while jj < |gens| && !status
            invariant jj <= |gens| && |series| == |orig|
            invariant TryCreators(B, gens, p, statId, orig, orig) ==
              (if status then series else TryCreators(B, gens[jj..], p, statId, orig, series))
          {
            assert gens[jj..][1..] == gens[jj + 1..];
            if !B.skipStation(gens[jj], statId) {
              var created;
              status, created := CreateOverPeriods(B, gens[jj], p, series);
              series := MarkGenerated(orig, created, p);
            }
            jj := jj + 1;
          }
          out := out[station := series];
        }
        station := station + 1;
      }
      assert out == FillSeriesParam(B, p, gens, before);
      a := a + 1;
    }
    assert algos[..a] == algos;
  }

  /** The comparison loop against the original copy: setGenerated on each record whose value changed. */
  method MarkGenerated(orig: seq<Record>, s: seq<Record>, p: string) returns (s': seq<Record>)
    requires |orig| == |s|
    ensures s' == Flag(orig, s, p)
  {
    s' := s;
    var kk := 0;
    while kk < |orig|
      invariant kk <= |orig| && |s'| == |s|
      invariant forall i :: 0 <= i < kk ==> s'[i] == Flag(orig, s, p)[i]
      invariant forall i :: kk <= i < |s| ==> s'[i] == s[i]
    {
      if Value(orig[kk], p) != Value(s'[kk], p) {
        s' := s'[kk := s'[kk].(generated := s'[kk].generated + {p})];
      }
      kk := kk + 1;
    }
  }

  /** Period `k` of `ps` reports success when create runs on it after the earlier periods. */
  predicate PeriodOk(B: Behaviour, g: Generator, p: string, ps: seq<Period>, k: nat, s: seq<Record>)
    requires k < |ps|
  {
    B.createStatus(g, p, ps[k].start, ps[k].end, Created(B, g, p, ps[..k], s))
  }

  /** The status of a generator over its periods is the conjunction of create over all of them. */
  lemma {:induction false} StatusIsConjunction(B: Behaviour, g: Generator, p: string, ps: seq<Period>, s: seq<Record>)
    ensures CreateStatus(B, g, p, ps, s) <==> forall k :: 0 <= k < |ps| ==> PeriodOk(B, g, p, ps, k, s)
  {
    if ps != [] {
      var n := |ps| - 1;
      var front := ps[..n];
      StatusIsConjunction(B, g, p, front, s);
      CreatedStep(B, g, p, ps, n, s);
      assert ps[..n + 1] == ps;
      assert PeriodOk(B, g, p, ps, n, s) == B.createStatus(g, p, ps[n].start, ps[n].end, Created(B, g, p, ps[..n], s));
      forall k | 0 <= k < n
        ensures PeriodOk(B, g, p, front, k, s) == PeriodOk(B, g, p, ps, k, s)
      {
        assert front[k] == ps[k] && front[..k] == ps[..k];
      }
    }
  }


}
