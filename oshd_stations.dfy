/**
 * The station side of the OSHD plugin: cleaning the acronyms of the
 * STATION_LIST file into the station IDs users request, finding each
 * requested station's position in the file (buildVecIdx), and converting
 * the units found in the data files into MeteoIO's SI units (convertUnits).
 */
module OshdStations {
  import opened Common
  import OshdFiles

  // ------------------ acronyms ------------------

  predicate IsLetter(c: char)
  {
    'a' <= c <= 'z' || 'A' <= c <= 'Z'
  }

  predicate AllLetters(s: string)
  {
    forall i :: 0 <= i < |s| ==> IsLetter(s[i])
  }

  /** The number of leading letters of s. */
  function LetterRun(s: string): (k: nat)
    ensures k <= |s| && AllLetters(s[..k])
    ensures k < |s| ==> !IsLetter(s[k])
  {
    if s == [] || !IsLetter(s[0]) then 0
    else
      var k := LetterRun(s[1..]);
      assert s[..k + 1] == [s[0]] + s[1..][..k];
      1 + k
  }

  /** The position of the first '.' of s, or |s|. */
  function FirstDot(s: string): (k: nat)
    ensures k <= |s| && (k < |s| ==> s[k] == '.')
    ensures forall i :: 0 <= i < k ==> s[i] != '.'
  {
    if s == [] || s[0] == '.' then 0
    else
      var k := FirstDot(s[1..]);
      assert forall i :: 1 <= i < k + 1 ==> s[i] == s[1..][i - 1];
      1 + k
  }

  /**
   * A full match of the acronym regex `([a-zA-Z]+)\.([a-zA-Z]+)([0-9]*)`:
   * the provider, the station name and the station number.
   */
  function ParseAcro(s: string): (r: Option<(string, string, string)>)
    ensures r.Some? ==> var (p, n, d) := r.value;
      s == p + "." + n + d && |p| > 0 && AllLetters(p) && |n| > 0 && AllLetters(n) && OshdFiles.AllDigits(d)
  {
    var k := FirstDot(s);
    if k == |s| || k == 0 || !AllLetters(s[..k]) then None
    else
      var rest := s[k + 1..];
      var m := LetterRun(rest);
      if m == 0 || !OshdFiles.AllDigits(rest[m..]) then None
      else
        assert s == s[..k] + "." + rest[..m] + rest[m..];
        Some((s[..k], rest[..m], rest[m..]))
  }

  /** Every string of the regex's shape is matched, with the groups it was built from. */
  lemma ParseAcroComplete(p: string, n: string, d: string)
    requires |p| > 0 && AllLetters(p) && |n| > 0 && AllLetters(n) && OshdFiles.AllDigits(d)
    ensures ParseAcro(p + "." + n + d) == Some((p, n, d))
  {
    var s := p + "." + n + d;
    FirstDotAt(s, |p|);
    var rest := s[|p| + 1..];
    assert rest == n + d;
    assert s[..|p|] == p;
    LetterRunAt(rest, |n|);
    assert rest[..|n|] == n && rest[|n|..] == d;
  }

  lemma {:induction false} FirstDotAt(s: string, k: nat)
    requires k < |s| && s[k] == '.' && forall i :: 0 <= i < k ==> IsLetter(s[i])
    ensures FirstDot(s) == k
  {
    if k > 0 {
      FirstDotAt(s[1..], k - 1);
    }
  }

  lemma {:induction false} LetterRunAt(s: string, k: nat)
    requires k <= |s| && AllLetters(s[..k]) && (k < |s| ==> !IsLetter(s[k]))
    ensures LetterRun(s) == k
  {
    if k > 0 {
      assert IsLetter(s[..k][0]);
      assert s[1..][..k - 1] == s[..k][1..];
      LetterRunAt(s[1..], k - 1);
    }
  }

  /**
   * The cleaned-up acronym: MCH stations numbered 2 become `*name` and those
   * numbered 1 `#name`; other MCH stations keep their acronym; stations of
   * any other provider lose the provider prefix; other acronyms are kept.
   */
  function CleanAcro(acro: string): string
  {
    match ParseAcro(acro)
    case None => acro
    case Some((p, n, d)) =>
      if p == "MCH" then (if d == "2" then "*" + n else if d == "1" then "#" + n else acro)
      else n + d
  }

  /** The cases of the cleanup, on acronyms built from their groups. */
  lemma CleanAcroCases(p: string, n: string, d: string)
    requires |p| > 0 && AllLetters(p) && |n| > 0 && AllLetters(n) && OshdFiles.AllDigits(d)
    ensures p == "MCH" && d == "2" ==> CleanAcro(p + "." + n + d) == "*" + n
    ensures p == "MCH" && d == "1" ==> CleanAcro(p + "." + n + d) == "#" + n
    ensures p == "MCH" && d != "1" && d != "2" ==> CleanAcro(p + "." + n + d) == p + "." + n + d
    ensures p != "MCH" ==> CleanAcro(p + "." + n + d) == n + d
  {
    ParseAcroComplete(p, n, d);
  }

  /** Acronyms that do not have the regex's shape are kept as they are. */
  lemma CleanAcroUnmatched(acro: string)
    requires forall p, n, d :: acro == p + "." + n + d ==>
               !(|p| > 0 && AllLetters(p) && |n| > 0 && AllLetters(n) && OshdFiles.AllDigits(d))
    ensures CleanAcro(acro) == acro
  {
    match ParseAcro(acro)
    case None =>
    case Some((p, n, d)) =>
  }

  // ------------------ buildVecIdx ------------------

  /** station_index: a requested ID, its position in the station list once found, and the acronym found there. */
  datatype StationIndex = StationIndex(id: string, idx: Option<nat>, oshdAcro: string)

  /** The first requested station with the given ID, or |ids| when there is none. */
  function FirstPos(ids: seq<StationIndex>, id: string): (k: nat)
    ensures k <= |ids| && (k < |ids| ==> ids[k].id == id)
    ensures forall i :: 0 <= i < k ==> ids[i].id != id
  {
    if ids == [] then 0
    else if ids[0].id == id then 0
    else
      var k := FirstPos(ids[1..], id);
      assert forall i :: 1 <= i < k + 1 ==> ids[i] == ids[1..][i - 1];
      1 + k
  }

  /** The inner loop of buildVecIdx from position ii: the first station whose ID is `clean` takes position jj. */
  function AssignFrom(ids: seq<StationIndex>, clean: string, jj: nat, acro: string, ii: nat): (r: seq<StationIndex>)
    ensures |r| == |ids|
    decreases |ids| - ii
  {
    if ii >= |ids| then ids
    else if ids[ii].id == clean then ids[ii := StationIndex(ids[ii].id, Some(jj), acro)]
    else AssignFrom(ids, clean, jj, acro, ii + 1)
  }

  /** The outer loop of buildVecIdx over the acronyms of the station list. */
  function AssignAll(ids: seq<StationIndex>, acros: seq<string>): (r: seq<StationIndex>)
    ensures |r| == |ids|
  {
    if acros == [] then ids
    else
      var n := |acros| - 1;
      AssignFrom(AssignAll(ids, acros[..n]), CleanAcro(acros[n]), n, acros[n], 0)
  }

  /** The last acronym of the list that cleans up to `id`. */
  function LastMatch(acros: seq<string>, id: string): (r: Option<nat>)
    ensures r.Some? ==> r.value < |acros| && CleanAcro(acros[r.value]) == id
  {
    if acros == [] then None
    else if CleanAcro(acros[|acros| - 1]) == id then Some(|acros| - 1)
    else LastMatch(acros[..|acros| - 1], id)
  }

  /** The inner loop, in terms of the first station of that ID. */
  lemma {:induction false} AssignFromMeaning(ids: seq<StationIndex>, clean: string, jj: nat, acro: string, ii: nat)
    requires ii <= |ids| && forall i :: 0 <= i < ii ==> ids[i].id != clean
    ensures var r := AssignFrom(ids, clean, jj, acro, ii);
      |r| == |ids| &&
      forall i :: 0 <= i < |ids| ==>
        r[i] == if i == FirstPos(ids, clean) then StationIndex(ids[i].id, Some(jj), acro) else ids[i]
    decreases |ids| - ii
  {
    if ii < |ids| && ids[ii].id != clean {
      AssignFromMeaning(ids, clean, jj, acro, ii + 1);
    }
  }

  /** The station each requested entry ends up pointing to. */
  function Assigned(ids: seq<StationIndex>, acros: seq<string>, i: nat): (r: StationIndex)
    requires i < |ids|
    ensures r.id == ids[i].id
  {
    var m := LastMatch(acros, ids[i].id);
    if i == FirstPos(ids, ids[i].id) && m.Some? then StationIndex(ids[i].id, Some(m.value), acros[m.value])
    else ids[i]
  }

  /** One more acronym: the entry it matches first takes it, the others keep what they had. */
  lemma AssignedSnoc(ids: seq<StationIndex>, acros: seq<string>, i: nat)
    requires i < |ids| && acros != []
    ensures var n := |acros| - 1;
      Assigned(ids, acros, i) ==
        if i == FirstPos(ids, CleanAcro(acros[n])) then StationIndex(ids[i].id, Some(n), acros[n])
        else Assigned(ids, acros[..n], i)
  {
    var n := |acros| - 1;
    var m := LastMatch(acros[..n], ids[i].id);
    if m.Some? {
      assert acros[..n][m.value] == acros[m.value];
    }
  }

  /**
   * After the loop over the station list, the first requested station of
   * each ID holds the last position whose cleaned acronym is that ID, and
   * every other requested station is left as it was.
   */
  lemma {:induction false} AssignAllMeaning(ids: seq<StationIndex>, acros: seq<string>)
    ensures |AssignAll(ids, acros)| == |ids|
    ensures forall i :: 0 <= i < |ids| ==> AssignAll(ids, acros)[i] == Assigned(ids, acros, i)
  {
    if acros != [] {
      var n := |acros| - 1;
      var prev := AssignAll(ids, acros[..n]);
      AssignAllMeaning(ids, acros[..n]);
      AssignStep(ids, acros, prev);
    }
  }

  lemma AssignStep(ids: seq<StationIndex>, acros: seq<string>, prev: seq<StationIndex>)
    requires acros != [] && |prev| == |ids|
    requires forall i :: 0 <= i < |ids| ==> prev[i] == Assigned(ids, acros[..|acros| - 1], i)
    ensures var n := |acros| - 1;
      var r := AssignFrom(prev, CleanAcro(acros[n]), n, acros[n], 0);
      |r| == |ids| && forall i :: 0 <= i < |ids| ==> r[i] == Assigned(ids, acros, i)
  {
    var n := |acros| - 1;
    var clean := CleanAcro(acros[n]);
    AssignFromMeaning(prev, clean, n, acros[n], 0);
    FirstPosSameIds(prev, ids, clean);
    forall i | 0 <= i < |ids|
      ensures AssignFrom(prev, clean, n, acros[n], 0)[i] == Assigned(ids, acros, i)
    {
      AssignedSnoc(ids, acros, i);
    }
  }

  lemma {:induction false} FirstPosSameIds(a: seq<StationIndex>, b: seq<StationIndex>, id: string)
    requires |a| == |b| && forall i :: 0 <= i < |a| ==> a[i].id == b[i].id
    ensures FirstPos(a, id) == FirstPos(b, id)
  {
    if a != [] && a[0].id != id {
      FirstPosSameIds(a[1..], b[1..], id);
    }
  }

  /** buildVecIdx: no requested station is an error, and so is a requested station left without a position. */
  function VecIdx(ids: seq<StationIndex>, acros: seq<string>): Result<seq<StationIndex>>
  {
    if |ids| == 0 then Err(InvalidArgument)
    else
      var r := AssignAll(ids, acros);
      if forall i :: 0 <= i < |r| ==> r[i].idx.Some? then Ok(r) else Err(NotFound)
  }

  /** The requested stations as parseInputOutputSection creates them: no position yet. */
  predicate Unassigned(ids: seq<StationIndex>)
  {
    forall i :: 0 <= i < |ids| ==> ids[i].idx.None?
  }

  predicate DistinctIds(ids: seq<StationIndex>)
  {
    forall i, j :: 0 <= i < j < |ids| ==> ids[i].id != ids[j].id
  }

  /**
   * On freshly requested stations, buildVecIdx succeeds exactly when some
   * station was requested, no ID was requested twice and every ID is the
   * cleaned acronym of some entry of the list; each station then holds the
   * last such entry and its acronym.
   */
  lemma VecIdxMeaning(ids: seq<StationIndex>, acros: seq<string>)
    requires Unassigned(ids)
    ensures VecIdx(ids, acros).Err? ==> VecIdx(ids, acros).kind == (if |ids| == 0 then InvalidArgument else NotFound)
    ensures VecIdx(ids, acros).Ok? <==>
              |ids| > 0 && DistinctIds(ids) && forall i :: 0 <= i < |ids| ==> LastMatch(acros, ids[i].id).Some?
    ensures VecIdx(ids, acros).Ok? ==>
              var r := VecIdx(ids, acros).value;
              |r| == |ids| &&
              forall i :: 0 <= i < |ids| ==>
                var j := LastMatch(acros, ids[i].id).value;
                r[i] == StationIndex(ids[i].id, Some(j), acros[j]) && CleanAcro(acros[j]) == ids[i].id
  {
    AssignAllMeaning(ids, acros);
    var r := AssignAll(ids, acros);
    if DistinctIds(ids) {
      forall i | 0 <= i < |ids|
        ensures FirstPos(ids, ids[i].id) == i
      {
        var k := FirstPos(ids, ids[i].id);
        assert ids[k].id == ids[i].id;
      }
    }
    if forall i :: 0 <= i < |r| ==> r[i].idx.Some? {
      forall i, j | 0 <= i < j < |ids|
        ensures ids[i].id != ids[j].id
      {
        assert r[j] == Assigned(ids, acros, j) && r[j].idx.Some? && ids[j].idx.None?;
        assert FirstPos(ids, ids[j].id) == j;
      }
      forall i | 0 <= i < |ids|
        ensures LastMatch(acros, ids[i].id).Some?
      {
        assert r[i].idx.Some?;
      }
    }
  }

  /** The OSHD reader, as far as buildVecIdx changes it. */
  class OshdIO {
    var statIDs: seq<StationIndex>

    /** parseInputOutputSection: one station_index per requested ID, without a position. */
    constructor (requested: seq<string>)
      ensures |statIDs| == |requested| && Unassigned(statIDs)
      ensures forall i :: 0 <= i < |requested| ==> statIDs[i] == StationIndex(requested[i], None, "")
    {
      statIDs := seq(|requested|, i requires 0 <= i < |requested| => StationIndex(requested[i], None, ""));
    }

    /**
     * buildVecIdx: fills in the positions (also when it then fails on a
     * station left without one) and reports the failure.
     */
    method BuildVecIdx(vecAcro: seq<string>) returns (r: Result<()>)
      modifies this
      ensures |old(statIDs)| == 0 ==> statIDs == old(statIDs)
      ensures |old(statIDs)| > 0 ==> statIDs == AssignAll(old(statIDs), vecAcro)
      ensures r.Err? <==> VecIdx(old(statIDs), vecAcro).Err?
      ensures r.Err? ==> r.kind == VecIdx(old(statIDs), vecAcro).kind
      ensures r.Ok? ==> statIDs == VecIdx(old(statIDs), vecAcro).value
    {
      var nrIDs := |statIDs|;
      if nrIDs == 0 {
        return Err(InvalidArgument);
      }
      ghost var ids := statIDs;
      for jj := 0 to |vecAcro|
        invariant statIDs == AssignAll(ids, vecAcro[..jj])
        invariant |statIDs| == nrIDs
      {
        assert vecAcro[..jj + 1][..jj] == vecAcro[..jj];
        var cleanAcro := CleanAcro(vecAcro[jj]);
        AssignFirst(cleanAcro, jj, vecAcro[jj]);
      }
      assert vecAcro[..|vecAcro|] == vecAcro;
      assert statIDs == AssignAll(ids, vecAcro);
      var placed := AllPlaced(statIDs);
      if !placed {
        return Err(NotFound);
      }
      return Ok(());
    }

    /** The check after the assignment: every requested station has a position. */
    static method AllPlaced(ids: seq<StationIndex>) returns (placed: bool)
      ensures placed <==> forall i :: 0 <= i < |ids| ==> ids[i].idx.Some?
    {
      for ii := 0 to |ids|
        invariant forall i :: 0 <= i < ii ==> ids[i].idx.Some?
      {
        if ids[ii].idx.None? {
          return false;
        }
      }
      return true;
    }

    /** The loop over the requested stations for one acronym: the first one of that ID takes its position. */
    method AssignFirst(cleanAcro: string, jj: nat, acro: string)
      modifies this
      ensures statIDs == AssignFrom(old(statIDs), cleanAcro, jj, acro, 0)
    {
      ghost var before := statIDs;
      var ii := 0;
      while ii < |statIDs|
        invariant 0 <= ii <= |statIDs| && statIDs == before
        invariant AssignFrom(before, cleanAcro, jj, acro, ii) == AssignFrom(before, cleanAcro, jj, acro, 0)
        decreases |statIDs| - ii
      {
        if statIDs[ii].id == cleanAcro {
          statIDs := statIDs[ii := StationIndex(statIDs[ii].id, Some(jj), acro)];
          return;
        }
        ii := ii + 1;
      }
    }
  }

  // ------------------ convertUnits ------------------

  /** The unit strings convertUnits recognises, as matio hands them over (single bytes as chars). */
  const DegreeC1: string := "?C"
  const DegreeC2: string := "°C"
  const Degree1: string := "?"
  const Degree2: string := "°"

  /** The units kept as they are, whatever the parameter. */
  const PlainUnits: set<string> := {"m", "deg", "K", "", "Pa", "W/m2", "m/s"}

  /**
   * convertUnits: percent and centimetres are divided by 100, millimetres by
   * 1000 except for precipitation, Celsius temperatures get the freezing
   * point added, a bare degree sign is Celsius for TA and degrees for DW, the
   * SI units are kept, anything else is an error.
   */
  function ConvertUnits(val: real, units: string, param: string): (r: Result<real>)
  {
    if units == "%" then Ok(val / 100.0)
    else if units == "m" then Ok(val)
    else if units == "cm" then Ok(val / 100.0)
    else if units == "mm" then (if param == "PSUM" then Ok(val) else Ok(val / 1000.0))
    else if units == DegreeC1 then Ok(val + FreezingPoint)
    else if units == DegreeC2 then Ok(val + FreezingPoint)
    else if units == Degree2 && param == "TA" then Ok(val + FreezingPoint)
    else if units == Degree1 && param == "DW" then Ok(val)
    else if units == Degree2 && param == "DW" then Ok(val)
    else if units in PlainUnits then Ok(val)
    else Err(IOError)
  }

  /** The units convertUnits accepts for a parameter. */
  predicate Known(units: string, param: string)
  {
    units in PlainUnits || units in {"%", "cm", "mm", DegreeC1, DegreeC2} ||
    (units == Degree2 && param in {"TA", "DW"}) || (units == Degree1 && param == "DW")
  }

  /** The scale factor to SI. */
  function Factor(units: string, param: string): real
  {
    if units in {"%", "cm"} then 0.01 else if units == "mm" && param != "PSUM" then 0.001 else 1.0
  }

  /** The offset to SI: Celsius to Kelvin. */
  function Offset(units: string, param: string): real
  {
    if units in {DegreeC1, DegreeC2} || (units == Degree2 && param == "TA") then FreezingPoint else 0.0
  }

  /** convertUnits fails exactly on unknown units, and is otherwise the affine map of the unit onto SI. */
  lemma ConvertUnitsMeaning(val: real, units: string, param: string)
    ensures ConvertUnits(val, units, param).Err? <==> !Known(units, param)
    ensures ConvertUnits(val, units, param).Err? ==> ConvertUnits(val, units, param).kind == IOError
    ensures ConvertUnits(val, units, param).Ok? ==>
              ConvertUnits(val, units, param).value == Factor(units, param) * val + Offset(units, param)
  {
  }

  /** A Celsius reading comes back from the converted value by subtracting the freezing point. */
  lemma CelsiusRoundTrip(val: real, units: string)
    requires units in {DegreeC1, DegreeC2}
    ensures ConvertUnits(val, units, "TA").Ok? && ConvertUnits(val, units, "TA").value - FreezingPoint == val
  {
  }

  /** The bare degree sign is a temperature for TA, an angle for DW and unknown for any other parameter. */
  lemma BareDegree(val: real, param: string)
    ensures param == "TA" ==> ConvertUnits(val, Degree2, param) == Ok(val + FreezingPoint)
    ensures param == "DW" ==> ConvertUnits(val, Degree2, param) == Ok(val)
    ensures param != "TA" && param != "DW" ==> ConvertUnits(val, Degree2, param) == Err(IOError)
  {
  }
}
