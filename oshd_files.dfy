/**
 * The COSMO file index of OshdIO: which file provides which time step
 * (scanMeteoPath, keeping the most recent model run for each step), the
 * lookup of the file to start reading from (getFileIdx), and the listing of
 * the grids available in a period (list2DGrids). Directory listing and the
 * splitting of a path into directory and file name are given as input.
 */
module OshdFiles {
  import opened Common

  const MeteoExt: string := "mat"

  /**
   * file_index: the time step of a file, where it is, and the run it comes
   * from. A time step YYYYMMDDHHMM is represented by the number its twelve
   * digits spell, which orders like the date they denote.
   */
  datatype FileIndex = FileIndex(date: nat, path: string, filename: string, runDate: string)

  /** One entry of the directory listing, already split into directory and file name. */
  datatype Entry = Entry(path: string, filename: string)

  predicate AllDigits(s: string)
  {
    forall i :: 0 <= i < |s| ==> IsDigit(s[i])
  }

  /** The file name regex `COSMODATA_([0-9]{12})_C1EFC_([0-9]{12})\.mat`: the time step and the run date. */
  function MatchFilename(name: string): (r: Option<(string, string)>)
    ensures r.Some? ==> |r.value.0| == 12 && AllDigits(r.value.0) && |r.value.1| == 12 && AllDigits(r.value.1) &&
                        name == "COSMODATA_" + r.value.0 + "_C1EFC_" + r.value.1 + "." + MeteoExt
  {
    if |name| == 45 && name[..10] == "COSMODATA_" && AllDigits(name[10..22]) && name[22..29] == "_C1EFC_" &&
       AllDigits(name[29..41]) && name[41..] == "." + MeteoExt
    then
      assert name == name[..10] + name[10..22] + name[22..29] + name[29..41] + name[41..];
      Some((name[10..22], name[29..41]))
    else None
  }

  /** Every name of that form matches, with its two groups. */
  lemma MatchFilenameComplete(date: string, run: string)
    requires |date| == 12 && AllDigits(date) && |run| == 12 && AllDigits(run)
    ensures MatchFilename("COSMODATA_" + date + "_C1EFC_" + run + "." + MeteoExt) == Some((date, run))
  {
    var name := "COSMODATA_" + date + "_C1EFC_" + run + "." + MeteoExt;
    assert name[..10] == "COSMODATA_";
    assert name[10..22] == date;
    assert name[22..29] == "_C1EFC_";
    assert name[29..41] == run;
    assert name[41..] == "." + MeteoExt;
  }

  /** A directory entry after the file name regex: skipped, or its time step, its run and the file_index it becomes. */
  datatype Candidate = Skip | Candidate(date: string, run: nat, elem: FileIndex)

  /** The time step a file_index was made from: the first group of its file name. */
  function KeyOf(f: FileIndex): Option<string>
  {
    if |f.filename| >= 22 then Some(f.filename[10..22]) else None
  }

  /** The run date of a file as a number (its twelve digits). */
  function RunOf(f: FileIndex): nat
  {
    if AllDigits(f.runDate) then DigitsValue(f.runDate) else 0
  }

  function CandidateOf(e: Entry): (c: Candidate)
    ensures c.Candidate? <==> MatchFilename(e.filename).Some?
  {
    match MatchFilename(e.filename)
    case None => Skip
    case Some((d, r)) => Candidate(d, DigitsValue(r), FileIndex(DigitsValue(d), e.path, e.filename, r))
  }

  /** What the regex guarantees of a candidate. */
  predicate WellFormed(c: Candidate)
  {
    c.Candidate? ==>
      |c.date| == 12 && AllDigits(c.date) && KeyOf(c.elem) == Some(c.date) && c.elem.date == DigitsValue(c.date) &&
      |c.elem.runDate| == 12 && AllDigits(c.elem.runDate) && c.run == RunOf(c.elem)
  }

  lemma CandidateWellFormed(e: Entry)
    ensures WellFormed(CandidateOf(e))
  {
    match MatchFilename(e.filename)
    case None =>
    case Some((d, r)) =>
      var n := e.filename;
      assert n == "COSMODATA_" + d + "_C1EFC_" + r + "." + MeteoExt;
      assert n[10..22] == d;
  }

  /** The candidates of a directory listing. */
  function Candidates(es: seq<Entry>): (cs: seq<Candidate>)
    ensures |cs| == |es|
    ensures forall i :: 0 <= i < |es| ==> cs[i] == CandidateOf(es[i])
  {
    seq(|es|, i requires 0 <= i < |es| => CandidateOf(es[i]))
  }

  predicate AllWellFormed(cs: seq<Candidate>)
  {
    forall i :: 0 <= i < |cs| ==> WellFormed(cs[i])
  }

  lemma CandidatesWellFormed(es: seq<Entry>)
    ensures AllWellFormed(Candidates(es))
  {
    forall i | 0 <= i < |es|
      ensures WellFormed(Candidates(es)[i])
    {
      CandidateWellFormed(es[i]);
    }
  }

  /** For twelve-digit run dates, std::string's `<` is the order of the numbers. */
  lemma {:induction false} LessDigits(a: string, b: string)
    requires |a| == |b| && AllDigits(a) && AllDigits(b)
    ensures Less(a, b) <==> DigitsValue(a) < DigitsValue(b)
  {
    if a != [] {
      var n := |a|;
      var pa, pb := a[..n - 1], b[..n - 1];
      LessSnoc(a, b);
      LessDigits(pa, pb);
      DigitsValueInjective(pa, pb);
      LessIrreflexive(pa);
      assert IsDigit(a[n - 1]) && IsDigit(b[n - 1]);
      assert DigitsValue(a) == 10 * DigitsValue(pa) + (a[n - 1] as int - '0' as int);
      assert DigitsValue(b) == 10 * DigitsValue(pb) + (b[n - 1] as int - '0' as int);
    }
  }

  /** Strings of equal length compare by their first |s|-1 characters, and then by the last one. */
  lemma {:induction false} LessSnoc(a: string, b: string)
    requires |a| == |b| > 0
    ensures Less(a, b) <==>
              Less(a[..|a| - 1], b[..|b| - 1]) || (a[..|a| - 1] == b[..|b| - 1] && a[|a| - 1] < b[|b| - 1])
  {
    if |a| > 1 {
      LessSnoc(a[1..], b[1..]);
      assert a[1..][..|a| - 2] == a[..|a| - 1][1..];
      assert b[1..][..|b| - 2] == b[..|b| - 1][1..];
      if a[0] == b[0] {
        assert a[..|a| - 1] == b[..|b| - 1] <==> a[..|a| - 1][1..] == b[..|b| - 1][1..] by {
          assert a[..|a| - 1] == [a[0]] + a[..|a| - 1][1..];
          assert b[..|b| - 1] == [b[0]] + b[..|b| - 1][1..];
        }
      }
    }
  }

  /** The data files found so far, and mapIdx: the position of each time step's entry. */
  datatype ScanState = ScanState(files: seq<FileIndex>, idx: map<string, nat>)

  predicate Indexed(st: ScanState)
  {
    forall d :: d in st.idx ==> st.idx[d] < |st.files|
  }

  /** One candidate: ignored if skipped or if the entry of its step has a later run; otherwise added or replacing. */
  function ScanStep(st: ScanState, c: Candidate): (r: ScanState)
    requires Indexed(st)
    ensures Indexed(r)
  {
    if c.Skip? then st
    else if c.date in st.idx && c.run < RunOf(st.files[st.idx[c.date]]) then st
    else if c.date !in st.idx then ScanState(st.files + [c.elem], st.idx[c.date := |st.files|])
    else ScanState(st.files[st.idx[c.date] := c.elem], st.idx)
  }

  /** The loop of scanMeteoPath over the candidates of the directory listing. */
  function Scan(cs: seq<Candidate>): (r: ScanState)
    ensures Indexed(r)
  {
    if cs == [] then ScanState([], map[]) else ScanStep(Scan(cs[..|cs| - 1]), cs[|cs| - 1])
  }

  /** The time steps of the matching entries. */
  function Steps(cs: seq<Candidate>): set<string>
  {
    set i | 0 <= i < |cs| && cs[i].Candidate? :: cs[i].date
  }

  lemma StepsSnoc(cs: seq<Candidate>, c: Candidate)
    ensures Steps(cs + [c]) == Steps(cs) + (if c.Candidate? then {c.date} else {})
  {
    var cs' := cs + [c];
    assert forall j :: 0 <= j < |cs| ==> cs'[j] == cs[j];
    assert cs'[|cs|] == c;
  }

  /**
   * Candidate k is the one kept for time step d: every earlier file of step d
   * has an older or equal run, and every later one an older run.
   */
  ghost predicate Kept(cs: seq<Candidate>, d: string, k: int)
  {
    0 <= k < |cs| && cs[k].Candidate? && cs[k].date == d &&
    forall j :: 0 <= j < |cs| && cs[j].Candidate? && cs[j].date == d ==>
      (j < k ==> cs[j].run <= cs[k].run) && (j > k ==> cs[j].run < cs[k].run)
  }

  /** What the scan keeps: one position per time step met, holding the kept candidate of that step. */
  ghost predicate ScanInv(st: ScanState, cs: seq<Candidate>)
  {
    Indexed(st) && st.idx.Keys == Steps(cs) && Positioned(st) && HoldsKept(st, cs)
  }

  /** Each file sits at the position mapIdx gives for its own time step. */
  predicate Positioned(st: ScanState)
  {
    forall p :: 0 <= p < |st.files| ==> KeyOf(st.files[p]).Some? && KeyOf(st.files[p]).value in st.idx &&
                                        st.idx[KeyOf(st.files[p]).value] == p
  }

  /** The entry of each time step is its kept candidate. */
  ghost predicate HoldsKept(st: ScanState, cs: seq<Candidate>)
    requires Indexed(st)
  {
    forall d :: d in st.idx ==> exists k :: Kept(cs, d, k) && st.files[st.idx[d]] == cs[k].elem
  }

  /** Replacing the entry of a time step by a file of the same step keeps the positions. */
  lemma ReplacePositioned(st: ScanState, d: string, e: FileIndex)
    requires Indexed(st) && Positioned(st) && d in st.idx && KeyOf(e) == Some(d)
    ensures Positioned(ScanState(st.files[st.idx[d] := e], st.idx))
  {
    var r := ScanState(st.files[st.idx[d] := e], st.idx);
    forall p | 0 <= p < |r.files|
      ensures KeyOf(r.files[p]).Some? && KeyOf(r.files[p]).value in r.idx && r.idx[KeyOf(r.files[p]).value] == p
    {
      if p != st.idx[d] {
        assert r.files[p] == st.files[p];
      }
    }
  }

  /** Appending the entry of a new time step keeps the positions. */
  lemma AppendPositioned(st: ScanState, d: string, e: FileIndex)
    requires Indexed(st) && Positioned(st) && d !in st.idx && KeyOf(e) == Some(d)
    ensures Positioned(ScanState(st.files + [e], st.idx[d := |st.files|]))
  {
    var r := ScanState(st.files + [e], st.idx[d := |st.files|]);
    forall p | 0 <= p < |r.files|
      ensures KeyOf(r.files[p]).Some? && KeyOf(r.files[p]).value in r.idx && r.idx[KeyOf(r.files[p]).value] == p
    {
      if p < |st.files| {
        assert r.files[p] == st.files[p];
      }
    }
  }

  /** Appending a candidate keeps the kept candidates of the other steps. */
  lemma KeptExtend(cs: seq<Candidate>, c: Candidate, d: string, k: int)
    requires Kept(cs, d, k) && !(c.Candidate? && c.date == d)
    ensures Kept(cs + [c], d, k)
  {
    var cs' := cs + [c];
    assert forall j :: 0 <= j < |cs| ==> cs'[j] == cs[j];
  }

  /** Appending a candidate of an older run keeps the kept candidate of its step. */
  lemma KeptOlder(cs: seq<Candidate>, c: Candidate, d: string, k: int)
    requires Kept(cs, d, k) && c.Candidate? && c.date == d && c.run < cs[k].run
    ensures Kept(cs + [c], d, k)
  {
    var cs' := cs + [c];
    assert forall j :: 0 <= j < |cs| ==> cs'[j] == cs[j];
  }

  /** Appending a candidate of an equal or later run, or of a new step, makes it the kept one. */
  lemma KeptLast(cs: seq<Candidate>, c: Candidate, d: string)
    requires c.Candidate? && c.date == d
    requires forall j :: 0 <= j < |cs| && cs[j].Candidate? && cs[j].date == d ==> cs[j].run <= c.run
    ensures Kept(cs + [c], d, |cs|)
  {
    var cs' := cs + [c];
    assert forall j :: 0 <= j < |cs| ==> cs'[j] == cs[j];
  }

  /** The kept files of the other steps are still kept when a candidate is appended. */
  lemma KeptOthers(st: ScanState, r: ScanState, cs: seq<Candidate>, c: Candidate)
    requires ScanInv(st, cs)
    requires forall x :: x in st.idx && !(c.Candidate? && x == c.date) ==>
               x in r.idx && r.idx[x] == st.idx[x] && r.idx[x] < |r.files| && r.files[r.idx[x]] == st.files[st.idx[x]]
    ensures forall x :: x in st.idx && !(c.Candidate? && x == c.date) ==>
              exists k :: Kept(cs + [c], x, k) && r.files[r.idx[x]] == (cs + [c])[k].elem
  {
    var cs' := cs + [c];
    assert forall j :: 0 <= j < |cs| ==> cs'[j] == cs[j];
    forall x | x in st.idx && !(c.Candidate? && x == c.date)
      ensures exists k :: Kept(cs', x, k) && r.files[r.idx[x]] == cs'[k].elem
    {
      var k :| Kept(cs, x, k) && st.files[st.idx[x]] == cs[k].elem;
      KeptExtend(cs, c, x, k);
    }
  }

  lemma ScanStepSkipped(st: ScanState, cs: seq<Candidate>, c: Candidate)
    requires ScanInv(st, cs) && c.Skip?
    ensures ScanInv(ScanStep(st, c), cs + [c])
  {
    KeptOthers(st, st, cs, c);
    StepsSnoc(cs, c);
  }

  /** A candidate of an older run leaves the kept candidate of its step in place. */
  lemma OlderHoldsKept(st: ScanState, cs: seq<Candidate>, c: Candidate)
    requires ScanInv(st, cs) && c.Candidate? && c.date in st.idx && c.run < RunOf(st.files[st.idx[c.date]])
    requires AllWellFormed(cs)
    ensures HoldsKept(st, cs + [c])
  {
    KeptOthers(st, st, cs, c);
    var d := c.date;
    var k :| Kept(cs, d, k) && st.files[st.idx[d]] == cs[k].elem;
    assert WellFormed(cs[k]);
    KeptOlder(cs, c, d, k);
    assert (cs + [c])[k] == cs[k];
  }

  lemma ScanStepOlder(st: ScanState, cs: seq<Candidate>, c: Candidate)
    requires ScanInv(st, cs) && c.Candidate? && c.date in st.idx && c.run < RunOf(st.files[st.idx[c.date]])
    requires AllWellFormed(cs)
    ensures ScanInv(ScanStep(st, c), cs + [c])
  {
    StepsSnoc(cs, c);
    OlderHoldsKept(st, cs, c);
  }

  /** No candidate of the step of kept candidate k has a later run. */
  lemma KeptMax(cs: seq<Candidate>, d: string, k: int)
    requires Kept(cs, d, k)
    ensures forall j :: 0 <= j < |cs| && cs[j].Candidate? && cs[j].date == d ==> cs[j].run <= cs[k].run
  {
  }

  /** A candidate of an equal or later run becomes the kept one of its step. */
  lemma ReplaceHoldsKept(st: ScanState, cs: seq<Candidate>, c: Candidate)
    requires ScanInv(st, cs) && c.Candidate? && c.date in st.idx && c.run >= RunOf(st.files[st.idx[c.date]])
    requires AllWellFormed(cs)
    ensures HoldsKept(ScanState(st.files[st.idx[c.date] := c.elem], st.idx), cs + [c])
  {
    var d := c.date;
    var cs' := cs + [c];
    var r := ScanState(st.files[st.idx[d] := c.elem], st.idx);
    KeptOthers(st, r, cs, c);
    var k :| Kept(cs, d, k) && st.files[st.idx[d]] == cs[k].elem;
    assert WellFormed(cs[k]);
    KeptMax(cs, d, k);
    KeptLast(cs, c, d);
    forall x | x in r.idx
      ensures exists k' :: Kept(cs', x, k') && r.files[r.idx[x]] == cs'[k'].elem
    {
      if x == d {
        assert Kept(cs', d, |cs|) && r.files[r.idx[d]] == cs'[|cs|].elem;
      }
    }
  }

  lemma ScanStepReplace(st: ScanState, cs: seq<Candidate>, c: Candidate)
    requires ScanInv(st, cs) && c.Candidate? && c.date in st.idx && c.run >= RunOf(st.files[st.idx[c.date]])
    requires AllWellFormed(cs) && WellFormed(c)
    ensures ScanInv(ScanStep(st, c), cs + [c])
  {
    assert ScanStep(st, c) == ScanState(st.files[st.idx[c.date] := c.elem], st.idx);
    StepsSnoc(cs, c);
    ReplaceHoldsKept(st, cs, c);
    ReplacePositioned(st, c.date, c.elem);
  }

  lemma ScanStepNew(st: ScanState, cs: seq<Candidate>, c: Candidate)
    requires ScanInv(st, cs) && c.Candidate? && c.date !in st.idx && WellFormed(c)
    ensures ScanInv(ScanStep(st, c), cs + [c])
  {
    var d := c.date;
    var r := ScanStep(st, c);
    assert r == ScanState(st.files + [c.elem], st.idx[d := |st.files|]);
    KeptOthers(st, r, cs, c);
    StepsSnoc(cs, c);
    forall j | 0 <= j < |cs| && cs[j].Candidate?
      ensures cs[j].date != d
    {
      assert cs[j].date in Steps(cs);
    }
    KeptLast(cs, c, d);
    assert r.files[r.idx[d]] == (cs + [c])[|cs|].elem;
    AppendPositioned(st, d, c.elem);
  }

  lemma ScanStepInv(st: ScanState, cs: seq<Candidate>, c: Candidate)
    requires ScanInv(st, cs) && AllWellFormed(cs) && WellFormed(c)
    ensures ScanInv(ScanStep(st, c), cs + [c])
  {
    if c.Skip? {
      ScanStepSkipped(st, cs, c);
    } else if c.date !in st.idx {
      ScanStepNew(st, cs, c);
    } else if c.run < RunOf(st.files[st.idx[c.date]]) {
      ScanStepOlder(st, cs, c);
    } else {
      ScanStepReplace(st, cs, c);
    }
  }

  lemma {:induction false} ScanMeaning(cs: seq<Candidate>)
    requires AllWellFormed(cs)
    ensures ScanInv(Scan(cs), cs)
  {
    if cs != [] {
      var init := cs[..|cs| - 1];
      ScanMeaning(init);
      ScanStepInv(Scan(init), init, cs[|cs| - 1]);
      assert init + [cs[|cs| - 1]] == cs;
    }
  }

  /** Twelve-digit time steps with the same number are the same string. */
  lemma {:induction false} DigitsValueInjective(a: string, b: string)
    requires |a| == |b| && AllDigits(a) && AllDigits(b)
    ensures DigitsValue(a) == DigitsValue(b) ==> a == b
  {
    if a != [] && DigitsValue(a) == DigitsValue(b) {
      var n := |a|;
      var x, y := a[n - 1] as int - '0' as int, b[n - 1] as int - '0' as int;
      assert IsDigit(a[n - 1]) && IsDigit(b[n - 1]);
      assert 10 * DigitsValue(a[..n - 1]) + x == 10 * DigitsValue(b[..n - 1]) + y;
      assert x == y;
      DigitsValueInjective(a[..n - 1], b[..n - 1]);
      assert a == a[..n - 1] + [a[n - 1]] && b == b[..n - 1] + [b[n - 1]];
    }
  }

  /** The files found hold different dates. */
  predicate DistinctDates(fs: seq<FileIndex>)
  {
    forall p, q :: 0 <= p < q < |fs| ==> fs[p].date != fs[q].date
  }

  lemma ScanDistinct(cs: seq<Candidate>)
    requires AllWellFormed(cs)
    ensures DistinctDates(Scan(cs).files)
  {
    ScanMeaning(cs);
    var st := Scan(cs);
    forall p, q | 0 <= p < q < |st.files|
      ensures st.files[p].date != st.files[q].date
    {
      var dp, dq := KeyOf(st.files[p]).value, KeyOf(st.files[q]).value;
      var kp :| Kept(cs, dp, kp) && st.files[st.idx[dp]] == cs[kp].elem;
      var kq :| Kept(cs, dq, kq) && st.files[st.idx[dq]] == cs[kq].elem;
      assert WellFormed(cs[kp]) && WellFormed(cs[kq]);
      DigitsValueInjective(dp, dq);
    }
  }

  /** Every file the scan holds carries a twelve-digit run date. */
  lemma ScanRuns(cs: seq<Candidate>)
    requires AllWellFormed(cs)
    ensures forall p :: 0 <= p < |Scan(cs).files| ==>
              |Scan(cs).files[p].runDate| == 12 && AllDigits(Scan(cs).files[p].runDate)
  {
    ScanMeaning(cs);
    var st := Scan(cs);
    forall p | 0 <= p < |st.files|
      ensures |st.files[p].runDate| == 12 && AllDigits(st.files[p].runDate)
    {
      var d := KeyOf(st.files[p]).value;
      var k :| Kept(cs, d, k) && st.files[st.idx[d]] == cs[k].elem;
      assert WellFormed(cs[k]);
    }
  }

  // ------------------ sorting ------------------

  predicate SortedByDate(fs: seq<FileIndex>)
  {
    forall p, q :: 0 <= p < q < |fs| ==> fs[p].date <= fs[q].date
  }

  predicate StrictlyByDate(fs: seq<FileIndex>)
  {
    forall p, q :: 0 <= p < q < |fs| ==> fs[p].date < fs[q].date
  }

  function InsertByDate(x: FileIndex, fs: seq<FileIndex>): seq<FileIndex>
  {
    if fs == [] then [x]
    else if x.date <= fs[0].date then [x] + fs
    else [fs[0]] + InsertByDate(x, fs[1..])
  }

  lemma {:induction false} InsertMultiset(x: FileIndex, fs: seq<FileIndex>)
    ensures multiset(InsertByDate(x, fs)) == multiset(fs) + multiset{x}
  {
    if fs != [] && x.date > fs[0].date {
      InsertMultiset(x, fs[1..]);
      assert fs == [fs[0]] + fs[1..];
    }
  }

  /** Inserting into files of dates above v a file dated above v gives files of dates above v. */
  lemma {:induction false} InsertAbove(x: FileIndex, fs: seq<FileIndex>, v: int)
    requires forall y :: y in fs ==> y.date > v
    requires x.date > v
    ensures forall y :: y in InsertByDate(x, fs) ==> y.date > v
  {
    if fs != [] && x.date > fs[0].date {
      InsertAbove(x, fs[1..], v);
    }
  }

  lemma {:induction false} InsertAtLeast(x: FileIndex, fs: seq<FileIndex>, v: int)
    requires forall y :: y in fs ==> y.date >= v
    requires x.date >= v
    ensures forall y :: y in InsertByDate(x, fs) ==> y.date >= v
  {
    if fs != [] && x.date > fs[0].date {
      InsertAtLeast(x, fs[1..], v);
    }
  }

  lemma {:induction false} InsertSorted(x: FileIndex, fs: seq<FileIndex>)
    requires SortedByDate(fs)
    ensures SortedByDate(InsertByDate(x, fs))
  {
    if fs != [] && x.date > fs[0].date {
      var t := fs[1..];
      InsertSorted(x, t);
      InsertAtLeast(x, t, fs[0].date);
      var r := [fs[0]] + InsertByDate(x, t);
      forall p, q | 0 <= p < q < |r|
        ensures r[p].date <= r[q].date
      {
        if p == 0 {
          assert r[q] in InsertByDate(x, t);
        }
      }
    }
  }

  lemma {:induction false} InsertStrict(x: FileIndex, fs: seq<FileIndex>)
    requires StrictlyByDate(fs)
    requires forall y :: y in fs ==> y.date != x.date
    ensures StrictlyByDate(InsertByDate(x, fs))
  {
    if fs != [] && x.date > fs[0].date {
      var t := fs[1..];
      InsertStrict(x, t);
      InsertAbove(x, t, fs[0].date);
      var r := [fs[0]] + InsertByDate(x, t);
      forall p, q | 0 <= p < q < |r|
        ensures r[p].date < r[q].date
      {
        if p == 0 {
          assert r[q] in InsertByDate(x, t);
        }
      }
    }
  }

  /** std::sort by date. */
  function SortByDate(fs: seq<FileIndex>): seq<FileIndex>
  {
    if fs == [] then [] else InsertByDate(fs[0], SortByDate(fs[1..]))
  }

  /** Sorting keeps the files and orders them by date. */
  lemma {:induction false} SortFacts(fs: seq<FileIndex>)
    ensures multiset(SortByDate(fs)) == multiset(fs)
    ensures SortedByDate(SortByDate(fs))
  {
    if fs != [] {
      SortFacts(fs[1..]);
      InsertMultiset(fs[0], SortByDate(fs[1..]));
      InsertSorted(fs[0], SortByDate(fs[1..]));
      assert fs == [fs[0]] + fs[1..];
    }
  }

  /** Files of distinct dates come out strictly increasing. */
  lemma {:induction false} SortStrict(fs: seq<FileIndex>)
    requires DistinctDates(fs)
    ensures StrictlyByDate(SortByDate(fs))
  {
    if fs != [] {
      var t := fs[1..];
      SortStrict(t);
      SortFacts(t);
      forall y | y in SortByDate(t)
        ensures y.date != fs[0].date
      {
        assert y in multiset(t);
        var q :| 0 <= q < |t| && t[q] == y;
        assert fs[q + 1] == y;
      }
      InsertStrict(fs[0], SortByDate(t));
    }
  }

  /**
   * scanMeteoPath: one file per time step met in the listing, the kept one of
   * that step (the most recent run, the last of equally recent ones), sorted
   * by strictly increasing date.
   */
  lemma ScanSorted(es: seq<Entry>)
    ensures var cs := Candidates(es);
      var r := SortByDate(Scan(cs).files);
      StrictlyByDate(r) &&
      (forall p :: 0 <= p < |r| ==> exists d, k :: Kept(cs, d, k) && r[p] == cs[k].elem) &&
      (forall d :: d in Steps(cs) ==> exists p, k :: 0 <= p < |r| && Kept(cs, d, k) && r[p] == cs[k].elem)
  {
    var cs := Candidates(es);
    CandidatesWellFormed(es);
    SortedStrict(cs);
    ScanMeaning(cs);
    SortedOnlyKept(cs);
    SortedAllSteps(cs);
  }

  lemma SortedStrict(cs: seq<Candidate>)
    requires AllWellFormed(cs)
    ensures StrictlyByDate(SortByDate(Scan(cs).files))
  {
    ScanDistinct(cs);
    SortStrict(Scan(cs).files);
  }

  lemma SortedOnlyKept(cs: seq<Candidate>)
    requires ScanInv(Scan(cs), cs)
    ensures var r := SortByDate(Scan(cs).files);
      forall p :: 0 <= p < |r| ==> exists d, k :: Kept(cs, d, k) && r[p] == cs[k].elem
  {
    var st := Scan(cs);
    var r := SortByDate(st.files);
    SortFacts(st.files);
    forall p | 0 <= p < |r|
      ensures exists d, k :: Kept(cs, d, k) && r[p] == cs[k].elem
    {
      assert r[p] in multiset(st.files);
      var a :| 0 <= a < |st.files| && st.files[a] == r[p];
      var d := KeyOf(st.files[a]).value;
      var k :| Kept(cs, d, k) && st.files[st.idx[d]] == cs[k].elem;
    }
  }

  lemma SortedAllSteps(cs: seq<Candidate>)
    requires ScanInv(Scan(cs), cs)
    ensures var r := SortByDate(Scan(cs).files);
      forall d :: d in Steps(cs) ==> exists p, k :: 0 <= p < |r| && Kept(cs, d, k) && r[p] == cs[k].elem
  {
    SortFacts(Scan(cs).files);
    forall d | d in Steps(cs)
      ensures exists p, k :: 0 <= p < |SortByDate(Scan(cs).files)| && Kept(cs, d, k) && SortByDate(Scan(cs).files)[p] == cs[k].elem
    {
      SortedHasStep(cs, d);
    }
  }

  lemma SortedHasStep(cs: seq<Candidate>, d: string)
    requires ScanInv(Scan(cs), cs) && d in Steps(cs)
    requires multiset(SortByDate(Scan(cs).files)) == multiset(Scan(cs).files)
    ensures exists p, k :: 0 <= p < |SortByDate(Scan(cs).files)| && Kept(cs, d, k) && SortByDate(Scan(cs).files)[p] == cs[k].elem
  {
    var st := Scan(cs);
    var r := SortByDate(st.files);
    var k :| Kept(cs, d, k) && st.files[st.idx[d]] == cs[k].elem;
    var f := st.files[st.idx[d]];
    assert f in multiset(st.files);
    assert f in multiset(r);
    var p :| 0 <= p < |r| && r[p] == f;
  }

  /** scanMeteoPath over a directory listing. */
  method ScanMeteoPath(es: seq<Entry>) returns (files: seq<FileIndex>)
    ensures files == SortByDate(Scan(Candidates(es)).files)
  {
    ghost var cs := Candidates(es);
    CandidatesWellFormed(es);
    files := [];
    var mapIdx: map<string, nat> := map[];
    for i := 0 to |es|
      invariant ScanState(files, mapIdx) == Scan(cs[..i])
    {
      assert cs[..i + 1][..i] == cs[..i];
      assert cs[..i + 1] == cs[..i] + [cs[i]];
      var e := es[i];
      var m := MatchFilename(e.filename);
      if m.None? {
        continue;
      }
      var (d, run) := m.value;
      if d in mapIdx {
        assert AllWellFormed(cs[..i]);
        ScanRuns(cs[..i]);
        LessDigits(run, files[mapIdx[d]].runDate);
      }
      if d in mapIdx && Less(run, files[mapIdx[d]].runDate) {
        continue;
      }
      var elem := FileIndex(DigitsValue(d), e.path, e.filename, run);
      if d !in mapIdx {
        files := files + [elem];
        mapIdx := mapIdx[d := |files| - 1];
      } else {
        files := files[mapIdx[d] := elem];
      }
    }
    assert cs[..|es|] == cs;
    files := SortByDate(files);
  }

  // ------------------ getFileIdx ------------------

  /** The first interval [date[idx-1], date[idx]) from idx on that holds `start`, as the index of its first file. */
  function IntervalFrom(c: seq<FileIndex>, start: int, idx: nat): (r: Option<nat>)
    requires 1 <= idx
    ensures r.Some? ==> idx <= r.value + 1 < |c| && c[r.value].date <= start < c[r.value + 1].date
    ensures r.Some? ==> forall j :: idx <= j <= r.value ==> !(c[j - 1].date <= start < c[j].date)
    ensures r.None? ==> forall j :: idx <= j < |c| ==> !(c[j - 1].date <= start < c[j].date)
    decreases |c| - idx
  {
    if idx >= |c| then None
    else if c[idx - 1].date <= start < c[idx].date then Some(idx - 1)
    else IntervalFrom(c, start, idx + 1)
  }

  /** getFileIdx: no file is an error; otherwise the file whose interval holds `start`, else the first or the last file. */
  function FileIdx(c: seq<FileIndex>, start: int): (r: Result<nat>)
    ensures r.Err? <==> c == []
    ensures r.Err? ==> r.kind == InvalidArgument
    ensures r.Ok? ==> r.value < |c|
  {
    if c == [] then Err(InvalidArgument)
    else if |c| == 1 then Ok(0)
    else match IntervalFrom(c, start, 1)
      case Some(k) => Ok(k)
      case None => if start < c[0].date then Ok(0) else Ok(|c| - 1)
  }

  /**
   * On a cache sorted by date, getFileIdx picks the last file that starts at
   * or before `start`, or the first file when all start later.
   */
  lemma FileIdxSorted(c: seq<FileIndex>, start: int)
    requires SortedByDate(c) && c != []
    ensures var k := FileIdx(c, start).value;
      (c[k].date <= start || (k == 0 && start < c[0].date)) &&
      (k + 1 == |c| || start < c[k + 1].date)
  {
    if |c| > 1 && IntervalFrom(c, start, 1).None? && start >= c[0].date {
      var k := |c| - 1;
      if c[k].date > start {
        LastBelow(c, start, k);
      }
    }
  }

  /** If the first date is at most `start` and the k-th above it, one of the intervals up to k holds `start`. */
  lemma {:induction false} LastBelow(c: seq<FileIndex>, start: int, k: nat)
    requires 0 < k < |c| && c[0].date <= start < c[k].date
    ensures exists j :: 1 <= j <= k && c[j - 1].date <= start < c[j].date
  {
    if c[k - 1].date > start {
      LastBelow(c, start, k - 1);
    } else {
      assert c[k - 1].date <= start < c[k].date;
    }
  }

  /** getFileIdx. */
  method GetFileIdx(cache: seq<FileIndex>, start: int) returns (r: Result<nat>)
    ensures r == FileIdx(cache, start)
  {
    if cache == [] {
      return Err(InvalidArgument);
    }
    if |cache| == 1 {
      return Ok(0);
    }
    var idx := 1;
    while idx < |cache|
      invariant 1 <= idx <= |cache|
      invariant IntervalFrom(cache, start, 1) == IntervalFrom(cache, start, idx)
      decreases |cache| - idx
    {
      if start >= cache[idx - 1].date && start < cache[idx].date {
        return Ok(idx - 1);
      }
      idx := idx + 1;
    }
    if start < cache[0].date {
      return Ok(0);
    }
    return Ok(|cache| - 1);
  }

  // ------------------ list2DGrids ------------------

  /** The grid parameters OshdIO provides (the keys of grids_map). */
  datatype GridParam = ILWR | P | PSUM | RH | TA | VW | DW | ISWR_DIFF | ISWR_DIR | ALB

  /** grids_map: the variable name each grid parameter is read from. */
  const GridsMap: map<GridParam, string> :=
    map[ILWR := "ilwc", P := "pair", PSUM := "prec", RH := "rcor", TA := "tcor", VW := "wcor",
        DW := "wdir", ISWR_DIFF := "idfc", ISWR_DIR := "idrc", ALB := "albd"]

  /** Where list2DGrids stops: the first file not before `start` and dated after `end`. */
  predicate Stops(f: FileIndex, start: int, end: int)
  {
    !(f.date < start) && f.date > end
  }

  function BreakAt(c: seq<FileIndex>, start: int, end: int): (k: nat)
    ensures k <= |c|
    ensures k < |c| ==> Stops(c[k], start, end)
    ensures forall j :: 0 <= j < k ==> !Stops(c[j], start, end)
  {
    if c == [] then 0
    else if Stops(c[0], start, end) then 0
    else
      var k := BreakAt(c[1..], start, end);
      assert forall j :: 1 <= j <= k ==> c[j] == c[1..][j - 1];
      1 + k
  }

  /** The dates of the first n files that are not before `start`. */
  function DatesFrom(c: seq<FileIndex>, n: nat, start: int): set<int>
    requires n <= |c|
  {
    set k | 0 <= k < n && start <= c[k].date :: c[k].date
  }

  /** list2DGrids over the grid file cache. */
  method List2DGrids(c: seq<FileIndex>, start: int, end: int) returns (results: map<int, set<GridParam>>)
    ensures results.Keys == DatesFrom(c, BreakAt(c, start, end), start)
    ensures forall d :: d in results ==> results[d] == GridsMap.Keys
  {
    results := map[];
    var ii := 0;
    while ii < |c|
      invariant ii <= BreakAt(c, start, end)
      invariant results.Keys == DatesFrom(c, ii, start)
      invariant forall d :: d in results ==> results[d] == GridsMap.Keys
      decreases |c| - ii
    {
      var date := c[ii].date;
      if date < start {
        assert DatesFrom(c, ii + 1, start) == DatesFrom(c, ii, start);
        ii := ii + 1;
        continue;
      }
      if date > end {
        break;
      }
      var grids := if date in results then results[date] else {};
      grids := grids + GridsMap.Keys;
      results := results[date := grids];
      assert DatesFrom(c, ii + 1, start) == DatesFrom(c, ii, start) + {date};
      ii := ii + 1;
    }
  }

  /** On a cache sorted by date, list2DGrids lists every date of the period, and only those. */
  lemma ListedSorted(c: seq<FileIndex>, start: int, end: int)
    requires SortedByDate(c)
    ensures DatesFrom(c, BreakAt(c, start, end), start) == set k | 0 <= k < |c| && start <= c[k].date <= end :: c[k].date
  {
    var n := BreakAt(c, start, end);
    forall k | 0 <= k < |c| && start <= c[k].date <= end
      ensures k < n
    {
      assert n < |c| ==> c[n].date > c[k].date;
    }
  }
}
