/**
 * Shared vocabulary of the MeteoIO model: optional values, results that
 * stand for the library's exceptions, the nodata sentinel and the few
 * string utilities (upper-casing, searching, prefix tests) the core relies on.
 */
module Common {

  datatype Option<T> = None | Some(value: T)

  /** The exception families thrown by the core; `Undefined` marks undefined behaviour, `Aborted` a call to std::abort. */
  datatype ErrorKind =
    | InvalidFormat
    | InvalidArgument
    | NotFound
    | UnknownValue
    | AccessError
    | IOError
    | OutOfRange
    | Undefined
    | Aborted

  datatype Result<T> = Ok(value: T) | Err(kind: ErrorKind)
  {
    predicate IsOk() { Ok? }
    predicate IsFailure() { Err? }
    function PropagateFailure<U>(): Result<U>
      requires Err?
    {
      Err(kind)
    }
    function Extract(): T
      requires Ok?
    {
      value
    }
  }

  /** IOUtils::nodata, the missing-value marker of MeteoIO. */
  const Nodata: real := -999.0
  /** IOUtils::inodata, the integer missing-value marker. */
  const INodata: int := -999

  /** Cst::t_water_freezing_pt, in Kelvin. */
  const FreezingPoint: real := 273.15

  function UpperChar(c: char): (u: char)
    ensures 'a' <= c <= 'z' ==> u as int == c as int - 32
    ensures !('a' <= c <= 'z') ==> u == c
  {
    if 'a' <= c <= 'z' then (c as int - 32) as char else c
  }

  /** IOUtils::strToUpper on ASCII letters. */
  function Upper(s: string): (u: string)
    ensures |u| == |s|
  {
    if s == [] then [] else [UpperChar(s[0])] + Upper(s[1..])
  }

  /** Upper-casing works character by character. */
  lemma {:induction false} UpperChars(s: string)
    ensures forall i :: 0 <= i < |s| ==> Upper(s)[i] == UpperChar(s[i])
  {
    if s != [] {
      UpperChars(s[1..]);
      assert forall i :: 1 <= i < |s| ==> Upper(s)[i] == Upper(s[1..])[i - 1];
    }
  }

  predicate IsUpperChar(c: char) { !('a' <= c <= 'z') }

  lemma UpperIdempotent(s: string)
    ensures Upper(Upper(s)) == Upper(s)
  {
    var u := Upper(s);
    UpperChars(s);
    UpperChars(u);
    assert forall i :: 0 <= i < |u| ==> UpperChar(u[i]) == u[i];
  }

  predicate StartsWith(s: string, p: string) { |p| <= |s| && s[..|p|] == p }

  predicate OccursAt(s: string, sub: string, i: nat) { i + |sub| <= |s| && s[i..i + |sub|] == sub }

  /** std::string::find: the first position at or after `from` where `sub` occurs. */
  function Find(s: string, sub: string, from: nat): (r: Option<nat>)
    decreases |s| - from
    ensures r.Some? ==> from <= r.value && OccursAt(s, sub, r.value)
    ensures r.Some? ==> forall j :: from <= j < r.value ==> !OccursAt(s, sub, j)
    ensures r.None? ==> forall j :: from <= j ==> !OccursAt(s, sub, j)
  {
    if from + |sub| > |s| then None
    else if OccursAt(s, sub, from) then Some(from)
    else Find(s, sub, from + 1)
  }

  /** Positions of a single character. */
  function FindChar(s: string, c: char, from: nat): (r: Option<nat>)
    ensures r.Some? ==> from <= r.value < |s| && s[r.value] == c
    ensures r.Some? ==> forall j :: from <= j < r.value ==> s[j] != c
    ensures r.None? ==> forall j :: from <= j < |s| ==> s[j] != c
    decreases |s| - from
  {
    if from >= |s| then None
    else if s[from] == c then Some(from)
    else FindChar(s, c, from + 1)
  }

  /** Number of occurrences of a character. */
  function CountChar(s: string, c: char): (n: nat)
    ensures n <= |s|
    ensures n == 0 <==> forall i :: 0 <= i < |s| ==> s[i] != c
  {
    if s == [] then 0 else (if s[0] == c then 1 else 0) + CountChar(s[1..], c)
  }

  /** IOUtils::split: the pieces between delimiters, empty pieces kept. */
  function Split(s: string, d: char): (r: seq<string>)
    ensures |r| == CountChar(s, d) + 1
    ensures forall k :: 0 <= k < |r| ==> d !in r[k]
    decreases |s|
  {
    match FindChar(s, d, 0)
    case None => [s]
    case Some(i) =>
      CountCharSplit(s, d, i);
      [s[..i]] + Split(s[i + 1..], d)
  }

  /** Split at the first delimiter, found at i. */
  lemma SplitFound(s: string, d: char, i: nat)
    requires FindChar(s, d, 0) == Some(i)
    ensures Split(s, d) == [s[..i]] + Split(s[i + 1..], d)
  {
  }

  /** Without a delimiter, Split gives the whole string. */
  lemma SplitNotFound(s: string, d: char)
    requires FindChar(s, d, 0).None?
    ensures Split(s, d) == [s]
  {
  }

  lemma CountCharSplit(s: string, d: char, i: nat)
    requires i < |s| && s[i] == d && forall j :: 0 <= j < i ==> s[j] != d
    ensures CountChar(s, d) == 1 + CountChar(s[i + 1..], d)
  {
    if i > 0 {
      assert s[1..][i - 1] == d;
      CountCharSplit(s[1..], d, i - 1);
      assert s[1..][i..] == s[i + 1..];
    }
  }
  /** The separators of stream extraction (`iss >> word`). */
  predicate IsSpace(c: char) { c == ' ' || c == '\t' || c == '\n' || c == '\r' || c == '\U{000C}' || c == '\U{000B}' }

  /** IOUtils::trim: leading and trailing white space removed. */
  function Trim(s: string): (r: string)
    ensures |r| <= |s|
    ensures r != "" ==> !IsSpace(r[0]) && !IsSpace(r[|r| - 1])
    decreases |s|
  {
    if s == [] then []
    else if IsSpace(s[0]) then Trim(s[1..])
    else if IsSpace(s[|s| - 1]) then Trim(s[..|s| - 1])
    else s
  }

  /** The leading run of non-space characters of `s`. */
  function WordAt(s: string): (w: string)
    ensures |w| <= |s| && w == s[..|w|]
    ensures forall i :: 0 <= i < |w| ==> !IsSpace(w[i])
    ensures |w| < |s| ==> IsSpace(s[|w|])
  {
    if s == [] || IsSpace(s[0]) then [] else [s[0]] + WordAt(s[1..])
  }

  /** The whitespace-separated words of a line, as repeated `iss >> word` reads them. */
  function Words(s: string): (ws: seq<string>)
    ensures forall k :: 0 <= k < |ws| ==> |ws[k]| > 0 && forall i :: 0 <= i < |ws[k]| ==> !IsSpace(ws[k][i])
    decreases |s|
  {
    if s == [] then []
    else if IsSpace(s[0]) then Words(s[1..])
    else
      var w := WordAt(s);
      [w] + Words(s[|w|..])
  }

  /** std::string operator<: lexicographic order on characters, a proper prefix first. */
  predicate Less(a: string, b: string)
  {
    if a == [] then b != []
    else b != [] && (a[0] < b[0] || (a[0] == b[0] && Less(a[1..], b[1..])))
  }

  lemma {:induction false} LessIrreflexive(a: string)
    ensures !Less(a, a)
  {
    if a != [] {
      LessIrreflexive(a[1..]);
    }
  }

  lemma {:induction false} LessTransitive(a: string, b: string, c: string)
    requires Less(a, b) && Less(b, c)
    ensures Less(a, c)
  {
    if a != [] && b != [] && c != [] && a[0] == b[0] && b[0] == c[0] {
      LessTransitive(a[1..], b[1..], c[1..]);
    }
  }

  lemma {:induction false} LessTotal(a: string, b: string)
    requires a != b
    ensures Less(a, b) || Less(b, a)
  {
    if a != [] && b != [] && a[0] == b[0] {
      assert a == [a[0]] + a[1..] && b == [b[0]] + b[1..];
      LessTotal(a[1..], b[1..]);
    }
  }

  /** Strictly increasing: the iteration order of a std::set<std::string>. */
  predicate SortedSet(s: seq<string>)
  {
    forall i, j :: 0 <= i < j < |s| ==> Less(s[i], s[j])
  }

  /** std::set::insert keeping the iteration order. */
  function Insert(s: seq<string>, w: string): (r: seq<string>)
    requires SortedSet(s)
    ensures SortedSet(r)
    ensures forall x :: x in r <==> x in s || x == w
  {
    if s == [] then [w]
    else if s[0] == w then s
    else if Less(w, s[0]) then
      assert forall j :: 0 < j < |s| ==> Less(s[0], s[j]);
      forall j | 0 <= j < |s| ensures Less(w, s[j]) {
        if j > 0 { LessTransitive(w, s[0], s[j]); }
      }
      [w] + s
    else
      LessTotal(w, s[0]);
      var t := Insert(s[1..], w);
      assert forall x :: x in t ==> x in s[1..] || x == w;
      forall j | 0 <= j < |t| ensures Less(s[0], t[j]) {
        assert t[j] in t;
        if t[j] != w {
          var k :| 0 <= k < |s[1..]| && s[1..][k] == t[j];
          assert s[k + 1] == t[j];
        }
      }
      [s[0]] + t
  }

  /** The std::set built from a list of words, in iteration order. */
  function ToSet(ws: seq<string>): (r: seq<string>)
    ensures SortedSet(r)
    ensures forall x :: x in r <==> x in ws
  {
    if ws == [] then []
    else
      var r0 := ToSet(ws[..|ws| - 1]);
      assert ws == ws[..|ws| - 1] + [ws[|ws| - 1]];
      Insert(r0, ws[|ws| - 1])
  }

  // ---------------------------------------------------------------- decimal text

  /** C++ integer division, which truncates toward zero. */
  function TruncDiv(a: int, b: int): (q: int)
    requires b > 0
    ensures a >= 0 ==> 0 <= a - q * b < b
    ensures a < 0 ==> -b < a - q * b <= 0
  {
    if a >= 0 then a / b else -((-a) / b)
  }

  predicate IsDigit(c: char) { '0' <= c <= '9' }

  predicate IsDigits(s: string) { |s| > 0 && forall i :: 0 <= i < |s| ==> IsDigit(s[i]) }

  function Pow10(k: nat): (p: nat)
    ensures p >= 1
  {
    if k == 0 then 1 else 10 * Pow10(k - 1)
  }

  /** std::to_string of a non-negative integer: its decimal digits, no leading zero. */
  function NatToString(n: nat): (s: string)
    ensures IsDigits(s)
    ensures |s| > 1 ==> s[0] != '0'
  {
    if n < 10 then [('0' as int + n) as char]
    else NatToString(n / 10) + [('0' as int + n % 10) as char]
  }

  /** std::to_string of an int: a minus sign before the digits of a negative value. */
  function IntToString(n: int): (s: string)
    ensures n >= 0 ==> s == NatToString(n)
    ensures n < 0 ==> s == "-" + NatToString(-n)
  {
    if n >= 0 then NatToString(n) else "-" + NatToString(-n)
  }

  /** The value of a string of decimal digits, read as a stream extraction of an integer reads it. */
  function DigitsValue(s: string): nat
    requires forall i :: 0 <= i < |s| ==> IsDigit(s[i])
  {
    if s == [] then 0
    else
      assert IsDigit(s[|s| - 1]);
      10 * DigitsValue(s[..|s| - 1]) + (s[|s| - 1] as int - '0' as int)
  }

  /** Reading the digits std::to_string writes gives the number back. */
  lemma {:induction false} NatToStringRoundTrip(n: nat)
    ensures DigitsValue(NatToString(n)) == n
  {
    if n >= 10 {
      NatToStringRoundTrip(n / 10);
      var s := NatToString(n);
      assert s[..|s| - 1] == NatToString(n / 10);
    }
  }

  /** `n` is written with at most `k` digits exactly when it is below 10^k. */
  lemma {:induction false} NatToStringLength(n: nat, k: nat)
    requires k >= 1
    ensures |NatToString(n)| <= k <==> n < Pow10(k)
  {
    if n >= 10 {
      if k == 1 {
        assert |NatToString(n / 10)| >= 1;
      } else {
        NatToStringLength(n / 10, k - 1);
      }
    } else if k > 1 {
      assert Pow10(k) == 10 * Pow10(k - 1);
    }
  }
}
