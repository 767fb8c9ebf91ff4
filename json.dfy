/**
 * JsonWrapper: dotted-path queries over a parsed JSON tree ("$.a.b"), as the
 * JSON-based plugins use them to pull strings and numbers out of a web
 * service's answer. Objects keep their members in the order picojson's
 * std::map iterates them.
 */
module Json {
  import opened Common

  /** picojson::value. */
  datatype Value =
    | Null
    | Bool(b: bool)
    | Number(x: real)
    | Str(s: string)
    | Array(items: seq<Value>)
    | Object(members: seq<(string, Value)>)

  // ------------------ paths ------------------

  /** std::string::operator[]: the character at i, '\0' at the end. */
  function At(path: string, i: nat): char
  {
    if i < |path| then path[i] else '\0'
  }

  /** Cut the path at the first '.' from `start` on: the local key and the remaining path. */
  function SplitAt(path: string, start: nat): (r: (string, string))
    requires start <= |path|
  {
    match FindChar(path, '.', start)
    case None => (path[start..], "")
    case Some(e) => (path[start..e], path[e + 1..])
  }

  /** Where the local key starts, as written: one past a leading '$', and one more if the SECOND character is '.'. */
  function StartAsWritten(path: string): (k: nat)
    requires |path| > 0
    ensures k <= |path|
  {
    (if path[0] == '$' then 1 else 0) + (if At(path, 1) == '.' then 1 else 0)
  }

  function SplitPathAsWritten(path: string): (string, string)
    requires |path| > 0
  {
    SplitAt(path, StartAsWritten(path))
  }

  /** Where the local key starts: after a leading "$." or "$". */
  function Start(path: string): (k: nat)
    requires |path| > 0
    ensures k <= |path|
  {
    if path[0] == '$' then (if At(path, 1) == '.' then 2 else 1) else 0
  }

  function SplitPath(path: string): (string, string)
    requires |path| > 0
  {
    SplitAt(path, Start(path))
  }

  /** A key a dotted path can name. */
  predicate ValidKey(k: string)
  {
    |k| > 0 && k[0] != '$' && '.' !in k
  }

  predicate ValidKeys(keys: seq<string>)
  {
    forall i :: 0 <= i < |keys| ==> ValidKey(keys[i])
  }

  /** The keys joined by '.'. */
  function JoinKeys(keys: seq<string>): (p: string)
    requires |keys| > 0
    ensures |p| > 0 || keys[0] == []
  {
    if |keys| == 1 then keys[0] else keys[0] + "." + JoinKeys(keys[1..])
  }

  /** The path that is left after the first key. */
  function RestPath(keys: seq<string>): string
  {
    if |keys| <= 1 then "" else JoinKeys(keys[1..])
  }

  /** The JSONPath of a sequence of keys. */
  function PathOf(keys: seq<string>): string
    requires |keys| > 0
  {
    "$." + JoinKeys(keys)
  }

  /** FindChar finds the first '.' from `from` on. */
  lemma {:induction false} FindDotAt(s: string, from: nat, e: nat)
    requires from <= e < |s| && s[e] == '.' && forall j :: from <= j < e ==> s[j] != '.'
    ensures FindChar(s, '.', from) == Some(e)
    decreases e - from
  {
    if from < e {
      FindDotAt(s, from + 1, e);
    }
  }

  /** Splitting a joined path gives back its first key and the rest of it. */
  lemma {:induction false} SplitJoin(keys: seq<string>)
    requires |keys| > 0 && ValidKeys(keys)
    ensures SplitPath(JoinKeys(keys)) == (keys[0], RestPath(keys))
    ensures SplitPath(PathOf(keys)) == (keys[0], RestPath(keys))
  {
    var k := keys[0];
    assert ValidKey(k);
    var j := JoinKeys(keys);
    var p := PathOf(keys);
    assert p[0] == '$' && p[1] == '.';
    assert Start(p) == 2;
    if |keys| == 1 {
      assert j == k && Start(j) == 0;
      assert FindChar(j, '.', 0).None?;
      assert p[2..] == k;
      assert FindChar(p, '.', 2).None? by {
        NoDotFrom(p, 2);
      }
    } else {
      var rest := JoinKeys(keys[1..]);
      assert j == k + "." + rest;
      assert Start(j) == 0;
      assert j[|k|] == '.';
      FindDotAt(j, 0, |k|);
      assert j[..|k|] == k && j[|k| + 1..] == rest;
      assert p == "$." + k + "." + rest;
      assert p[2 + |k|] == '.';
      FindDotAt(p, 2, 2 + |k|);
      assert p[2..2 + |k|] == k && p[2 + |k| + 1..] == rest;
    }
  }

  /** No '.' from `from` on means FindChar finds nothing. */
  lemma {:induction false} NoDotFrom(s: string, from: nat)
    requires from <= |s| && '.' !in s[from..]
    ensures FindChar(s, '.', from).None?
    decreases |s| - from
  {
    if from < |s| {
      assert s[from] == s[from..][0];
      assert s[from + 1..] == s[from..][1..];
      NoDotFrom(s, from + 1);
    }
  }

  // ------------------ JSONQuery ------------------

  /**
   * JSONQuery: nothing on a value that is not an object; otherwise, for
   * each member named by the local key, the member itself when the path
   * ends there, else the query of the remaining path on it (on each of its
   * elements when it is an array).
   */
  function Query(path: string, v: Value): seq<Value>
    requires |path| > 0
    decreases v, 2
  {
    if !v.Object? then []
    else
      var (local, rest) := SplitPath(path);
      QueryMembers(local, rest, v, |v.members|)
  }

  /** The results the first n members of v contribute. */
  function QueryMembers(local: string, rest: string, v: Value, n: nat): seq<Value>
    requires v.Object? && n <= |v.members|
    decreases v, 1, n
  {
    if n == 0 then []
    else
      var (key, val) := v.members[n - 1];
      QueryMembers(local, rest, v, n - 1) +
      (if key != local then []
       else if rest == "" then [val]
       else if val.Array? then QueryEach(rest, val, |val.items|)
       else Query(rest, val))
  }

  /** The results of the query on the first n elements of an array. */
  function QueryEach(path: string, arr: Value, n: nat): seq<Value>
    requires |path| > 0 && arr.Array? && n <= |arr.items|
    decreases arr, 1, n
  {
    if n == 0 then [] else QueryEach(path, arr, n - 1) + Query(path, arr.items[n - 1])
  }

  /** JSONQuery(path, v, results): appends the query's results to `results`. */
  method JSONQuery(path: string, v: Value, results: seq<Value>) returns (out: seq<Value>)
    requires |path| > 0
    ensures out == results + Query(path, v)
    decreases v, 2
  {
    if v.Null? {
      return results;
    }
    if !v.Object? {
      return results;
    }
    var (local, rest) := SplitPath(path);
    out := results;
    for i := 0 to |v.members|
      invariant out == results + QueryMembers(local, rest, v, i)
    {
      var (key, val) := v.members[i];
      if key == local {
        if rest != "" {
          if val.Array? {
            for j := 0 to |val.items|
              invariant out == results + QueryMembers(local, rest, v, i) + QueryEach(rest, val, j)
            {
              out := JSONQuery(rest, val.items[j], out);
            }
          } else {
            out := JSONQuery(rest, val, out);
          }
        } else {
          out := out + [val];
        }
      }
    }
  }

  // ------------------ the query in terms of keys ------------------

  /** The values reached by following the keys, flattening arrays met before the last key. */
  function Follow(keys: seq<string>, v: Value): seq<Value>
    requires |keys| > 0
    decreases v, 2
  {
    if !v.Object? then [] else FollowMembers(keys, v, |v.members|)
  }

  function FollowMembers(keys: seq<string>, v: Value, n: nat): seq<Value>
    requires |keys| > 0 && v.Object? && n <= |v.members|
    decreases v, 1, n
  {
    if n == 0 then []
    else
      var (key, val) := v.members[n - 1];
      FollowMembers(keys, v, n - 1) + (if key != keys[0] then [] else Reached(keys[1..], val))
  }

  /** What a member contributes when the remaining keys are `ks`. */
  function Reached(ks: seq<string>, val: Value): seq<Value>
    decreases val, 3
  {
    if ks == [] then [val]
    else if val.Array? then FollowEach(ks, val, |val.items|)
    else Follow(ks, val)
  }

  function FollowEach(keys: seq<string>, arr: Value, n: nat): seq<Value>
    requires |keys| > 0 && arr.Array? && n <= |arr.items|
    decreases arr, 1, n
  {
    if n == 0 then [] else FollowEach(keys, arr, n - 1) + Follow(keys, arr.items[n - 1])
  }

  /** Querying by the joined keys follows the keys. */
  lemma {:induction false} QueryFollow(keys: seq<string>, v: Value)
    requires |keys| > 0 && ValidKeys(keys)
    ensures |JoinKeys(keys)| > 0 && Query(JoinKeys(keys), v) == Follow(keys, v)
    ensures Query(PathOf(keys), v) == Follow(keys, v)
    decreases v, 2
  {
    SplitJoin(keys);
    assert ValidKey(keys[0]);
    if v.Object? {
      QueryFollowMembers(keys, v, |v.members|);
    }
  }

  lemma {:induction false} QueryFollowMembers(keys: seq<string>, v: Value, n: nat)
    requires |keys| > 0 && ValidKeys(keys) && v.Object? && n <= |v.members|
    ensures QueryMembers(keys[0], RestPath(keys), v, n) == FollowMembers(keys, v, n)
    decreases v, 1, n
  {
    if n > 0 {
      QueryFollowMembers(keys, v, n - 1);
      var (key, val) := v.members[n - 1];
      if key == keys[0] && |keys| > 1 {
        var ks := keys[1..];
        assert ValidKeys(ks) by {
          forall i | 0 <= i < |ks|
            ensures ValidKey(ks[i])
          {
            assert ks[i] == keys[i + 1];
          }
        }
        assert ValidKey(ks[0]);
        assert RestPath(keys) == JoinKeys(ks);
        if val.Array? {
          QueryFollowEach(ks, val, |val.items|);
        } else {
          QueryFollow(ks, val);
        }
      }
    }
  }

  lemma {:induction false} QueryFollowEach(keys: seq<string>, arr: Value, n: nat)
    requires |keys| > 0 && ValidKeys(keys) && arr.Array? && n <= |arr.items|
    ensures |JoinKeys(keys)| > 0 && QueryEach(JoinKeys(keys), arr, n) == FollowEach(keys, arr, n)
    decreases arr, 1, n
  {
    assert ValidKey(keys[0]);
    if n > 0 {
      QueryFollowEach(keys, arr, n - 1);
      QueryFollow(keys, arr.items[n - 1]);
    }
  }

  /** The as-written split: a one-character key after the first is looked up as the empty key. */
  lemma SingleCharKeyLost()
    ensures SplitPathAsWritten("$.a.b.c") == ("a", "b.c")
    ensures SplitPathAsWritten("b.c") == ("", "c")
    ensures SplitPath("b.c") == ("b", "c")
  {
    var p, q := "$.a.b.c", "b.c";
    assert p[0] == '$' && p[1] == '.' && p[2] == 'a' && p[3] == '.';
    FindDotAt(p, 2, 3);
    assert p[2..3] == "a" && p[4..] == "b.c";
    assert q[0] == 'b' && q[1] == '.';
    assert StartAsWritten(q) == 1 && Start(q) == 0;
    FindDotAt(q, 1, 1);
    FindDotAt(q, 0, 1);
    assert q[1..1] == "" && q[2..] == "c" && q[0..1] == "b";
  }

  // ------------------ goToJSONPath ------------------

  /** The position of the first member named `key`. */
  function FirstMember(ms: seq<(string, Value)>, key: string): (r: Option<nat>)
    ensures r.Some? ==> r.value < |ms| && ms[r.value].0 == key
    ensures r.Some? ==> forall i :: 0 <= i < r.value ==> ms[i].0 != key
    ensures r.None? ==> forall i :: 0 <= i < |ms| ==> ms[i].0 != key
  {
    if ms == [] then None
    else if ms[0].0 == key then Some(0)
    else match FirstMember(ms[1..], key)
      case None => None
      case Some(i) =>
        assert forall j :: 1 <= j <= i + 1 ==> ms[j] == ms[1..][j - 1];
        Some(i + 1)
  }

  /** goToJSONPath as written: the recursive call's value is dropped, so only one-key paths reach anything. */
  function GoToJSONPathAsWritten(path: string, v: Value): Value
    requires |path| > 0
  {
    if !v.Object? then Null
    else
      var (local, rest) := SplitPathAsWritten(path);
      match FirstMember(v.members, local)
      case None => Null
      case Some(i) => if rest != "" then Null else v.members[i].1
  }

  /** As written, a path with more than one key always yields null. */
  lemma DeeperPathIsNull(path: string, v: Value)
    requires |path| > 0 && SplitPathAsWritten(path).1 != ""
    ensures GoToJSONPathAsWritten(path, v) == Null
  {
  }

  /** The object {"a": {"bb": 1}}. */
  function Nested(): Value
  {
    Object([("a", Object([("bb", Number(1.0))]))])
  }

  /** "$.a.bb" on {"a": {"bb": 1}}: null as written, 1 when the recursive value is returned. */
  lemma GoToNestedExample()
    ensures GoToJSONPathAsWritten("$.a.bb", Nested()) == Null
    ensures GoToJSONPath("$.a.bb", Nested()) == Number(1.0)
  {
    var p, q := "$.a.bb", "bb";
    assert p[0] == '$' && p[1] == '.' && p[2] == 'a' && p[3] == '.';
    assert StartAsWritten(p) == 2 && Start(p) == 2;
    FindDotAt(p, 2, 3);
    assert p[2..3] == "a" && p[4..] == "bb";
    assert SplitPath(p) == ("a", "bb");
    assert Start(q) == 0;
    NoDotFrom(q, 0);
    assert q[0..] == q;
    assert SplitPath(q) == ("bb", "");
  }

  /** goToJSONPath: the value reached through the first member named by each key, null when there is none. */
  function GoToJSONPath(path: string, v: Value): Value
    requires |path| > 0
    decreases v
  {
    if !v.Object? then Null
    else
      var (local, rest) := SplitPath(path);
      match FirstMember(v.members, local)
      case None => Null
      case Some(i) => if rest != "" then GoToJSONPath(rest, v.members[i].1) else v.members[i].1
  }

  /** A member's contribution is part of the results of the members after it. */
  lemma {:induction false} FollowMembersGrow(keys: seq<string>, v: Value, f: nat, n: nat)
    requires |keys| > 0 && v.Object? && f < n <= |v.members| && v.members[f].0 == keys[0]
    ensures forall x :: x in Reached(keys[1..], v.members[f].1) ==> x in FollowMembers(keys, v, n)
  {
    if n > f + 1 {
      FollowMembersGrow(keys, v, f, n - 1);
    }
  }

  /** A non-null goToJSONPath value is one of JSONQuery's results for the same path. */
  lemma {:induction false} GoToInQuery(keys: seq<string>, v: Value)
    requires |keys| > 0 && ValidKeys(keys)
    ensures GoToJSONPath(PathOf(keys), v) != Null ==> GoToJSONPath(PathOf(keys), v) in Query(PathOf(keys), v)
  {
    SplitJoin(keys);
    QueryFollow(keys, v);
    GoToFollow(keys, v);
  }

  lemma {:induction false} GoToFollow(keys: seq<string>, v: Value)
    requires |keys| > 0 && ValidKeys(keys)
    ensures SplitPath(PathOf(keys)) == SplitPath(JoinKeys(keys))
    ensures GoToJSONPath(JoinKeys(keys), v) != Null ==> GoToJSONPath(JoinKeys(keys), v) in Follow(keys, v)
    ensures GoToJSONPath(PathOf(keys), v) == GoToJSONPath(JoinKeys(keys), v)
    decreases v
  {
    SplitJoin(keys);
    assert ValidKey(keys[0]);
    if v.Object? {
      var f := FirstMember(v.members, keys[0]);
      if f.Some? {
        var val := v.members[f.value].1;
        FollowMembersGrow(keys, v, f.value, |v.members|);
        if |keys| > 1 {
          var ks := keys[1..];
          assert ValidKeys(ks) by {
            forall i | 0 <= i < |ks|
              ensures ValidKey(ks[i])
            {
              assert ks[i] == keys[i + 1];
            }
          }
          assert ValidKey(ks[0]);
          assert RestPath(keys) == JoinKeys(ks);
          GoToFollow(ks, val);
        }
      }
    }
  }

  // ------------------ getters ------------------

  /** getString: the first result when it is a string, else "". */
  function GetString(path: string, v: Value): string
    requires |path| > 0
  {
    var rs := Query(path, v);
    if |rs| > 0 && rs[0].Str? then rs[0].s else ""
  }

  /** getDouble: the first result when it is a number, else nodata. */
  function GetDouble(path: string, v: Value): real
    requires |path| > 0
  {
    var rs := Query(path, v);
    if |rs| > 0 && rs[0].Number? then rs[0].x else Nodata
  }

  /** The results with each array replaced by its elements. */
  function Flatten(rs: seq<Value>): seq<Value>
  {
    if rs == [] then []
    else Flatten(rs[..|rs| - 1]) + (if rs[|rs| - 1].Array? then rs[|rs| - 1].items else [rs[|rs| - 1]])
  }

  function StringsOf(vs: seq<Value>): seq<string>
  {
    if vs == [] then [] else StringsOf(vs[..|vs| - 1]) + (if vs[|vs| - 1].Str? then [vs[|vs| - 1].s] else [])
  }

  function NumbersOf(vs: seq<Value>): seq<real>
  {
    if vs == [] then [] else NumbersOf(vs[..|vs| - 1]) + (if vs[|vs| - 1].Number? then [vs[|vs| - 1].x] else [])
  }

  lemma {:induction false} StringsOfAppend(a: seq<Value>, b: seq<Value>)
    ensures StringsOf(a + b) == StringsOf(a) + StringsOf(b)
  {
    if b == [] {
      assert a + b == a;
    } else {
      StringsOfAppend(a, b[..|b| - 1]);
      assert (a + b)[..|a + b| - 1] == a + b[..|b| - 1];
      assert (a + b)[|a + b| - 1] == b[|b| - 1];
    }
  }

  lemma {:induction false} NumbersOfAppend(a: seq<Value>, b: seq<Value>)
    ensures NumbersOf(a + b) == NumbersOf(a) + NumbersOf(b)
  {
    if b == [] {
      assert a + b == a;
    } else {
      NumbersOfAppend(a, b[..|b| - 1]);
      assert (a + b)[..|a + b| - 1] == a + b[..|b| - 1];
      assert (a + b)[|a + b| - 1] == b[|b| - 1];
    }
  }

  /** The strings kept are exactly those among the values, in their order. */
  lemma {:induction false} StringsOfMeaning(vs: seq<Value>)
    ensures |StringsOf(vs)| <= |vs|
    ensures forall s :: s in StringsOf(vs) <==> Str(s) in vs
  {
    if vs != [] {
      var init := vs[..|vs| - 1];
      StringsOfMeaning(init);
      assert vs == init + [vs[|vs| - 1]];
    }
  }

  lemma {:induction false} NumbersOfMeaning(vs: seq<Value>)
    ensures |NumbersOf(vs)| <= |vs|
    ensures forall x :: x in NumbersOf(vs) <==> Number(x) in vs
  {
    if vs != [] {
      var init := vs[..|vs| - 1];
      NumbersOfMeaning(init);
      assert vs == init + [vs[|vs| - 1]];
    }
  }

  /** An array result contributes its elements, any other result itself. */
  lemma {:induction false} FlattenMeaning(rs: seq<Value>)
    ensures forall x :: x in Flatten(rs) <==>
              (x in rs && !x.Array?) || exists i :: 0 <= i < |rs| && rs[i].Array? && x in rs[i].items
  {
    if rs != [] {
      var init := rs[..|rs| - 1];
      FlattenMeaning(init);
      assert rs == init + [rs[|rs| - 1]];
      forall x
        ensures x in Flatten(rs) <==>
                (x in rs && !x.Array?) || exists i :: 0 <= i < |rs| && rs[i].Array? && x in rs[i].items
      {
        if exists i :: 0 <= i < |rs| && rs[i].Array? && x in rs[i].items {
          var i :| 0 <= i < |rs| && rs[i].Array? && x in rs[i].items;
          if i < |init| {
            assert init[i] == rs[i];
          }
        }
        if exists i :: 0 <= i < |init| && init[i].Array? && x in init[i].items {
          var i :| 0 <= i < |init| && init[i].Array? && x in init[i].items;
          assert rs[i] == init[i];
        }
      }
    }
  }

  lemma {:induction false} StringsOfFirst(vs: seq<Value>)
    requires |vs| > 0 && vs[0].Str?
    ensures |StringsOf(vs)| > 0 && StringsOf(vs)[0] == vs[0].s
  {
    if |vs| > 1 {
      StringsOfFirst(vs[..|vs| - 1]);
    }
  }

  lemma {:induction false} NumbersOfFirst(vs: seq<Value>)
    requires |vs| > 0 && vs[0].Number?
    ensures |NumbersOf(vs)| > 0 && NumbersOf(vs)[0] == vs[0].x
  {
    if |vs| > 1 {
      NumbersOfFirst(vs[..|vs| - 1]);
    }
  }

  lemma {:induction false} FlattenFirst(rs: seq<Value>)
    requires |rs| > 0 && !rs[0].Array?
    ensures |Flatten(rs)| > 0 && Flatten(rs)[0] == rs[0]
  {
    if |rs| > 1 {
      FlattenFirst(rs[..|rs| - 1]);
    }
  }

  /** getStrings: the string results, and the strings inside array results, in order. */
  method GetStrings(path: string, v: Value) returns (vecString: seq<string>)
    requires |path| > 0
    ensures vecString == StringsOf(Flatten(Query(path, v)))
  {
    var results := JSONQuery(path, v, []);
    vecString := [];
    for i := 0 to |results|
      invariant vecString == StringsOf(Flatten(results[..i]))
    {
      assert results[..i + 1][..i] == results[..i];
      var result := results[i];
      if result.Array? {
        ghost var before := vecString;
        for j := 0 to |result.items|
          invariant vecString == before + StringsOf(result.items[..j])
        {
          assert result.items[..j + 1][..j] == result.items[..j];
          if result.items[j].Str? {
            vecString := vecString + [result.items[j].s];
          }
        }
        assert result.items[..|result.items|] == result.items;
        StringsOfAppend(Flatten(results[..i]), result.items);
      } else if result.Str? {
        vecString := vecString + [result.s];
      }
    }
    assert results[..|results|] == results;
  }

  /** getDoubles: the numeric results, and the numbers inside array results, in order. */
  method GetDoubles(path: string, v: Value) returns (vecDouble: seq<real>)
    requires |path| > 0
    ensures vecDouble == NumbersOf(Flatten(Query(path, v)))
  {
    var results := JSONQuery(path, v, []);
    vecDouble := [];
    for i := 0 to |results|
      invariant vecDouble == NumbersOf(Flatten(results[..i]))
    {
      assert results[..i + 1][..i] == results[..i];
      var result := results[i];
      if result.Array? {
        ghost var before := vecDouble;
        for j := 0 to |result.items|
          invariant vecDouble == before + NumbersOf(result.items[..j])
        {
          assert result.items[..j + 1][..j] == result.items[..j];
          if result.items[j].Number? {
            vecDouble := vecDouble + [result.items[j].x];
          }
        }
        assert result.items[..|result.items|] == result.items;
        NumbersOfAppend(Flatten(results[..i]), result.items);
      } else if result.Number? {
        vecDouble := vecDouble + [result.x];
      }
    }
    assert results[..|results|] == results;
  }

  /**
   * getString and getStrings agree on a first result that is a string;
   * getString gives "" when the first result is anything else.
   */
  lemma GetStringMeaning(path: string, v: Value)
    requires |path| > 0
    ensures var rs := Query(path, v);
      (|rs| > 0 && rs[0].Str? ==> |StringsOf(Flatten(rs))| > 0 && GetString(path, v) == StringsOf(Flatten(rs))[0]) &&
      (!(|rs| > 0 && rs[0].Str?) ==> GetString(path, v) == "")
  {
    var rs := Query(path, v);
    if |rs| > 0 && rs[0].Str? {
      FlattenFirst(rs);
      StringsOfFirst(Flatten(rs));
    }
  }

  lemma GetDoubleMeaning(path: string, v: Value)
    requires |path| > 0
    ensures var rs := Query(path, v);
      (|rs| > 0 && rs[0].Number? ==> |NumbersOf(Flatten(rs))| > 0 && GetDouble(path, v) == NumbersOf(Flatten(rs))[0]) &&
      (!(|rs| > 0 && rs[0].Number?) ==> GetDouble(path, v) == Nodata)
  {
    var rs := Query(path, v);
    if |rs| > 0 && rs[0].Number? {
      FlattenFirst(rs);
      NumbersOfFirst(Flatten(rs));
    }
  }
}
