/**
 * NetCDF Attribute Conventions for Dataset Discovery (plugins/libacdd):
 * an ordered list of (name, value, configuration key) attributes kept as
 * three parallel vectors, edited in MERGE, APPEND or REPLACE mode.
 */
module Acdd {
  import opened Common

  datatype Mode = Merge | Replace | Append

  datatype Attribute = Attribute(name: string, value: string, cfgKey: string)

  /** What the environment supplies to defaultInit: the clock, the login, the host and the library version. */
  datatype Environment = Environment(isoDate: string, isoZDate: string, logName: string,
                                     domainName: string, hostName: string, libVersion: string)

  /** The attributes defaultInit registers, in order. */
  function DefaultAttributes(env: Environment): (r: seq<Attribute>)
    ensures |r| == 30
  {
    [ Attribute("date_created", env.isoDate, ""),
      Attribute("creator_name", env.logName, "ACDD_CREATOR"),
      Attribute("creator_email", "", "ACDD_CREATOR_EMAIL"),
      Attribute("creator_institution", env.domainName, "ACDD_CREATOR_INSTITUTION"),
      Attribute("creator_url", env.domainName, "ACDD_CREATOR_URL"),
      Attribute("creator_type", "person", "ACDD_CREATOR_TYPE"),
      Attribute("institution", env.domainName, "ACDD_INSTITUTION"),
      Attribute("publisher_name", env.logName, "ACDD_PUBLISHER"),
      Attribute("publisher_email", "", "ACDD_PUBLISHER_EMAIL"),
      Attribute("publisher_url", env.domainName, "ACDD_PUBLISHER_URL"),
      Attribute("publisher_type", "person", "ACDD_PUBLISHER_TYPE"),
      Attribute("source", "MeteoIO-" + env.libVersion, "ACDD_SOURCE"),
      Attribute("history", env.isoZDate + ", " + env.logName + "@" + env.hostName + ", MeteoIO-" + env.libVersion, ""),
      Attribute("keywords_vocabulary", "AGU Index Terms", "ACDD_KEYWORDS_VOCABULARY"),
      Attribute("keywords", "Cryosphere, Mass Balance, Energy Balance, Atmosphere, Land/atmosphere interactions, Climatology", "ACDD_KEYWORDS"),
      Attribute("title", "", "ACDD_TITLE"),
      Attribute("project", "", "ACDD_PROJECT"),
      Attribute("program", "", "ACDD_PROGRAM"),
      Attribute("id", "", "ACDD_ID"),
      Attribute("references", "", "ACDD_REFERENCES"),
      Attribute("naming_authority", "", "ACDD_NAMING_AUTHORITY"),
      Attribute("processing_level", "", "ACDD_PROCESSING_LEVEL"),
      Attribute("summary", "", "ACDD_SUMMARY"),
      Attribute("comment", "", "ACDD_COMMENT"),
      Attribute("acknowledgement", "", "ACDD_ACKNOWLEDGEMENT"),
      Attribute("metadata_link", "", "ACDD_METADATA_LINK"),
      Attribute("license", "", "ACDD_LICENSE"),
      Attribute("product_version", "1.0", "ACDD_PRODUCT_VERSION"),
      Attribute("activity_type", "", "ACDD_ACTIVITY_TYPE"),
      Attribute("operational_status", "", "ACDD_OPERATIONAL_STATUS") ]
  }

  /** ACDD::find on a list of names: the first index holding `n`. */
  function FindName(names: seq<string>, n: string): (r: Option<nat>)
    ensures r.Some? ==> r.value < |names| && names[r.value] == n
    ensures r.Some? ==> forall j :: 0 <= j < r.value ==> names[j] != n
    ensures r.None? <==> n !in names
  {
    if names == [] then None
    else if names[0] == n then Some(0)
    else match FindName(names[1..], n)
      case None => None
      case Some(k) => Some(k + 1)
  }

  /** The attribute list after addAttribute(n, v, k, mode), or the exception it throws. */
  function Added(attrs: seq<Attribute>, n: string, v: string, k: string, mode: Mode): seq<Attribute>
  {
    var pos := FindName(Names(attrs), n);
    if mode == Merge && pos.Some? then
      var a := attrs[pos.value];
      attrs[pos.value := Attribute(a.name, if v != "" then v else a.value, if k != "" then k else a.cfgKey)]
    else if mode == Append && pos.Some? then
      var a := attrs[pos.value];
      attrs[pos.value := a.(value := a.value + ", " + v)]
    else attrs + [Attribute(n, v, k)]
  }

  function Names(attrs: seq<Attribute>): (r: seq<string>)
    ensures |r| == |attrs| && forall i :: 0 <= i < |attrs| ==> r[i] == attrs[i].name
  {
    seq(|attrs|, i requires 0 <= i < |attrs| => attrs[i].name)
  }

  class ACDD {
    var name: seq<string>
    var cfgKey: seq<string>
    var value: seq<string>
    var enabled: bool

    /** The three vectors are kept in step. */
    ghost predicate Valid()
      reads this
    {
      |name| == |cfgKey| == |value|
    }

    /** The attribute list the parallel vectors stand for. */
    function Attributes(): (r: seq<Attribute>)
      reads this
      requires Valid()
      ensures |r| == |name|
      ensures forall i :: 0 <= i < |r| ==> r[i] == Attribute(name[i], value[i], cfgKey[i])
    {
      seq(|name|, i requires 0 <= i < |name| && Valid() reads this => Attribute(name[i], value[i], cfgKey[i]))
    }

    /** ACDD(set_enable): store the flag and register the default attributes. */
    constructor (setEnable: bool, env: Environment)
      ensures Valid() && enabled == setEnable
      ensures Attributes() == DefaultAttributes(env)
    {
      var d := DefaultAttributes(env);
      name := seq(|d|, i requires 0 <= i < |d| => d[i].name);
      value := seq(|d|, i requires 0 <= i < |d| => d[i].value);
      cfgKey := seq(|d|, i requires 0 <= i < |d| => d[i].cfgKey);
      enabled := setEnable;
      new;
      assert Attributes() == d;
    }

    method SetEnabled(e: bool)
      modifies this`enabled
      ensures enabled == e
    {
      enabled := e;
    }

    function IsEnabled(): (r: bool)
      reads this
      ensures r == enabled
    {
      enabled
    }

    /** getNrAttributes: the number of attributes, or 0 when ACDD output is disabled. */
    function GetNrAttributes(): (r: nat)
      reads this
      ensures !enabled ==> r == 0
      ensures enabled ==> r == |name|
    {
      if enabled then |name| else 0
    }

    /** find: the first index whose name matches, linear search over `name`. */
    method Find(searchName: string) returns (r: Option<nat>)
      ensures r.Some? ==> r.value < |name| && name[r.value] == searchName
      ensures r.Some? ==> forall j :: 0 <= j < r.value ==> name[j] != searchName
      ensures r.None? <==> searchName !in name
    {
      var ii := 0;
      while ii < |name|
        invariant ii <= |name|
        invariant forall j :: 0 <= j < ii ==> name[j] != searchName
      {
        if name[ii] == searchName {
          return Some(ii);
        }
        ii := ii + 1;
      }
      return None;
    }

    /** getAttribute: the name and value at `ii`, or two empty strings out of range. */
    method GetAttribute(ii: nat) returns (attName: string, attValue: string)
      requires Valid()
      ensures ii < |name| ==> attName == name[ii] && attValue == value[ii]
      ensures ii >= |name| ==> attName == "" && attValue == ""
    {
      if ii < |name| {
        attName, attValue := name[ii], value[ii];
      } else {
        attName, attValue := "", "";
      }
    }

    /**
     * addAttribute: an empty name is an InvalidFormat error. MERGE on a known
     * name overwrites only with non-empty value and key; APPEND on a known name
     * extends the value with ", " and the new text; otherwise (REPLACE, or an
     * unknown name) a new triple is pushed at the end.
     */
    method AddAttribute(attName: string, attValue: string, attCfgKey: string, mode: Mode) returns (r: Result<()>)
      requires Valid()
      modifies this`name, this`value, this`cfgKey
      ensures Valid()
      ensures attName == "" ==> r == Err(InvalidFormat) && Attributes() == old(Attributes())
      ensures attName != "" ==> r.Ok? && Attributes() == Added(old(Attributes()), attName, attValue, attCfgKey, mode)
    {
      if attName == "" {
        return Err(InvalidFormat);
      }
      ghost var before := Attributes();
      assert Names(before) == name;
      var m := mode;
      if m == Merge {
        var pos := Find(attName);
        if pos.None? {
          m := Replace;
        } else {
          if attValue != "" { value := value[pos.value := attValue]; }
          if attCfgKey != "" { cfgKey := cfgKey[pos.value := attCfgKey]; }
          assert Attributes() == Added(before, attName, attValue, attCfgKey, mode);
          return Ok(());
        }
      } else if m == Append {
        var pos := Find(attName);
        if pos.None? {
          m := Replace;
        } else {
          value := value[pos.value := value[pos.value] + ", " + attValue];
          assert Attributes() == Added(before, attName, attValue, attCfgKey, mode);
          return Ok(());
        }
      }
      name := name + [attName];
      value := value + [attValue];
      cfgKey := cfgKey + [attCfgKey];
      assert Attributes() == Added(before, attName, attValue, attCfgKey, mode);
      return Ok(());
    }

    /** addAttribute(name, value) with the default arguments: no configuration key, MERGE mode. */
    method AddAttributeDefault(attName: string, attValue: string) returns (r: Result<()>)
      requires Valid()
      modifies this`name, this`value, this`cfgKey
      ensures Valid()
      ensures attName == "" ==> r == Err(InvalidFormat) && Attributes() == old(Attributes())
      ensures attName != "" ==> r.Ok? && Attributes() == Added(old(Attributes()), attName, attValue, "", Merge)
    {
      r := AddAttribute(attName, attValue, "", Merge);
    }
  }

  /** Adding in any mode keeps the earlier attributes' names, and never shrinks the list. */
  lemma AddedKeepsNames(attrs: seq<Attribute>, n: string, v: string, k: string, mode: Mode)
    ensures |attrs| <= |Added(attrs, n, v, k, mode)| <= |attrs| + 1
    ensures forall i :: 0 <= i < |attrs| ==> Added(attrs, n, v, k, mode)[i].name == attrs[i].name
    ensures n in Names(Added(attrs, n, v, k, mode))
  {
    var r := Added(attrs, n, v, k, mode);
    var pos := FindName(Names(attrs), n);
    if pos.None? || mode == Replace {
      assert r[|attrs|].name == n;
    } else {
      assert r[pos.value].name == n;
    }
  }

  /** REPLACE on a known name creates a duplicate: lookups still find the earlier entry. */
  lemma ReplaceShadowed(attrs: seq<Attribute>, n: string, v: string, k: string)
    requires n in Names(attrs)
    ensures FindName(Names(Added(attrs, n, v, k, Replace)), n) == FindName(Names(attrs), n)
    ensures |Added(attrs, n, v, k, Replace)| == |attrs| + 1
  {
    var r := Added(attrs, n, v, k, Replace);
    assert Names(r) == Names(attrs) + [n];
    FindNamePrefix(Names(attrs), [n], n);
  }

  lemma {:induction false} FindNamePrefix(a: seq<string>, b: seq<string>, n: string)
    requires n in a
    ensures FindName(a + b, n) == FindName(a, n)
  {
    if a[0] != n {
      assert (a + b)[1..] == a[1..] + b;
      FindNamePrefix(a[1..], b, n);
    }
  }

  /** MERGE with an empty value and key on a known name changes nothing. */
  lemma MergeEmptyIsNoOp(attrs: seq<Attribute>, n: string)
    requires n in Names(attrs)
    ensures Added(attrs, n, "", "", Merge) == attrs
  {
  }
}
