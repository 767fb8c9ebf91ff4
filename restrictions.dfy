/**
 * RestrictionsIdx (MeteoProcessor.h): a cursor over the [start, end) index
 * ranges of a time series that fall within the time restriction periods.
 * The start and end indices live in two parallel vectors selected by a single
 * index; npos (here `None`) means no period is left.
 */
module Restrictions {
  import opened Common

  /** One restriction period, as the index range [start, end) of a series. */
  datatype Period = Period(start: nat, end: nat)

  /** Every period lies within a series of length `n`. */
  predicate Fits(ps: seq<Period>, n: nat)
  {
    forall k :: 0 <= k < |ps| ==> ps[k].start <= ps[k].end <= n
  }

  class RestrictionsIdx {
    var start: seq<nat>
    var end: seq<nat>
    var index: Option<nat>

    ghost predicate Valid()
      reads this
    {
      |start| == |end| && (index.Some? ==> index.value < |start|)
    }

    /** The periods held by the cursor, in order. */
    function Periods(): (ps: seq<Period>)
      reads this`start, this`end
      requires |start| == |end|
      ensures |ps| == |start|
      ensures forall k :: 0 <= k < |ps| ==> ps[k] == Period(start[k], end[k])
    {
      var st, en := start, end;
      seq(|st|, k requires 0 <= k < |st| == |en| => Period(st[k], en[k]))
    }

    /** The periods not yet visited, the current one first; empty once the cursor is invalid. */
    function Remaining(): (ps: seq<Period>)
      reads this
      requires Valid()
      ensures index.None? ==> ps == []
      ensures index.Some? ==> ps == Periods()[index.value..]
    {
      if index.None? then [] else Periods()[index.value..]
    }

    /** The default constructor: no periods, and an invalid cursor. */
    constructor Empty()
      ensures Valid() && !IsValid()
      ensures Periods() == []
    {
      start, end, index := [], [], None;
    }

    /**
     * The cursor over the index ranges computed for one series; it starts on
     * the first period, or is invalid when there is none.
     */
    constructor (ps: seq<Period>)
      ensures Valid() && Periods() == ps
      ensures Remaining() == ps
      ensures IsValid() <==> ps != []
    {
      start := seq(|ps|, k requires 0 <= k < |ps| => ps[k].start);
      end := seq(|ps|, k requires 0 <= k < |ps| => ps[k].end);
      index := if ps == [] then None else Some(0);
      new;
      assert Periods() == ps;
    }

    /** isValid: the cursor index is not npos. */
    function IsValid(): (b: bool)
      reads this
      ensures b <==> index.Some?
    {
      index.Some?
    }

    function GetStart(): (s: nat)
      reads this
      requires Valid() && IsValid()
      ensures s == Remaining()[0].start
    {
      start[index.value]
    }

    function GetEnd(): (e: nat)
      reads this
      requires Valid() && IsValid()
      ensures e == Remaining()[0].end
    {
      end[index.value]
    }

    /** operator++: move to the next period, or become invalid after the last one. */
    method Next()
      requires Valid() && IsValid()
      modifies this`index
      ensures Valid() && start == old(start) && end == old(end)
      ensures Remaining() == old(Remaining())[1..]
      ensures |Remaining()| == |old(Remaining())| - 1
    {
      if index.value + 1 < |start| {
        index := Some(index.value + 1);
      } else {
        index := None;
      }
    }
  }

  /** Moving past the current period leaves the periods after it. */
  lemma RemainingAfter(ps: seq<Period>, k: nat)
    requires k < |ps|
    ensures ps[k..][0] == ps[k] && ps[k..][1..] == ps[k + 1..]
  {
  }

  /** Once the cursor is invalid no period remains, and while it is valid the current period is the next one of the list. */
  lemma InvalidMeansDone(c: RestrictionsIdx)
    requires c.Valid()
    ensures !c.IsValid() <==> c.Remaining() == []
    ensures c.IsValid() ==> c.Remaining()[0] == Period(c.GetStart(), c.GetEnd())
  {
  }
}
