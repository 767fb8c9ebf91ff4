/**
 * A MeteoData record as the editing, generator and resampling stacks see it:
 * a timestamp (possibly undefined), the station's identity, and a map from
 * parameter name to value in which a missing measurement is the nodata sentinel.
 */
module Meteo {
  import opened Common

  /** StationData as far as editing sees it: identity, and the position and slope METADATA may overwrite. */
  datatype StationMeta = StationMeta(stationId: string, stationName: string,
                                     lat: real, lon: real, alt: real, slope: real, azi: real)

  /** `date == None` is an undefined Date; `generated` holds the parameters flagged by setGenerated. */
  datatype Record = Record(date: Option<int>, meta: StationMeta, params: map<string, real>, generated: set<string>)

  /** operator()(name) on a record: the stored value, nodata for a parameter the record does not carry. */
  function Value(r: Record, p: string): (v: real)
    ensures p in r.params ==> v == r.params[p]
    ensures p !in r.params ==> v == Nodata
  {
    if p in r.params then r.params[p] else Nodata
  }

  /** addParameter: a missing parameter is added with a nodata value; an existing one is left as it is. */
  function AddParameter(r: Record, p: string): (r': Record)
    ensures p in r'.params && r'.params[p] == Value(r, p)
    ensures r'.params.Keys == r.params.Keys + {p}
    ensures forall q :: q in r.params ==> r'.params[q] == r.params[q]
    ensures r'.date == r.date && r'.meta == r.meta && r'.generated == r.generated
  {
    if p in r.params then r else r.(params := r.params[p := Nodata])
  }

  /** operator()(name) = v, adding the parameter when it is missing. */
  function SetValue(r: Record, p: string, v: real): (r': Record)
    ensures r'.params == r.params[p := v]
    ensures r'.date == r.date && r'.meta == r.meta && r'.generated == r.generated
  {
    r.(params := r.params[p := v])
  }

  /** reset: every parameter is kept but set to nodata. */
  function Reset(r: Record): (r': Record)
    ensures r'.params.Keys == r.params.Keys
    ensures forall q :: q in r'.params ==> r'.params[q] == Nodata
    ensures r'.date == r.date && r'.meta == r.meta && r'.generated == r.generated
  {
    r.(params := map q | q in r.params :: Nodata)
  }

  /** The station ID of a series, read from its first record as getStationID on front() does. */
  function FrontId(s: seq<Record>): (id: string)
    requires |s| > 0
    ensures id == s[0].meta.stationId
  {
    s[0].meta.stationId
  }

  /** The dates of a series, all that the restriction cursor looks at. */
  function DatesOf(s: seq<Record>): (d: seq<Option<int>>)
    ensures |d| == |s| && forall i :: 0 <= i < |s| ==> d[i] == s[i].date
  {
    seq(|s|, i requires 0 <= i < |s| => s[i].date)
  }
}
