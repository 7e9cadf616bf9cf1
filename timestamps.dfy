/** The record normaliser: the one timestamp conversion the four metric
    calculations share. */
module Timestamps {
  import opened Wrappers
  import opened PyValues

  /** `datetime.fromisoformat`, which the model leaves abstract: it is a
      parameter of every operation that parses timestamps. */
  type Parser = string -> Option<Time>

  /** The string handed to the parser: every `Z` becomes `+00:00`, so that an
      RFC 3339 section 5.6 UTC designator is read as an offset. */
  function Zulu(s: string): (r: string)
    ensures 'Z' !in r
    ensures 'Z' !in s ==> r == s
  {
    ReplaceAll(s, 'Z', "+00:00")
  }

  /** A timestamp field as a time: a falsy value gives none, a string is parsed
      after `Z` is rewritten, a datetime is kept, any other value gives none. */
  function Normalize(v: Value, parse: Parser): (r: Option<Time>)
    ensures !Truthy(v) ==> r == None
    ensures v.VTime? ==> r == Some(v.t)
    ensures v.VStr? && v.s != "" ==> r == parse(Zulu(v.s))
    ensures !v.VStr? && !v.VTime? ==> r == None
  {
    if !Truthy(v) then None
    else match v
      case VStr(s) => parse(Zulu(s))
      case VTime(t) => Some(t)
      case _ => None
  }

  /** `(b - a).total_seconds() / 3600`. */
  function Hours(a: Time, b: Time): (h: real)
    ensures h * 3600.0 == (b.seconds - a.seconds) as real
    ensures h >= 0.0 <==> a.seconds <= b.seconds
    ensures h == 0.0 <==> a.seconds == b.seconds
  {
    (b.seconds - a.seconds) as real / 3600.0
  }

  /** `(b - a).days`: whole days, rounded down, also for a negative span. */
  function WholeDays(a: Time, b: Time): (days: int)
    ensures days * 86400 <= b.seconds - a.seconds < (days + 1) * 86400
    ensures days >= 0 <==> a.seconds <= b.seconds
  {
    (b.seconds - a.seconds) / 86400
  }

  /** Every time is of one kind, all naive or all aware, so Python can compare
      and subtract any two of them. */
  predicate OneKind(ts: seq<Time>) {
    forall i :: 0 <= i < |ts| ==> ts[i].aware == ts[0].aware
  }

  /** The earliest time of a non-empty sequence (`min`). */
  function Earliest(ts: seq<Time>): (t: Time)
    requires ts != []
    ensures t in ts
    ensures forall k :: 0 <= k < |ts| ==> t.seconds <= ts[k].seconds
  {
    if |ts| == 1 then ts[0]
    else
      var rest := Earliest(ts[1..]);
      if ts[0].seconds <= rest.seconds then ts[0] else rest
  }

  /** The latest time of a non-empty sequence (`max`). */
  function Latest(ts: seq<Time>): (t: Time)
    requires ts != []
    ensures t in ts
    ensures forall k :: 0 <= k < |ts| ==> ts[k].seconds <= t.seconds
  {
    if |ts| == 1 then ts[0]
    else
      var rest := Latest(ts[1..]);
      if ts[0].seconds >= rest.seconds then ts[0] else rest
  }
}
