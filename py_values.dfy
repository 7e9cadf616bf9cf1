/** The Python values the system passes around: records, events and
    configuration sections are dictionaries from strings to these values. */
module PyValues {

  /** A `datetime`, in whole seconds. An aware datetime counts seconds since
      the UTC epoch; a naive one counts wall-clock seconds. Python refuses to
      compare or subtract a naive and an aware datetime. */
  datatype Time = Time(seconds: int, aware: bool)

  datatype Value =
    | VNone
    | VBool(b: bool)
    | VInt(i: int)
    | VReal(r: real)
    | VStr(s: string)
    | VTime(t: Time)
    | VList(items: seq<Value>)
    | VTuple(elems: seq<Value>)
    | VDict(entries: map<string, Value>)

  /** A Python `dict` with string keys. */
  type Dict = map<string, Value>

  /** Python truthiness: `None`, `False`, zero, and empty strings and
      containers are falsy; every datetime is truthy. */
  predicate Truthy(v: Value) {
    match v
    case VNone => false
    case VBool(b) => b
    case VInt(i) => i != 0
    case VReal(r) => r != 0.0
    case VStr(s) => s != ""
    case VTime(_) => true
    case VList(items) => items != []
    case VTuple(elems) => elems != []
    case VDict(m) => m != map[]
  }

  /** `d.get(key)`: the value, or `None` when the key is absent. */
  function Get(d: Dict, key: string): (v: Value)
    ensures key !in d ==> v == VNone
  {
    if key in d then d[key] else VNone
  }

  /** `d.get(key, default)`. */
  function GetOr(d: Dict, key: string, default: Value): (v: Value)
    ensures key !in d ==> v == default
  {
    if key in d then d[key] else default
  }

  /** Python's `a or b`: the first operand when it is truthy, else the second. */
  function Or(a: Value, b: Value): (r: Value)
    ensures Truthy(a) ==> r == a
    ensures !Truthy(a) ==> r == b
  {
    if Truthy(a) then a else b
  }

  /** Python's `isinstance(v, int)`: booleans are integers in Python. */
  predicate IsInt(v: Value) {
    v.VInt? || v.VBool?
  }

  /** The integer value of an `int` or a `bool`. */
  function IntOf(v: Value): int
    requires IsInt(v)
  {
    if v.VInt? then v.i else if v.b then 1 else 0
  }

  /** `d.get(key, {})` is a dictionary, so `.get('name')` can be called on it. */
  predicate NestedIsDict(d: Dict, key: string) {
    key !in d || d[key].VDict?
  }

  /** `d.get(key, {}).get('name')`. */
  function NestedName(d: Dict, key: string): Value
    requires NestedIsDict(d, key)
  {
    if key in d then Get(d[key].entries, "name") else VNone
  }

  /** A number that `sum` and `/` accept. */
  predicate IsNumber(v: Value) {
    v.VInt? || v.VBool? || v.VReal?
  }

  function RealOf(v: Value): real
    requires IsNumber(v)
  {
    if v.VReal? then v.r else IntOf(v) as real
  }

  /** `[f(x) for x in s]`. */
  function Map<A, B>(f: A --> B, s: seq<A>): (r: seq<B>)
    requires forall k :: 0 <= k < |s| ==> f.requires(s[k])
    ensures |r| == |s|
  {
    if s == [] then [] else Map(f, s[..|s| - 1]) + [f(s[|s| - 1])]
  }

  /** Element `k` of `Map(f, s)` is `f(s[k])`. */
  lemma {:induction false} MapIndex<A, B>(f: A --> B, s: seq<A>)
    requires forall k :: 0 <= k < |s| ==> f.requires(s[k])
    ensures forall k :: 0 <= k < |s| ==> Map(f, s)[k] == f(s[k])
  {
    if s != [] {
      MapIndex(f, s[..|s| - 1]);
    }
  }

  /** Dropping the last element of a concatenation drops it from the second part. */
  lemma ConcatInit<T>(a: seq<T>, b: seq<T>)
    requires b != []
    ensures (a + b)[..|a + b| - 1] == a + b[..|b| - 1]
    ensures (a + b)[|a + b| - 1] == b[|b| - 1]
  {
  }

  /** An element of a concatenation is an element of one of its parts. */
  lemma InConcat<T>(a: seq<T>, b: seq<T>, x: T)
    ensures x in a + b <==> x in a || x in b
  {
  }

  /** Concatenation is associative. */
  lemma ConcatAssoc<T>(a: seq<T>, b: seq<T>, c: seq<T>)
    ensures a + b + c == a + (b + c)
  {
  }

  // ---------------------------------------------------------------------
  // String helpers

  /** `s.startswith(prefix)`. */
  predicate StartsWith(s: string, prefix: string) {
    |prefix| <= |s| && s[..|prefix|] == prefix
  }

  /** `sub in s` for strings. */
  predicate Contains(s: string, sub: string)
    decreases |s|
  {
    StartsWith(s, sub) || (s != [] && Contains(s[1..], sub))
  }

  /** A string shorter than `sub` does not contain it. */
  lemma {:induction false} ShorterNotContains(s: string, sub: string)
    requires |s| < |sub|
    ensures !Contains(s, sub)
    decreases |s|
  {
    if s != [] {
      ShorterNotContains(s[1..], sub);
    }
  }

  /** `s.replace(c, rep)` for a one-character pattern: every occurrence is
      replaced, not only a trailing one. */
  function ReplaceAll(s: string, c: char, rep: string): (r: string)
    ensures c !in rep ==> c !in r
    ensures c !in s ==> r == s
  {
    if s == [] then []
    else (if s[0] == c then rep else [s[0]]) + ReplaceAll(s[1..], c, rep)
  }

  function LowerChar(c: char): char {
    if 'A' <= c <= 'Z' then (c as int + 32) as char else c
  }

  /** `s.lower()` on the ASCII letters. */
  function Lower(s: string): (r: string)
    ensures |r| == |s|
    ensures forall i :: 0 <= i < |s| ==> r[i] == LowerChar(s[i])
  {
    if s == [] then [] else [LowerChar(s[0])] + Lower(s[1..])
  }

  /** Lowercasing twice is lowercasing once. */
  lemma LowerIdempotent(s: string)
    ensures Lower(Lower(s)) == Lower(s)
  {
    var t := Lower(s);
    assert forall i :: 0 <= i < |t| ==> Lower(t)[i] == t[i];
  }

  /** `str(i)` for a single decimal digit. */
  function Digit(i: nat): char
    requires i < 10
  {
    ('0' as int + i) as char
  }

  /** `sep.join(parts)`. */
  function Join(parts: seq<string>, sep: string): string {
    if parts == [] then ""
    else if |parts| == 1 then parts[0]
    else parts[0] + sep + Join(parts[1..], sep)
  }

  /** A string with no character of `cs` in it. */
  predicate Avoids(s: string, cs: set<char>) {
    forall i :: 0 <= i < |s| ==> s[i] !in cs
  }

  lemma {:induction false} JoinAvoids(parts: seq<string>, sep: string, cs: set<char>)
    requires forall k :: 0 <= k < |parts| ==> Avoids(parts[k], cs)
    requires Avoids(sep, cs)
    ensures Avoids(Join(parts, sep), cs)
  {
    if |parts| > 1 {
      JoinAvoids(parts[1..], sep, cs);
      var tail := Join(parts[1..], sep);
      assert Join(parts, sep) == parts[0] + sep + tail;
      forall i | 0 <= i < |parts[0] + sep + tail|
        ensures (parts[0] + sep + tail)[i] !in cs
      {
        if i < |parts[0]| {
        } else if i < |parts[0]| + |sep| {
          assert (parts[0] + sep + tail)[i] == sep[i - |parts[0]|];
        } else {
          assert (parts[0] + sep + tail)[i] == tail[i - |parts[0]| - |sep|];
        }
      }
    }
  }
}
