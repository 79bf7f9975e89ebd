/** The few JavaScript notions the wallet and web helpers rely on: absent
    values, JSON values with their truthiness and property lookup,
    `Array.prototype.slice` and `String.prototype.indexOf`. */
module Js {

  /** `undefined` (None) or a present value. */
  datatype Option<+T> = None | Some(value: T)

  /** A value that survives `JSON.stringify` / `JSON.parse`.
      Numbers are taken as integers. */
  datatype Json =
    | JNull
    | JBool(b: bool)
    | JNum(n: int)
    | JStr(str: string)
    | JArr(items: seq<Json>)
    | JObj(fields: map<string, Json>)

  /** The empty object `{}`. */
  const EMPTY_OBJECT: Json := JObj(map[])

  /** The JSON values JavaScript treats as false: null, false, 0 and "". */
  predicate Falsy(v: Json) {
    v == JNull || v == JBool(false) || v == JNum(0) || v == JStr("")
  }

  /** `value || fallback`, where `value` may be `undefined`. */
  function OrElse(value: Option<Json>, fallback: Json): Json {
    if value.Some? && !Falsy(value.value) then value.value else fallback
  }

  /** `v.name` for the property names used here: only an object has them;
      on any other value the lookup gives `undefined`. */
  function Property(v: Json, name: string): Option<Json> {
    if v.JObj? && name in v.fields then Some(v.fields[name]) else None
  }

  /** `s.slice(begin, end)` for non-negative arguments: both ends are clamped
      to the length, and an end before the beginning gives the empty slice. */
  function Slice<T>(s: seq<T>, begin: nat, end: nat): (r: seq<T>)
    ensures begin <= end <= |s| ==> r == s[begin..end]
    ensures |s| <= begin ==> r == []
    ensures begin <= |s| <= end ==> r == s[begin..]
  {
    var lo := if begin < |s| then begin else |s|;
    var hi := if end < lo then lo else if end < |s| then end else |s|;
    s[lo..hi]
  }

  /** `pat` occurs in `s` starting at index `i`. */
  predicate OccursAt(s: string, pat: string, i: int) {
    0 <= i && i + |pat| <= |s| && s[i..i + |pat|] == pat
  }

  ghost predicate Contains(s: string, pat: string) {
    exists i :: OccursAt(s, pat, i)
  }

  /** `s.indexOf(pat)`: the first index at which `pat` occurs, or -1. */
  function IndexOf(s: string, pat: string): (r: int)
    ensures r == -1 || OccursAt(s, pat, r)
    ensures r == -1 <==> !Contains(s, pat)
    ensures forall i :: 0 <= i < r ==> !OccursAt(s, pat, i)
  {
    IndexFrom(s, pat, 0)
  }

  /** The first index at or after `from` at which `pat` occurs, or -1. */
  function IndexFrom(s: string, pat: string, from: nat): (r: int)
    decreases |s| - from
    ensures r == -1 || (from <= r && OccursAt(s, pat, r))
    ensures forall i :: from <= i && (r == -1 || i < r) ==> !OccursAt(s, pat, i)
  {
    if from + |pat| > |s| then -1
    else if s[from..from + |pat|] == pat then from
    else IndexFrom(s, pat, from + 1)
  }

  /** A one-character pattern occurs exactly where that character stands. */
  lemma OccursAtChar(s: string, c: char, i: int)
    ensures OccursAt(s, [c], i) <==> 0 <= i < |s| && s[i] == c
  {
    if 0 <= i < |s| {
      assert s[i..i + 1] == [s[i]];
    }
  }

  /** The index of the first occurrence of a character: before it the
      character does not appear. */
  lemma {:induction false} IndexOfChar(s: string, c: char)
    ensures var r := IndexOf(s, [c]);
      (r == -1 <==> c !in s) &&
      (r >= 0 ==> r < |s| && s[r] == c && c !in s[..r])
  {
    var r := IndexOf(s, [c]);
    if r == -1 {
      forall i | 0 <= i < |s| ensures s[i] != c {
        OccursAtChar(s, c, i);
        assert !OccursAt(s, [c], i);
      }
    } else {
      OccursAtChar(s, c, r);
      forall i | 0 <= i < r ensures s[..r][i] != c {
        OccursAtChar(s, c, i);
      }
    }
  }
}
