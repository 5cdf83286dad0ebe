/**
 * The JSON values the parser hands to the reconcilers, as Python sees them
 * after `json.loads`: None, bool, int, str, list and dict. A dict is kept as
 * its ordered list of (key, value) entries, the order Python preserves.
 */
module JsonValues {
  import opened Wrappers

  datatype Json =
    | Null
    | Bool(b: bool)
    | Int(i: int)
    | Str(s: string)
    | Arr(items: seq<Json>)
    | Obj(fields: seq<(string, Json)>)

  type Fields = seq<(string, Json)>

  /** The keys of a dict. */
  function Keys(fields: Fields): set<string> {
    if fields == [] then {} else {fields[0].0} + Keys(fields[1..])
  }

  /** `d.get(key)`: the value stored under `key`, or None when it is absent. */
  function Get(fields: Fields, key: string): (r: Option<Json>)
    ensures r.Some? <==> key in Keys(fields)
  {
    if fields == [] then None
    else if fields[0].0 == key then Some(fields[0].1)
    else Get(fields[1..], key)
  }

  /** The value under the first entry that holds `key`. */
  lemma {:induction false} GetAt(fields: Fields, i: nat)
    requires i < |fields|
    requires forall j :: 0 <= j < i ==> fields[j].0 != fields[i].0
    ensures Get(fields, fields[i].0) == Some(fields[i].1)
  {
    if i > 0 {
      GetAt(fields[1..], i - 1);
    }
  }

  /**
   * `d[key] = value`: an existing key keeps its place and gets the new
   * value, a new key is appended; every other entry stays where it was.
   */
  function Put(fields: Fields, key: string, value: Json): (r: Fields)
    ensures Get(r, key) == Some(value)
    ensures forall k :: k != key ==> Get(r, k) == Get(fields, k)
    ensures Keys(r) == Keys(fields) + {key}
    ensures |r| == if key in Keys(fields) then |fields| else |fields| + 1
    ensures forall i :: 0 <= i < |fields| && fields[i].0 != key ==> r[i] == fields[i]
  {
    if fields == [] then [(key, value)]
    else if fields[0].0 == key then [(key, value)] + fields[1..]
    else [fields[0]] + Put(fields[1..], key, value)
  }

  /** A list of str values, as Python would build it from a list of strings. */
  function StrArray(ss: seq<string>): (r: seq<Json>)
    ensures |r| == |ss|
    ensures forall i :: 0 <= i < |ss| ==> r[i] == Str(ss[i])
  {
    if ss == [] then [] else [Str(ss[0])] + StrArray(ss[1..])
  }

  /** The strings of a list whose every element is a str, or None if one is not. */
  function StringsOf(items: seq<Json>): (r: Option<seq<string>>)
    ensures r.Some? <==> forall i :: 0 <= i < |items| ==> items[i].Str?
    ensures r.Some? ==> |r.value| == |items| && forall i :: 0 <= i < |items| ==> items[i] == Str(r.value[i])
  {
    if items == [] then Some([])
    else if !items[0].Str? then None
    else
      match StringsOf(items[1..])
      case None => None
      case Some(rest) => Some([items[0].s] + rest)
  }

  /** Reading back a list of strings gives the strings it was built from. */
  lemma StringsOfStrArray(ss: seq<string>)
    ensures StringsOf(StrArray(ss)) == Some(ss)
  {
    var r := StringsOf(StrArray(ss));
    assert r.Some?;
    assert r.value == ss;
  }

  /**
   * Python's slice `s[:n]`: the first `n` elements when `n >= 0` (all of
   * them if there are fewer), and all but the last `-n` when `n < 0`.
   */
  function PyPrefix<T>(s: seq<T>, n: int): (r: seq<T>)
    ensures |r| <= |s| && r == s[..|r|]
    ensures n >= 0 ==> |r| == if n <= |s| then n else |s|
    ensures n < 0 ==> |r| == if -n <= |s| then |s| + n else 0
  {
    if n >= 0 then (if n <= |s| then s[..n] else s)
    else if -n <= |s| then s[..|s| + n]
    else []
  }

  /** A field declared `str` with no default: present and a str. */
  function RequiredStr(field: Option<Json>): (r: Option<string>)
    ensures forall s :: r == Some(s) <==> field == Some(Str(s))
  {
    if field.Some? && field.value.Str? then Some(field.value.s) else None
  }

  /**
   * A field declared `str | None = None`: absent or null give None, a str
   * gives itself, anything else fails (the outer None).
   */
  function OptionalStr(field: Option<Json>): (r: Option<Option<string>>)
    ensures r == Some(None) <==> field == None || field == Some(Null)
    ensures forall s :: r == Some(Some(s)) <==> field == Some(Str(s))
  {
    match field
    case None => Some(None)
    case Some(Null) => Some(None)
    case Some(Str(s)) => Some(Some(s))
    case Some(_) => None
  }
}
