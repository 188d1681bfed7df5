/** JSON documents as Python's `json` module reads and writes them. */
module Json {
  import opened Wrappers
  import opened Dicts
  import Text

  datatype Value =
    | Null
    | Bool(b: bool)
    | Num(n: real)
    | Str(s: string)
    | Arr(items: seq<Value>)
    | Obj(fields: ODict<Value>)

  /** A JSON object, the `dict` that `json.load` returns for `{...}`. */
  type Dict = ODict<Value>

  function Strs(xs: seq<string>): (r: seq<Value>)
    ensures |r| == |xs| && forall i | 0 <= i < |xs| :: r[i] == Str(xs[i])
  {
    if |xs| == 0 then [] else [Str(xs[0])] + Strs(xs[1..])
  }

  /** The strings of a JSON array whose items are all strings. */
  function AsStrings(vs: seq<Value>): (r: Option<seq<string>>)
    ensures r.Some? ==> Strs(r.value) == vs
  {
    if |vs| == 0 then Some([])
    else if !vs[0].Str? then None
    else match AsStrings(vs[1..])
      case None => None
      case Some(rest) => Some([vs[0].s] + rest)
  }

  lemma {:induction false} AsStringsStrs(xs: seq<string>)
    ensures AsStrings(Strs(xs)) == Some(xs)
    decreases |xs|
  {
    if |xs| > 0 {
      AsStringsStrs(xs[1..]);
      assert Strs(xs)[1..] == Strs(xs[1..]);
      assert xs == [xs[0]] + xs[1..];
    }
  }

  /** `list(s)` of a set of strings as written to JSON; the model lists the
      elements in ascending order. */
  function SetValue(s: set<string>): Value {
    Arr(Strs(Text.SortedSet(s)))
  }

  /** `set(v)` of a JSON array of strings. */
  function AsSet(v: Value): (r: Option<set<string>>)
  {
    if v.Arr? then
      match AsStrings(v.items)
      case None => None
      case Some(xs) => Some(set x | x in xs)
    else None
  }

  /** A set survives the set -> JSON list -> set round trip. */
  lemma SetValueRoundTrip(s: set<string>)
    ensures AsSet(SetValue(s)) == Some(s)
  {
    var xs := Text.SortedSet(s);
    AsStringsStrs(xs);
    assert (set x | x in xs) == s;
  }

  /** `Str(s)` for a present id, `null` for an absent one. */
  function IdValue(id: Option<string>): Value {
    match id
    case Some(s) => Str(s)
    case None => Null
  }

  function AsId(v: Value): Option<Option<string>> {
    match v
    case Str(s) => Some(Some(s))
    case Null => Some(None)
    case _ => None
  }

  lemma IdValueRoundTrip()
    ensures forall id :: AsId(IdValue(id)) == Some(id)
  {
  }

  /** The string stored under `k`, if there is one and it is a string. */
  function GetStr(d: Dict, k: string): (r: Option<string>)
    ensures r.Some? <==> Get(d, k).Some? && Get(d, k).value.Str?
    ensures r.Some? ==> Get(d, k) == Some(Str(r.value))
  {
    var v := Get(d, k);
    if v.Some? && v.value.Str? then Some(v.value.s) else None
  }
}
