/**
 * A JSON-like value standing for the Python dicts, lists and scalars that the
 * modelled code receives and returns, with Python's truthiness, `str()` and
 * the keyword-argument check that `Class(**d)` performs.
 */
module Json {
  import opened Wrappers
  import Text

  datatype Json =
    | JNull
    | JBool(b: bool)
    | JInt(i: int)
    | JStr(s: string)
    | JArr(items: seq<Json>)
    | JObj(fields: seq<(string, Json)>)

  /** The keys of a dict, in insertion order. */
  function Keys(fields: seq<(string, Json)>): (r: seq<string>)
    ensures |r| == |fields|
    ensures forall i :: 0 <= i < |fields| ==> r[i] == fields[i].0
  {
    if fields == [] then [] else [fields[0].0] + Keys(fields[1..])
  }

  /** `d.get(k)` over the first entry with key `k`. */
  function Get(fields: seq<(string, Json)>, k: string): (r: Option<Json>)
    ensures r.Some? <==> k in Keys(fields)
  {
    if fields == [] then None
    else if fields[0].0 == k then Some(fields[0].1)
    else Get(fields[1..], k)
  }

  predicate DistinctKeys(fields: seq<(string, Json)>)
  {
    forall i, j :: 0 <= i < j < |fields| ==> fields[i].0 != fields[j].0
  }

  /**
   * `f(**d)` binds: every key of `d` names a parameter, and every required
   * parameter is given. Otherwise Python raises `TypeError`.
   */
  predicate AcceptsKwargs(d: Json, required: seq<string>, optional: seq<string>)
  {
    d.JObj? && DistinctKeys(d.fields)
    && (forall k :: k in Keys(d.fields) ==> k in required || k in optional)
    && (forall k :: k in required ==> k in Keys(d.fields))
  }

  /** Python truthiness of a value. */
  predicate Truthy(j: Json)
  {
    match j
    case JNull => false
    case JBool(b) => b
    case JInt(i) => i != 0
    case JStr(s) => s != ""
    case JArr(items) => items != []
    case JObj(fields) => fields != []
  }

  /** Python's `str()` of a value (quotes inside strings are not escaped). */
  function Repr(j: Json): string
  {
    match j
    case JNull => "None"
    case JBool(b) => if b then "True" else "False"
    case JInt(i) => Text.IntToString(i)
    case JStr(s) => "'" + s + "'"
    case JArr(items) => "[" + ReprItems(items) + "]"
    case JObj(fields) => "{" + ReprFields(fields) + "}"
  }

  /** The items of a list, separated by `, `. */
  function ReprItems(items: seq<Json>): string
  {
    if items == [] then ""
    else if |items| == 1 then Repr(items[0])
    else Repr(items[0]) + ", " + ReprItems(items[1..])
  }

  /** The `'key': value` pairs of a dict, separated by `, `. */
  function ReprFields(fields: seq<(string, Json)>): string
  {
    if fields == [] then ""
    else if |fields| == 1 then ReprPair(fields[0])
    else ReprPair(fields[0]) + ", " + ReprFields(fields[1..])
  }

  function ReprPair(field: (string, Json)): string
  {
    "'" + field.0 + "': " + Repr(field.1)
  }

  /** Python's `type(j).__name__`, as it appears in an `AttributeError` message. */
  function TypeName(j: Json): string
  {
    match j
    case JNull => "NoneType"
    case JBool(_) => "bool"
    case JInt(_) => "int"
    case JStr(_) => "str"
    case JArr(_) => "list"
    case JObj(_) => "dict"
  }

  /**
   * `str()` of what `j[k]` raises for a text key `k` when `j` is not a dict
   * holding `k`: the `KeyError` of a dict is the quoted key, a list or a
   * string rejects a text index, anything else cannot be subscripted.
   */
  function SubscriptError(j: Json, k: string): string
  {
    match j
    case JObj(_) => "'" + k + "'"
    case JArr(_) => "list indices must be integers or slices, not str"
    case JStr(_) => "string indices must be integers, not 'str'"
    case _ => "'" + TypeName(j) + "' object is not subscriptable"
  }

  /** Python's `TypeError` text for iterating a value that cannot be iterated. */
  function NotIterable(j: Json): string
  {
    "'" + TypeName(j) + "' object is not iterable"
  }

  /** Python's `str()`: a string is itself, anything else its representation. */
  function Str(j: Json): string
  {
    if j.JStr? then j.s else Repr(j)
  }

  lemma EmptyDictRepr()
    ensures Repr(JObj([])) == "{}"
  {
  }

  /** The value bound to keyword `k`, once `AcceptsKwargs` has been checked. */
  function Arg(d: Json, k: string): Json
  {
    if d.JObj? then Get(d.fields, k).GetOr(JNull) else JNull
  }

  /** What `for x in j` visits: list items, the characters of a string, the keys of a dict. */
  function Iterate(j: Json): Option<seq<Json>>
  {
    match j
    case JArr(items) => Some(items)
    case JStr(s) => Some(seq(|s|, i requires 0 <= i < |s| => JStr([s[i]])))
    case JObj(fields) => Some(seq(|fields|, i requires 0 <= i < |fields| => JStr(fields[i].0)))
    case _ => None
  }

  /** `[f(x) for x in items]` where `f` may raise: the first failure is the result. */
  function MapAll<T>(items: seq<Json>, f: Json -> Result<T>): (r: Result<seq<T>>)
    ensures r.Ok? ==> |r.value| == |items| && forall i :: 0 <= i < |items| ==> f(items[i]) == Ok(r.value[i])
    ensures r.Err? ==> exists i :: 0 <= i < |items| && f(items[i]).Err?
  {
    if items == [] then Ok([])
    else
      match f(items[0])
      case Err(e) => Err(e)
      case Ok(x) =>
        match MapAll(items[1..], f)
        case Err(e) => Err(e)
        case Ok(xs) => Ok([x] + xs)
  }

  /** `[to_json(x) for x in xs]`. */
  function Encode<T>(xs: seq<T>, g: T -> Json): (r: seq<Json>)
    ensures |r| == |xs| && forall i :: 0 <= i < |xs| ==> r[i] == g(xs[i])
  {
    if xs == [] then [] else [g(xs[0])] + Encode(xs[1..], g)
  }

  /** `[Cls(**d) for d in j]`: `j` must be iterable and every item must bind. */
  function FromList<T>(j: Json, f: Json -> Result<T>): (r: Result<seq<T>>)
    ensures Iterate(j).None? ==> r == Err(NotIterable(j))
  {
    match Iterate(j)
    case None => Err(NotIterable(j))
    case Some(items) => MapAll(items, f)
  }

  /** Decoding what was encoded gives back the objects when each one round-trips. */
  lemma {:induction false} EncodeRoundTrip<T>(xs: seq<T>, g: T -> Json, f: Json -> Result<T>)
    requires forall x :: x in xs ==> f(g(x)) == Ok(x)
    ensures FromList(JArr(Encode(xs, g)), f) == Ok(xs)
  {
    MapAllEncode(xs, g, f);
  }

  lemma {:induction false} MapAllEncode<T>(xs: seq<T>, g: T -> Json, f: Json -> Result<T>)
    requires forall x :: x in xs ==> f(g(x)) == Ok(x)
    ensures MapAll(Encode(xs, g), f) == Ok(xs)
  {
    if xs != [] {
      MapAllEncode(xs[1..], g, f);
      var e := Encode(xs, g);
      assert e[1..] == Encode(xs[1..], g);
      assert f(e[0]) == Ok(xs[0]);
      MapAllCons(e, f, xs[0], xs[1..]);
      assert [xs[0]] + xs[1..] == xs;
    }
  }

  lemma MapAllCons<T>(items: seq<Json>, f: Json -> Result<T>, x: T, rest: seq<T>)
    requires items != [] && f(items[0]) == Ok(x) && MapAll(items[1..], f) == Ok(rest)
    ensures MapAll(items, f) == Ok([x] + rest)
  {
  }

  predicate DistinctNames(names: seq<string>)
  {
    forall i, j :: 0 <= i < j < |names| ==> names[i] != names[j]
  }

  lemma {:induction false} GetAt(fields: seq<(string, Json)>, i: nat)
    requires i < |fields| && DistinctNames(Keys(fields))
    ensures Get(fields, fields[i].0) == Some(fields[i].1)
  {
    if i > 0 {
      assert Keys(fields[1..]) == Keys(fields)[1..];
      assert fields[0].0 == Keys(fields)[0] && fields[i].0 == Keys(fields)[i];
      GetAt(fields[1..], i - 1);
    }
  }

  /** A dict whose keys are exactly the parameter names binds, and each parameter gets its entry. */
  lemma ExactKwargs(fields: seq<(string, Json)>, names: seq<string>)
    requires Keys(fields) == names && DistinctNames(names)
    ensures AcceptsKwargs(JObj(fields), names, [])
    ensures forall i :: 0 <= i < |fields| ==> Arg(JObj(fields), names[i]) == fields[i].1
  {
    forall i | 0 <= i < |fields| ensures Arg(JObj(fields), names[i]) == fields[i].1 {
      GetAt(fields, i);
    }
    assert DistinctKeys(fields) by {
      forall i, j | 0 <= i < j < |fields| ensures fields[i].0 != fields[j].0 {
        assert names[i] == fields[i].0 && names[j] == fields[j].0;
      }
    }
  }

  /** The dict `{names[0]: values[0], ...}` in that key order. */
  function Obj(names: seq<string>, values: seq<Json>): (j: Json)
    requires |names| == |values|
    ensures j.JObj? && |j.fields| == |names| && Keys(j.fields) == names
    ensures forall i :: 0 <= i < |names| ==> j.fields[i] == (names[i], values[i])
  {
    var fields := seq(|names|, i requires 0 <= i < |names| => (names[i], values[i]));
    assert Keys(fields) == names;
    JObj(fields)
  }

  lemma ObjKwargs(names: seq<string>, values: seq<Json>)
    requires |names| == |values| && DistinctNames(names)
    ensures AcceptsKwargs(Obj(names, values), names, [])
    ensures forall i :: 0 <= i < |names| ==> Arg(Obj(names, values), names[i]) == values[i]
  {
    ExactKwargs(Obj(names, values).fields, names);
  }

  /** The values bound to each of `names`, in the order of `names`. */
  function Args(d: Json, names: seq<string>): (r: seq<Json>)
    ensures |r| == |names| && forall i :: 0 <= i < |names| ==> r[i] == Arg(d, names[i])
  {
    seq(|names|, i requires 0 <= i < |names| => Arg(d, names[i]))
  }

  /** Binding an `Obj` built from distinct names gives back its values. */
  lemma ObjArgs(names: seq<string>, values: seq<Json>)
    requires |names| == |values| && DistinctNames(names)
    ensures AcceptsKwargs(Obj(names, values), names, [])
    ensures Args(Obj(names, values), names) == values
  {
    ObjKwargs(names, values);
  }
}
