/**
 * `get_filter`: the `filter.<key>=<operation>:<operand>` query parameters,
 * gathered per allowed key into a dict from operation to operand. The list
 * of allowed operations lives in a constants module outside this model and
 * is a parameter here.
 */
module PaginationFilter {
  import opened Wrappers
  import Text
  import opened QueryParams

  const FilterPrefix := "filter."
  /** `modified_key in None` when no allowed keys were passed. */
  const NoAllowedKeys := "argument of type 'NoneType' is not iterable"

  type Ops = map<string, string>
  type Filters = map<string, Ops>

  /** `value.split(":", 1)`, for a value holding a `:`: the text before the first one and the rest. */
  function SplitFirst(v: string): (r: (string, string))
    requires ':' in v
    ensures ':' !in r.0
    ensures r.0 + ":" + r.1 == v
  {
    var i := Text.IndexOf(v, ':');
    assert v == v[..i] + [v[i]] + v[i + 1..];
    (v[..i], v[i + 1..])
  }

  /** Only the first `:` splits: the operand keeps any later ones. */
  lemma OperandKeepsColons(op: string, operand: string)
    requires ':' !in op
    ensures SplitFirst(op + ":" + operand) == (op, operand)
  {
    var v := op + ":" + operand;
    var r := SplitFirst(v);
    assert v[|op|] == ':';
    assert r.0 == v[..|op|] == op;
  }

  /** One value of an allowed key: kept when it holds `:` and names an allowed operation. */
  function ApplyValue(m: Ops, v: string, operations: seq<string>): Ops
  {
    if ':' in v && SplitFirst(v).0 in operations then m[SplitFirst(v).0 := SplitFirst(v).1] else m
  }

  /** The inner loop over a key's values, first to last. */
  function ApplyValues(m: Ops, values: seq<string>, operations: seq<string>): Ops
  {
    if values == [] then m
    else ApplyValue(ApplyValues(m, values[..|values| - 1], operations), values[|values| - 1], operations)
  }

  /** One query parameter, for a list of allowed keys. */
  function ApplyParam(f: Filters, key: string, values: seq<string>, allowed: seq<string>, operations: seq<string>): Filters
  {
    if Text.StartsWith(key, FilterPrefix) && key[|FilterPrefix|..] in allowed then
      var k := key[|FilterPrefix|..];
      var start := if k in f then f[k] else map[];
      f[k := ApplyValues(start, values, operations)]
    else f
  }

  /** The outer loop over the query's parameters, first to last. */
  function ApplyParams(q: Query, allowed: seq<string>, operations: seq<string>): Filters
  {
    if q == [] then map[]
    else
      var last := q[|q| - 1];
      ApplyParam(ApplyParams(q[..|q| - 1], allowed, operations), last.0, last.1, allowed, operations)
  }

  predicate IsFilterKey(key: string)
  {
    Text.StartsWith(key, FilterPrefix)
  }

  /** `get_filter(request, allowed_keys)` on the parsed query string. */
  function FilterSpec(q: Query, allowedKeys: Option<seq<string>>, operations: seq<string>): Result<Filters>
  {
    match allowedKeys
    case None =>
      if exists i :: 0 <= i < |q| && IsFilterKey(q[i].0) then Err(NoAllowedKeys) else Ok(map[])
    case Some(allowed) => Ok(ApplyParams(q, allowed, operations))
  }

  /** `get_filter`: the nested loops filling the `filters` dict. */
  method GetFilter(q: Query, allowedKeys: Option<seq<string>>, operations: seq<string>) returns (r: Result<Filters>)
    ensures r == FilterSpec(q, allowedKeys, operations)
  {
    var filters: Filters := map[];
    for i := 0 to |q|
      invariant allowedKeys.Some? ==> filters == ApplyParams(q[..i], allowedKeys.value, operations)
      invariant allowedKeys.None? ==> filters == map[] && forall j :: 0 <= j < i ==> !IsFilterKey(q[j].0)
    {
      assert q[..i + 1][..i] == q[..i];
      var (key, values) := q[i];
      if IsFilterKey(key) {
        var k := key[|FilterPrefix|..];
        if allowedKeys.None? {
          return Err(NoAllowedKeys);
        }
        if k in allowedKeys.value {
          if k !in filters {
            filters := filters[k := map[]];
          }
          var ops := ApplyOperations(filters[k], values, operations);
          filters := filters[k := ops];
        }
      }
    }
    assert q[..|q|] == q;
    r := Ok(filters);
  }

  /** The inner loop: each value of one key, in order. */
  method ApplyOperations(m: Ops, values: seq<string>, operations: seq<string>) returns (r: Ops)
    ensures r == ApplyValues(m, values, operations)
  {
    r := m;
    for j := 0 to |values|
      invariant r == ApplyValues(m, values[..j], operations)
    {
      assert values[..j + 1][..j] == values[..j];
      var value := values[j];
      if ':' in value {
        var (operation, operand) := SplitFirst(value);
        if operation in operations {
          r := r[operation := operand];
        }
      }
    }
    assert values[..|values|] == values;
  }

  /** The operations recorded for a key come from its values and are allowed; old entries stay unless overwritten. */
  lemma {:induction false} ValuesAllowed(m: Ops, values: seq<string>, operations: seq<string>)
    ensures forall op :: op in ApplyValues(m, values, operations) ==> op in m || op in operations
    ensures forall op :: op in m ==> op in ApplyValues(m, values, operations)
  {
    if values != [] {
      ValuesAllowed(m, values[..|values| - 1], operations);
    }
  }

  /**
   * A later value for the same operation overwrites an earlier one: the
   * operand kept is the one of the last value naming that operation.
   */
  lemma {:induction false} LastOperationWins(m: Ops, values: seq<string>, operations: seq<string>, j: nat)
    requires j < |values| && ':' in values[j] && SplitFirst(values[j]).0 in operations
    requires forall k :: j < k < |values| && ':' in values[k] ==> SplitFirst(values[k]).0 != SplitFirst(values[j]).0
    ensures SplitFirst(values[j]).0 in ApplyValues(m, values, operations)
    ensures ApplyValues(m, values, operations)[SplitFirst(values[j]).0] == SplitFirst(values[j]).1
  {
    var n := |values| - 1;
    var op := SplitFirst(values[j]).0;
    if j < n {
      var init := values[..n];
      assert init[j] == values[j];
      LastOperationWins(m, init, operations, j);
      ValuesAllowed(m, values[..n], operations);
    } else {
      ValuesAllowed(m, values[..n], operations);
    }
  }

  /**
   * The keys of the result are exactly the allowed keys named by some
   * `filter.` parameter, whether or not any of its values was kept.
   */
  lemma {:induction false} FilterKeys(q: Query, allowed: seq<string>, operations: seq<string>)
    ensures forall k :: k in ApplyParams(q, allowed, operations) <==>
      k in allowed && exists i :: 0 <= i < |q| && q[i].0 == FilterPrefix + k
  {
    if q != [] {
      var n := |q| - 1;
      FilterKeys(q[..n], allowed, operations);
      forall k ensures (exists i :: 0 <= i < |q| && q[i].0 == FilterPrefix + k)
        <==> (exists i :: 0 <= i < n && q[..n][i].0 == FilterPrefix + k) || q[n].0 == FilterPrefix + k
      {
        if exists i :: 0 <= i < |q| && q[i].0 == FilterPrefix + k {
          var i :| 0 <= i < |q| && q[i].0 == FilterPrefix + k;
          if i < n {
            assert q[..n][i] == q[i];
          }
        }
      }
      forall k ensures Text.StartsWith(q[n].0, FilterPrefix) && q[n].0[|FilterPrefix|..] == k <==> q[n].0 == FilterPrefix + k {
        Text.PrefixKey(q[n].0, FilterPrefix, k);
      }
    }
  }

  /** An allowed key named with only dropped values still gets an empty entry. */
  lemma EmptyEntryKept(k: string, values: seq<string>, operations: seq<string>)
    requires forall v :: v in values ==> ':' !in v
    ensures ApplyParams([(FilterPrefix + k, values)], [k], operations) == map[k := map[]]
  {
    assert [(FilterPrefix + k, values)][..0] == [];
    assert (FilterPrefix + k)[..|FilterPrefix|] == FilterPrefix;
    assert (FilterPrefix + k)[|FilterPrefix|..] == k;
    NoValueKept(map[], values, operations);
  }

  lemma {:induction false} NoValueKept(m: Ops, values: seq<string>, operations: seq<string>)
    requires forall v :: v in values ==> ':' !in v
    ensures ApplyValues(m, values, operations) == m
  {
    if values != [] {
      assert values[|values| - 1] in values;
      assert forall v :: v in values[..|values| - 1] ==> v in values;
      NoValueKept(m, values[..|values| - 1], operations);
    }
  }

  /** Without allowed keys, any `filter.` parameter raises, and a query without one gives `{}`. */
  lemma NoneAllowedRaises(q: Query, operations: seq<string>)
    ensures FilterSpec(q, None, operations).Err? <==> exists i :: 0 <= i < |q| && Text.StartsWith(q[i].0, FilterPrefix)
    ensures FilterSpec(q, None, operations).Ok? ==> FilterSpec(q, None, operations).value == map[]
  {
  }
}
