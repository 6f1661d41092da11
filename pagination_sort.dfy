/**
 * `get_sort`: the `sort.<field>=<order>` query parameters, each read from
 * its last value. The list of allowed orders lives in a constants module
 * outside this model and is a parameter here.
 */
module PaginationSort {
  import Text
  import opened QueryParams

  const SortPrefix := "sort."
  const Ascending := "asc"

  type Sorts = map<string, int>

  /** `1 if sort_order_str == "asc" else -1`. */
  function Direction(order: string): (d: int)
    ensures d == 1 <==> order == Ascending
    ensures d == 1 || d == -1
  {
    if order == Ascending then 1 else -1
  }

  /** One query parameter. */
  function ApplyParam(s: Sorts, key: string, values: seq<string>, allowedOrders: seq<string>): Sorts
    requires values != []
  {
    if Text.StartsWith(key, SortPrefix) && values[|values| - 1] in allowedOrders then
      s[key[|SortPrefix|..] := Direction(values[|values| - 1])]
    else s
  }

  /** The loop over the query's parameters, first to last. */
  function SortSpec(q: Query, allowedOrders: seq<string>): Sorts
    requires Parsed(q)
  {
    if q == [] then map[]
    else
      var init := q[..|q| - 1];
      assert Parsed(init) by {
        assert forall i :: 0 <= i < |init| ==> init[i] == q[i];
      }
      ApplyParam(SortSpec(init, allowedOrders), q[|q| - 1].0, q[|q| - 1].1, allowedOrders)
  }

  /** `get_sort(request)`: fills `sort_params` parameter by parameter. */
  method GetSort(q: Query, allowedOrders: seq<string>) returns (sorts: Sorts)
    requires Parsed(q)
    ensures sorts == SortSpec(q, allowedOrders)
  {
    sorts := map[];
    for i := 0 to |q|
      invariant Parsed(q[..i])
      invariant sorts == SortSpec(q[..i], allowedOrders)
    {
      assert q[..i + 1][..i] == q[..i];
      assert Parsed(q[..i + 1]) by {
        assert forall j :: 0 <= j < i + 1 ==> q[..i + 1][j] == q[j];
      }
      var (key, values) := q[i];
      if Text.StartsWith(key, SortPrefix) {
        var field := key[|SortPrefix|..];
        var order := values[|values| - 1];
        if order in allowedOrders {
          sorts := sorts[field := Direction(order)];
        }
      }
    }
    assert q[..|q|] == q;
  }

  /**
   * A field is sorted on exactly when some `sort.` parameter names it with an
   * allowed last value, and its direction is `1` for `asc` and `-1` for any
   * other allowed value: an integer, never the string `"desc"`.
   */
  lemma {:induction false} SortEntry(q: Query, allowedOrders: seq<string>, f: string)
    requires Parsed(q)
    ensures f in SortSpec(q, allowedOrders) <==>
      exists i :: 0 <= i < |q| && q[i].0 == SortPrefix + f && q[i].1[|q[i].1| - 1] in allowedOrders
    ensures forall i :: f in SortSpec(q, allowedOrders) && 0 <= i < |q| && q[i].0 == SortPrefix + f ==>
      SortSpec(q, allowedOrders)[f] == Direction(q[i].1[|q[i].1| - 1])
  {
    if q != [] {
      var n := |q| - 1;
      var init := q[..n];
      assert forall i :: 0 <= i < n ==> init[i] == q[i];
      SortEntry(init, allowedOrders, f);
      Text.PrefixKey(q[n].0, SortPrefix, f);
    }
  }
}
