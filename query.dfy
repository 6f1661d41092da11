/**
 * A request's query string once parsed: each key with the list of its
 * values, in the order the keys first appear. This is both what
 * `parse_qs(QUERY_STRING)` returns and what `request.query_params` holds.
 */
module QueryParams {
  import opened Wrappers

  type Query = seq<(string, seq<string>)>

  /** What the parser produces: each key once, each with at least one value. */
  predicate Parsed(q: Query)
  {
    (forall i, j :: 0 <= i < j < |q| ==> q[i].0 != q[j].0)
    && (forall i :: 0 <= i < |q| ==> q[i].1 != [])
  }

  /** `key in request.query_params`. */
  predicate Has(q: Query, k: string)
  {
    exists i :: 0 <= i < |q| && q[i].0 == k
  }

  /** `request.query_params.get(k)`: the last value given for `k`. */
  function Get(q: Query, k: string): (r: Option<string>)
    ensures r.None? <==> !Has(q, k) || (exists i :: 0 <= i < |q| && q[i].0 == k && q[i].1 == [] && forall j :: 0 <= j < i ==> q[j].0 != k)
    ensures r.Some? ==> exists i :: 0 <= i < |q| && q[i].0 == k && q[i].1 != [] && r.value == q[i].1[|q[i].1| - 1]
  {
    if q == [] then None
    else if q[0].0 == k then
      if q[0].1 == [] then None else Some(q[0].1[|q[0].1| - 1])
    else
      var r := Get(q[1..], k);
      assert forall i :: 0 < i < |q| ==> q[1..][i - 1] == q[i];
      r
  }

  /** On a parsed query, `get` finds a value exactly for the keys present. */
  lemma GetParsed(q: Query, k: string)
    requires Parsed(q)
    ensures Get(q, k).Some? <==> Has(q, k)
  {
  }
}
