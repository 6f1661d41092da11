/**
 * `get_paging`: reads `limit` and `offset` from the query, each only when
 * present, capping the limit at 10 from above and the offset at 0 from
 * below.
 */
module PaginationPaging {
  import opened Wrappers
  import Text
  import opened QueryParams

  const DefaultPagingKeys: seq<string> := ["offset", "limit"]
  const MaxPagingLimit := 10

  type Paging = map<string, int>

  /** What the loop keeps: only `limit` and `offset`, a limit of at most 10 and an offset of at least 0. */
  predicate Bounded(p: Paging)
  {
    forall k :: k in p ==> (k == "limit" && p[k] <= MaxPagingLimit) || (k == "offset" && p[k] >= 0)
  }

  /**
   * One allowed key: `limit` and `offset` present in the query are parsed
   * and bounded, other keys are ignored. On a parsed query `get` finds a
   * value exactly when the key is present (`QueryParams.GetParsed`).
   */
  function ApplyKey(p: Paging, q: Query, key: string): (r: Result<Paging>)
    ensures Bounded(p) && r.Ok? ==> Bounded(r.value)
    ensures r.Ok? ==> forall k :: k in r.value ==> k in p || (k == key && Get(q, key).Some?)
    ensures r.Err? ==> (key == "limit" || key == "offset") && Get(q, key).Some? && Text.ParseInt(Get(q, key).value).None?
                       && r.error == Text.InvalidLiteral(Get(q, key).value)
  {
    match Get(q, key)
    case None => Ok(p)
    case Some(v) =>
      if key != "limit" && key != "offset" then Ok(p)
      else
        match Text.ParseInt(v)
        case None => Err(Text.InvalidLiteral(v))
        case Some(n) =>
          if key == "limit" then Ok(p[key := if n < MaxPagingLimit then n else MaxPagingLimit])
          else Ok(p[key := if n > 0 then n else 0])
  }

  /** The loop over the allowed keys, first to last; the first bad value raises. */
  function PagingSpec(q: Query, keys: seq<string>): (r: Result<Paging>)
    ensures r.Ok? ==> Bounded(r.value)
    ensures r.Ok? ==> forall k :: k in r.value ==> k in keys && Get(q, k).Some?
  {
    if keys == [] then Ok(map[])
    else
      match PagingSpec(q, keys[..|keys| - 1])
      case Err(e) => Err(e)
      case Ok(p) => ApplyKey(p, q, keys[|keys| - 1])
  }

  /** Once a key has raised, the rest of the keys are not looked at. */
  lemma {:induction false} ErrorStops(q: Query, keys: seq<string>, i: nat)
    requires i <= |keys| && PagingSpec(q, keys[..i]).Err?
    ensures PagingSpec(q, keys) == PagingSpec(q, keys[..i])
    decreases |keys| - i
  {
    if i < |keys| {
      assert keys[..i + 1][..i] == keys[..i];
      ErrorStops(q, keys, i + 1);
    } else {
      assert keys[..i] == keys;
    }
  }

  lemma PagingStep(q: Query, keys: seq<string>, i: nat)
    requires i < |keys| && PagingSpec(q, keys[..i]).Ok?
    ensures PagingSpec(q, keys[..i + 1]) == ApplyKey(PagingSpec(q, keys[..i]).value, q, keys[i])
  {
    assert keys[..i + 1][..i] == keys[..i];
  }

  /** `get_paging(request, allowed_keys)`; `None` stands for the default keys. */
  method GetPaging(q: Query, allowedKeys: Option<seq<string>>) returns (r: Result<Paging>)
    requires Parsed(q)
    ensures r == PagingSpec(q, allowedKeys.GetOr(DefaultPagingKeys))
  {
    var keys := if allowedKeys.None? then DefaultPagingKeys else allowedKeys.value;
    var paging: Paging := map[];
    for i := 0 to |keys|
      invariant PagingSpec(q, keys[..i]) == Ok(paging)
    {
      PagingStep(q, keys, i);
      ghost var before := paging;
      var key := keys[i];
      GetParsed(q, key);
      if Has(q, key) {
        if key == "limit" || key == "offset" {
          var n := Text.ParseInt(Get(q, key).value);
          if n.None? {
            assert ApplyKey(before, q, key) == Err(Text.InvalidLiteral(Get(q, key).value));
            ErrorStops(q, keys, i + 1);
            return Err(Text.InvalidLiteral(Get(q, key).value));
          }
          if key == "limit" {
            paging := paging[key := if n.value < MaxPagingLimit then n.value else MaxPagingLimit];
          } else {
            paging := paging[key := if n.value > 0 then n.value else 0];
          }
        }
      }
      assert ApplyKey(before, q, key) == Ok(paging);
    }
    assert keys[..|keys|] == keys;
    r := Ok(paging);
  }

  /** A limit below 10 passes through unchanged, negative ones included: `min` has no lower bound. */
  lemma LimitHasNoLowerBound(q: Query, n: int)
    requires Parsed(q) && Get(q, "limit").Some? && Text.ParseInt(Get(q, "limit").value) == Some(n)
    requires n < MaxPagingLimit
    ensures PagingSpec(q, ["limit"]) == Ok(map["limit" := n])
  {
    assert ["limit"][..0] == [];
  }
}
