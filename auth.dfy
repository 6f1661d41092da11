/**
 * The TikTok Shop request signature (`GenerateSign` in the auth utilities):
 * the parameters are sorted by key, `sign` and `access_token` are dropped,
 * and the sign string is the secret, the URL path, every remaining key
 * followed by `str()` of its value, the body when it is non-empty, and the
 * secret again. The signature is the HMAC-SHA256 hex digest of that string
 * keyed by the secret; the digest is a parameter here.
 *
 * A query dict is a sequence of entries in insertion order; a Python dict
 * never repeats a key (`DistinctKeys`).
 */
module Auth {
  import opened Wrappers
  import opened Json
  import Text

  type Entry = (string, Json)

  const SignKey := "sign"
  const AccessTokenKey := "access_token"

  /** Keys in strictly ascending code-point order, as `sorted` leaves a dict's keys. */
  predicate StrictlySorted(a: seq<Entry>)
  {
    forall i, j :: 0 <= i < j < |a| ==> Text.Less(a[i].0, a[j].0)
  }

  function Insert(e: Entry, a: seq<Entry>): (r: seq<Entry>)
    ensures |r| == |a| + 1
    ensures forall x :: x in r <==> x == e || x in a
  {
    if a == [] then [e]
    else if Text.Less(a[0].0, e.0) then
      assert forall x :: x in a <==> x == a[0] || x in a[1..];
      [a[0]] + Insert(e, a[1..])
    else [e] + a
  }

  /** `obj_key_sort`: `{k: obj[k] for k in sorted(obj)}`. */
  function ObjKeySort(params: seq<Entry>): (r: seq<Entry>)
    ensures |r| == |params|
    ensures forall x :: x in r <==> x in params
  {
    if params == [] then []
    else
      assert forall x :: x in params <==> x == params[0] || x in params[1..];
      Insert(params[0], ObjKeySort(params[1..]))
  }

  /** `d.pop(k, None)`: the dict without key `k`. */
  function Pop(a: seq<Entry>, k: string): (r: seq<Entry>)
    ensures forall x :: x in r <==> x in a && x.0 != k
  {
    if a == [] then []
    else
      assert forall x :: x in a <==> x == a[0] || x in a[1..];
      if a[0].0 == k then Pop(a[1..], k) else [a[0]] + Pop(a[1..], k)
  }

  /** The entries that are signed, in the order they are appended. */
  function Signed(params: seq<Entry>): seq<Entry>
  {
    Pop(Pop(ObjKeySort(params), SignKey), AccessTokenKey)
  }

  /** `key + str(value)`. */
  function Item(e: Entry): string
  {
    e.0 + Str(e.1)
  }

  /** The items of all entries, in order. */
  function Concat(a: seq<Entry>): string
  {
    if a == [] then "" else Concat(a[..|a| - 1]) + Item(a[|a| - 1])
  }

  /** Python truthiness of the optional body: present and non-empty. */
  predicate HasBody(body: Option<string>)
  {
    body.Some? && body.value != ""
  }

  /** The string `cal_sign` hands to HMAC. */
  function SignString(secret: string, path: string, params: seq<Entry>, body: Option<string>): string
  {
    secret + path + Concat(Signed(params)) + (if HasBody(body) then body.value + secret else secret)
  }

  /** `cal_sign(secret, url, query_params, body)`, where `path` is `url.path` and `hmac` the digest. */
  method CalSign(secret: string, path: string, params: seq<Entry>, body: Option<string>,
                 hmac: (string, string) -> string)
    returns (signature: string)
    ensures signature == hmac(secret, SignString(secret, path, params, body))
  {
    var sorted := ObjKeySort(params);
    sorted := Pop(sorted, SignKey);
    sorted := Pop(sorted, AccessTokenKey);
    var signString := AppendItems(secret + path, sorted);
    if HasBody(body) {
      signString := signString + (body.value + secret);
    } else {
      signString := signString + secret;
    }
    signature := hmac(secret, signString);
  }

  lemma AppendAssoc(a: string, b: string, c: string)
    ensures (a + b) + c == a + (b + c)
  {
  }

  /** The `for key, value in sorted_params.items()` loop. */
  method AppendItems(prefix: string, entries: seq<Entry>) returns (s: string)
    ensures s == prefix + Concat(entries)
  {
    s := prefix;
    for i := 0 to |entries|
      invariant s == prefix + Concat(entries[..i])
    {
      assert entries[..i + 1][..i] == entries[..i];
      AppendAssoc(prefix, Concat(entries[..i]), Item(entries[i]));
      s := s + Item(entries[i]);
    }
    assert entries[..|entries|] == entries;
  }

  lemma {:induction false} InsertSorted(e: Entry, a: seq<Entry>)
    requires StrictlySorted(a) && forall x :: x in a ==> x.0 != e.0
    ensures StrictlySorted(Insert(e, a))
  {
    if a != [] && Text.Less(a[0].0, e.0) {
      InsertSorted(e, a[1..]);
      var r := Insert(e, a);
      forall j | 0 < j < |r| ensures Text.Less(a[0].0, r[j].0) {
        assert r[j] == Insert(e, a[1..])[j - 1];
        assert r[j] in Insert(e, a[1..]);
        if r[j] != e {
          var m :| 0 <= m < |a[1..]| && a[1..][m] == r[j];
          assert a[m + 1] == r[j];
        }
      }
    } else if a != [] {
      Text.LessTotal(e.0, a[0].0);
      forall j | 0 < j < |a| ensures Text.Less(e.0, a[j].0) {
        Text.LessTransitive(e.0, a[0].0, a[j].0);
      }
    }
  }

  /** Sorting a dict's entries gives strictly ascending keys. */
  lemma {:induction false} SortSorted(params: seq<Entry>)
    requires DistinctKeys(params)
    ensures StrictlySorted(ObjKeySort(params))
  {
    if params != [] {
      assert DistinctKeys(params[1..]) by {
        forall i, j | 0 <= i < j < |params[1..]| ensures params[1..][i].0 != params[1..][j].0 {
          assert params[1..][i] == params[i + 1] && params[1..][j] == params[j + 1];
        }
      }
      SortSorted(params[1..]);
      forall x | x in ObjKeySort(params[1..]) ensures x.0 != params[0].0 {
        var m :| 0 <= m < |params[1..]| && params[1..][m] == x;
        assert params[m + 1] == x;
      }
      InsertSorted(params[0], ObjKeySort(params[1..]));
    }
  }

  lemma {:induction false} PopSorted(a: seq<Entry>, k: string)
    requires StrictlySorted(a)
    ensures StrictlySorted(Pop(a, k))
  {
    if a != [] {
      assert StrictlySorted(a[1..]) by {
        forall i, j | 0 <= i < j < |a[1..]| ensures Text.Less(a[1..][i].0, a[1..][j].0) {
          assert a[1..][i] == a[i + 1] && a[1..][j] == a[j + 1];
        }
      }
      PopSorted(a[1..], k);
      var r := Pop(a[1..], k);
      forall x | x in r ensures Text.Less(a[0].0, x.0) {
        var m :| 0 <= m < |a[1..]| && a[1..][m] == x;
        assert a[m + 1] == x;
      }
    }
  }

  /** Two strictly sorted entry lists holding the same entries are the same list. */
  lemma {:induction false} SortedUnique(a: seq<Entry>, b: seq<Entry>)
    requires StrictlySorted(a) && StrictlySorted(b)
    requires forall x :: x in a <==> x in b
    ensures a == b
  {
    assert a != [] ==> a[0] in b;
    assert b != [] ==> b[0] in a;
    if a != [] && b != [] {
      var j :| 0 <= j < |b| && b[j] == a[0];
      var i :| 0 <= i < |a| && a[i] == b[0];
      if j > 0 {
        if i > 0 {
          Text.LessAsymmetric(a[0].0, a[i].0);
        } else {
          Text.LessIrreflexive(b[0].0);
        }
        assert false;
      }
      forall x ensures x in a[1..] <==> x in b[1..] {
        if x in a[1..] {
          var m :| 0 <= m < |a[1..]| && a[1..][m] == x;
          assert a[m + 1] == x;
          Text.LessIrreflexive(a[0].0);
        }
        if x in b[1..] {
          var m :| 0 <= m < |b[1..]| && b[1..][m] == x;
          assert b[m + 1] == x;
          Text.LessIrreflexive(b[0].0);
        }
        assert x in a <==> x == a[0] || x in a[1..];
        assert x in b <==> x == b[0] || x in b[1..];
      }
      assert StrictlySorted(a[1..]) by {
        forall p, q | 0 <= p < q < |a[1..]| ensures Text.Less(a[1..][p].0, a[1..][q].0) {
          assert a[1..][p] == a[p + 1] && a[1..][q] == a[q + 1];
        }
      }
      assert StrictlySorted(b[1..]) by {
        forall p, q | 0 <= p < q < |b[1..]| ensures Text.Less(b[1..][p].0, b[1..][q].0) {
          assert b[1..][p] == b[p + 1] && b[1..][q] == b[q + 1];
        }
      }
      SortedUnique(a[1..], b[1..]);
      assert a == [a[0]] + a[1..] && b == [b[0]] + b[1..];
    }
  }

  /**
   * The signed entries are exactly the dict's entries other than `sign` and
   * `access_token`, in ascending key order.
   */
  lemma SignedEntries(params: seq<Entry>)
    requires DistinctKeys(params)
    ensures StrictlySorted(Signed(params))
    ensures forall x :: x in Signed(params) <==> x in params && x.0 != SignKey && x.0 != AccessTokenKey
  {
    SortSorted(params);
    PopSorted(ObjKeySort(params), SignKey);
    PopSorted(Pop(ObjKeySort(params), SignKey), AccessTokenKey);
  }

  /**
   * The signature depends only on the entries other than `sign` and
   * `access_token`: neither the dict's insertion order nor those two keys,
   * present, absent or changed, make a difference.
   */
  lemma SignDependsOnEntries(secret: string, path: string, p: seq<Entry>, q: seq<Entry>, body: Option<string>)
    requires DistinctKeys(p) && DistinctKeys(q)
    requires forall x: Entry :: x.0 != SignKey && x.0 != AccessTokenKey ==> (x in p <==> x in q)
    ensures SignString(secret, path, p, body) == SignString(secret, path, q, body)
  {
    SignedEntries(p);
    SignedEntries(q);
    SortedUnique(Signed(p), Signed(q));
  }

  /** Adding `sign` or `access_token` anywhere in a dict leaves the signature as it was. */
  lemma AddExcludedKey(secret: string, path: string, p: seq<Entry>, k: string, v: Json, i: nat, body: Option<string>)
    requires DistinctKeys(p) && (k == SignKey || k == AccessTokenKey) && i <= |p|
    requires forall j :: 0 <= j < |p| ==> p[j].0 != k
    ensures SignString(secret, path, p[..i] + [(k, v)] + p[i..], body) == SignString(secret, path, p, body)
  {
    var q := p[..i] + [(k, v)] + p[i..];
    InsertKeepsDistinct(p, (k, v), i);
    assert forall a :: 0 <= a < |q| ==> q[a] == (if a < i then p[a] else if a == i then (k, v) else p[a - 1]);
    forall x | x in p ensures x in q {
      var j :| 0 <= j < |p| && p[j] == x;
      assert q[if j < i then j else j + 1] == x;
    }
    forall x | x in q && x != (k, v) ensures x in p {
      var j :| 0 <= j < |q| && q[j] == x;
      assert j != i;
      assert p[if j < i then j else j - 1] == x;
    }
    SignDependsOnEntries(secret, path, p, q, body);
  }

  /** Inserting an entry under a new key keeps a dict's keys distinct. */
  lemma InsertKeepsDistinct(p: seq<Entry>, e: Entry, i: nat)
    requires DistinctKeys(p) && (forall j :: 0 <= j < |p| ==> p[j].0 != e.0) && i <= |p|
    ensures DistinctKeys(p[..i] + [e] + p[i..])
  {
    var q := p[..i] + [e] + p[i..];
    assert forall a :: 0 <= a < |q| ==> q[a] == (if a < i then p[a] else if a == i then e else p[a - 1]);
  }

  /** A body of `None` and a body of `""` both append only the secret. */
  lemma EmptyBodyIsNoBody(secret: string, path: string, params: seq<Entry>)
    ensures SignString(secret, path, params, None) == SignString(secret, path, params, Some(""))
    ensures SignString(secret, path, params, None) == secret + path + Concat(Signed(params)) + secret
  {
  }
}
