/**
 * The order-list view and its helpers: the multi-key stable sort, the
 * `$in` id lists of the filters, the shop and user scope of a listing by
 * role, the default time window and statuses, the per-shop fetch and the
 * fan-out over shops, the page count, and the tracking update endpoint.
 * `split_into_chunks` here is the same generator as the one of the order
 * API and is modelled by `OrderApi.Chunks`.
 */
module ListOrders {
  import opened Wrappers
  import opened Json
  import Text
  import PaginationFilter
  import OrderApi

  // ---------------------------------------------------------------- sort_orders

  /** The sort keys of an order: field name to value. */
  type Row = map<string, int>

  /** A `sorts` item: the field and its direction, `"desc"` reversing it. */
  type Criterion = (string, string)

  /** Every row has every sorted field; a missing one raises `KeyError` in the source. */
  predicate HasFields(rows: seq<Row>, cs: seq<Criterion>)
  {
    forall r, c :: r in rows && c in cs ==> c.0 in r
  }

  /** The value sorted on; only read for rows that have the field. */
  function Key(r: Row, field: string): int
  {
    if field in r then r[field] else 0
  }

  /** `a` sorts strictly before `b` under one criterion. */
  predicate Before(c: Criterion, a: Row, b: Row)
  {
    if c.1 == "desc" then Key(a, c.0) > Key(b, c.0) else Key(a, c.0) < Key(b, c.0)
  }

  /** `a` may come before `b` when the criteria are compared first to last. */
  predicate LexLe(cs: seq<Criterion>, a: Row, b: Row)
  {
    cs == []
    || Before(cs[0], a, b)
    || (Key(a, cs[0].0) == Key(b, cs[0].0) && LexLe(cs[1..], a, b))
  }

  predicate LexSorted(cs: seq<Criterion>, s: seq<Row>)
  {
    forall i, j :: 0 <= i < j < |s| ==> LexLe(cs, s[i], s[j])
  }

  /** Placing the last row of the input into a stably sorted list: after every row it does not sort before. */
  function InsertStable(t: seq<Row>, x: Row, c: Criterion): (r: seq<Row>)
    ensures multiset(r) == multiset(t) + multiset{x}
  {
    if t == [] then [x]
    else if Before(c, x, t[|t| - 1]) then
      assert t == t[..|t| - 1] + [t[|t| - 1]];
      InsertStable(t[..|t| - 1], x, c) + [t[|t| - 1]]
    else t + [x]
  }

  /** Python's stable `list.sort(key=lambda x: x[field], reverse=(order == "desc"))`. */
  function StableSort(s: seq<Row>, c: Criterion): (r: seq<Row>)
    ensures multiset(r) == multiset(s)
  {
    if s == [] then []
    else
      assert s == s[..|s| - 1] + [s[|s| - 1]];
      InsertStable(StableSort(s[..|s| - 1], c), s[|s| - 1], c)
  }

  /** `LexLe` is transitive. */
  lemma {:induction false} LexLeTrans(cs: seq<Criterion>, a: Row, b: Row, d: Row)
    requires LexLe(cs, a, b) && LexLe(cs, b, d)
    ensures LexLe(cs, a, d)
  {
    if cs != [] && !Before(cs[0], a, d) {
      LexLeTrans(cs[1..], a, b, d);
    }
  }

  /**
   * Inserting a row that every row of the list precedes under the later
   * criteria keeps the list sorted under all of them.
   */
  lemma {:induction false} InsertKeepsLex(cs: seq<Criterion>, t: seq<Row>, x: Row)
    requires cs != [] && LexSorted(cs, t)
    requires forall y :: y in t ==> LexLe(cs[1..], y, x)
    ensures LexSorted(cs, InsertStable(t, x, cs[0]))
  {
    if t != [] {
      var n := |t| - 1;
      var last := t[n];
      var r := InsertStable(t, x, cs[0]);
      if Before(cs[0], x, last) {
        var p := t[..n];
        InsertKeepsLex(cs, p, x);
        var q := InsertStable(p, x, cs[0]);
        assert r == q + [last];
        forall i | 0 <= i < |q| ensures LexLe(cs, q[i], last) {
          assert q[i] in multiset(q);
          if q[i] != x {
            var k :| 0 <= k < |p| && p[k] == q[i];
            assert t[k] == q[i];
          }
        }
      } else {
        assert r == t + [x];
        forall i | 0 <= i < |t| ensures LexLe(cs, t[i], x) {
          assert t[i] in t;
          if i < n {
            assert LexLe(cs, t[i], last);
          }
        }
      }
    }
  }

  /** One stable pass on the first criterion over a list sorted by the rest sorts it by all of them. */
  lemma {:induction false} StableSortLex(cs: seq<Criterion>, s: seq<Row>)
    requires cs != [] && LexSorted(cs[1..], s)
    ensures LexSorted(cs, StableSort(s, cs[0]))
  {
    if s != [] {
      var n := |s| - 1;
      LexSortedInit(cs[1..], s);
      StableSortLex(cs, s[..n]);
      SortedBelowLast(cs[1..], s, StableSort(s[..n], cs[0]));
      InsertKeepsLex(cs, StableSort(s[..n], cs[0]), s[n]);
    }
  }

  lemma LexSortedInit(cs: seq<Criterion>, s: seq<Row>)
    requires s != [] && LexSorted(cs, s)
    ensures LexSorted(cs, s[..|s| - 1])
  {
    var p := s[..|s| - 1];
    forall i, j | 0 <= i < j < |p|
      ensures LexLe(cs, p[i], p[j])
    {
      assert p[i] == s[i] && p[j] == s[j];
    }
  }

  /** Every row of a rearrangement of the others sorts no later than the last row. */
  lemma SortedBelowLast(cs: seq<Criterion>, s: seq<Row>, t: seq<Row>)
    requires s != [] && LexSorted(cs, s) && multiset(t) == multiset(s[..|s| - 1])
    ensures forall y :: y in t ==> LexLe(cs, y, s[|s| - 1])
  {
    forall y | y in t
      ensures LexLe(cs, y, s[|s| - 1])
    {
      assert y in multiset(s[..|s| - 1]);
      var k :| 0 <= k < |s| - 1 && s[..|s| - 1][k] == y;
      assert s[k] == y;
    }
  }

  /**
   * `sort_orders`: one stable sort per criterion, last to first, so the
   * result is ordered by the criteria compared first to last.
   */
  method SortOrders(orders: seq<Row>, sorts: seq<Criterion>) returns (sorted: seq<Row>)
    requires HasFields(orders, sorts)
    ensures multiset(sorted) == multiset(orders)
    ensures HasFields(sorted, sorts) && LexSorted(sorts, sorted)
  {
    sorted := orders;
    for k := |sorts| downto 0
      invariant multiset(sorted) == multiset(orders)
      invariant LexSorted(sorts[k..], sorted)
    {
      assert sorts[k..][1..] == sorts[k + 1..];
      StableSortLex(sorts[k..], sorted);
      sorted := StableSort(sorted, sorts[k]);
    }
    assert sorts[0..] == sorts;
    forall r, c | r in sorted && c in sorts ensures c.0 in r {
      assert r in multiset(sorted);
      assert r in orders;
    }
  }

  // ---------------------------------------------------------------- get_shop_list

  const NoUserGroup := "No UserGroup matches the given query."
  const ManagerRole := 1

  /** `filters.get(key, {}).get(op)`. */
  function Lookup(f: PaginationFilter.Filters, key: string, op: string): Option<string>
  {
    if key in f && op in f[key] then Some(f[key][op]) else None
  }

  /** `int(id.strip())`. */
  function ToInt(token: string): Option<int>
  {
    Text.ParseInt(Text.Strip(token))
  }

  /**
   * `[int(id.strip()) for id in tokens]`, with `toInt` for `int(id.strip())`:
   * the first token that is not an integer raises with its stripped text.
   */
  function ParseIds(tokens: seq<string>, toInt: string -> Option<int>): (r: Result<seq<int>>)
    ensures r.Ok? <==> forall i :: 0 <= i < |tokens| ==> toInt(tokens[i]).Some?
    ensures r.Ok? ==> |r.value| == |tokens|
    ensures r.Ok? ==> forall i :: 0 <= i < |tokens| ==> toInt(tokens[i]) == Some(r.value[i])
  {
    if tokens == [] then Ok([])
    else
      assert forall i :: 1 <= i < |tokens| ==> tokens[i] == tokens[1..][i - 1];
      match toInt(tokens[0])
      case None => Err(Text.InvalidLiteral(Text.Strip(tokens[0])))
      case Some(x) =>
        match ParseIds(tokens[1..], toInt)
        case Err(e) => Err(e)
        case Ok(xs) => Ok([x] + xs)
  }

  /** A failed parse reports the stripped text of the first token `int()` rejects. */
  lemma {:induction false} ParseIdsError(tokens: seq<string>, toInt: string -> Option<int>)
    requires ParseIds(tokens, toInt).Err?
    ensures exists i :: && 0 <= i < |tokens| && toInt(tokens[i]).None?
                        && (forall j :: 0 <= j < i ==> toInt(tokens[j]).Some?)
                        && ParseIds(tokens, toInt).error == Text.InvalidLiteral(Text.Strip(tokens[i]))
  {
    if toInt(tokens[0]).None? {
      assert ParseIds(tokens, toInt).error == Text.InvalidLiteral(Text.Strip(tokens[0]));
    } else {
      var rest := tokens[1..];
      ParseIdsSkip(tokens, toInt);
      ParseIdsError(rest, toInt);
      var i :| && 0 <= i < |rest| && toInt(rest[i]).None?
               && (forall j :: 0 <= j < i ==> toInt(rest[j]).Some?)
               && ParseIds(rest, toInt).error == Text.InvalidLiteral(Text.Strip(rest[i]));
      ShiftedPrefix(tokens, toInt, i);
      assert tokens[i + 1] == rest[i];
    }
  }

  /** Past an accepted first token, the parse fails exactly as the rest does. */
  lemma ParseIdsSkip(tokens: seq<string>, toInt: string -> Option<int>)
    requires tokens != [] && toInt(tokens[0]).Some?
    ensures ParseIds(tokens, toInt).Err? <==> ParseIds(tokens[1..], toInt).Err?
    ensures ParseIds(tokens, toInt).Err? ==> ParseIds(tokens, toInt).error == ParseIds(tokens[1..], toInt).error
  {
  }

  lemma ShiftedPrefix(tokens: seq<string>, toInt: string -> Option<int>, i: nat)
    requires i < |tokens| - 1 && toInt(tokens[0]).Some?
    requires forall j :: 0 <= j < i ==> toInt(tokens[1..][j]).Some?
    ensures forall j :: 0 <= j < i + 1 ==> toInt(tokens[j]).Some?
  {
    forall j | 0 <= j < i + 1
      ensures toInt(tokens[j]).Some?
    {
      if j > 0 {
        assert tokens[j] == tokens[1..][j - 1];
      }
    }
  }

  /**
   * `tuple(set(int(id.strip()) for id in value.split(",")))`, or `()` for an
   * empty value: the distinct integers of a comma list.
   */
  function IdSet(value: string): (r: Result<set<int>>)
    ensures value == "" ==> r == Ok({})
    ensures value != "" ==> (r.Ok? <==> ParseIds(Text.Split(value, ','), ToInt).Ok?)
    ensures r.Ok? && value != "" ==> r.value == set x | x in ParseIds(Text.Split(value, ','), ToInt).value
  {
    if value == "" then Ok({})
    else
      match ParseIds(Text.Split(value, ','), ToInt)
      case Err(e) => Err(e)
      case Ok(xs) => Ok(set x | x in xs)
  }

  /** An id is in the set exactly when some token of the comma list reads as it. */
  lemma IdSetMembers(value: string, x: int)
    requires IdSet(value).Ok?
    ensures x in IdSet(value).value <==>
      exists i :: 0 <= i < |Text.Split(value, ',')| && ToInt(Text.Split(value, ',')[i]) == Some(x)
  {
    if value != "" {
      var toks := Text.Split(value, ',');
      var xs := ParseIds(toks, ToInt).value;
      if x in IdSet(value).value {
        var i :| 0 <= i < |xs| && xs[i] == x;
        assert ToInt(toks[i]) == Some(x);
      }
    }
  }

  /** A row of the user-shop table. */
  datatype UserShop = UserShop(userId: int, shopId: int)

  /** The shops a listing reads and the users whose shops count. */
  datatype Scope = Scope(shops: set<int>, userIds: set<int>)

  /** `[user_shop.shop_id for user_shop in user_shops if ...]`, over the user's rows with an active shop. */
  function OwnShopIds(userShops: seq<UserShop>, user: int, activeShops: set<int>, requested: set<int>): (r: seq<int>)
    ensures forall s :: s in r <==>
      exists k :: 0 <= k < |userShops| && userShops[k] == UserShop(user, s) && s in activeShops && (requested == {} || s in requested)
  {
    if userShops == [] then []
    else
      var n := |userShops| - 1;
      var rest := OwnShopIds(userShops[..n], user, activeShops, requested);
      assert forall k :: 0 <= k < n ==> userShops[..n][k] == userShops[k];
      var u := userShops[n];
      if u.userId == user && u.shopId in activeShops && (requested == {} || u.shopId in requested) then rest + [u.shopId]
      else rest
  }

  /** The active shops that some user of the group has, restricted to the requested ones if any. */
  function GroupShops(userShops: seq<UserShop>, groupUsers: set<int>, activeShops: set<int>, requested: set<int>): set<int>
  {
    set k | 0 <= k < |userShops| && userShops[k].userId in groupUsers && userShops[k].shopId in activeShops
                                  && (requested == {} || userShops[k].shopId in requested) :: userShops[k].shopId
  }

  /**
   * `get_shop_list`: both id lists are parsed first; a user without a
   * group gets 404. A manager (role 1) sees the active shops of the
   * group's users and the requested users, or every user; anyone else
   * sees their own active shops and only themself.
   */
  function GetShopList(user: int, role: Option<int>, f: PaginationFilter.Filters, userShops: seq<UserShop>,
                       activeShops: set<int>, groupUsers: set<int>, allUsers: set<int>): (r: Result<Scope>)
    ensures IdSet(Lookup(f, "shop_id", "$in").GetOr("")).Err? ==> r == Err(IdSet(Lookup(f, "shop_id", "$in").GetOr("")).error)
    ensures r.Ok? <==> IdSet(Lookup(f, "shop_id", "$in").GetOr("")).Ok?
                       && IdSet(Lookup(f, "user_id", "$in").GetOr("")).Ok? && role.Some?
  {
    match IdSet(Lookup(f, "shop_id", "$in").GetOr(""))
    case Err(e) => Err(e)
    case Ok(shopIds) =>
      match IdSet(Lookup(f, "user_id", "$in").GetOr(""))
      case Err(e) => Err(e)
      case Ok(userIds) =>
        match role
        case None => Err(NoUserGroup)
        case Some(role) =>
          if role != ManagerRole then
            var own := OwnShopIds(userShops, user, activeShops, shopIds);
            Ok(Scope(set s | s in own, {user}))
          else
            Ok(Scope(GroupShops(userShops, groupUsers, activeShops, shopIds), if userIds == {} then allUsers else userIds))
  }

  /**
   * A non-manager lists only their own active shops, within the requested
   * ones when some are requested, and only themself as user.
   */
  lemma NonManagerScope(user: int, role: int, f: PaginationFilter.Filters, userShops: seq<UserShop>,
                        activeShops: set<int>, groupUsers: set<int>, allUsers: set<int>, s: int)
    requires role != ManagerRole
    requires GetShopList(user, Some(role), f, userShops, activeShops, groupUsers, allUsers).Ok?
    ensures GetShopList(user, Some(role), f, userShops, activeShops, groupUsers, allUsers).value.userIds == {user}
    ensures var requested := IdSet(Lookup(f, "shop_id", "$in").GetOr("")).value;
      s in GetShopList(user, Some(role), f, userShops, activeShops, groupUsers, allUsers).value.shops <==>
        (UserShop(user, s) in userShops && s in activeShops && (requested == {} || s in requested))
  {
    var requested := IdSet(Lookup(f, "shop_id", "$in").GetOr("")).value;
    var own := OwnShopIds(userShops, user, activeShops, requested);
    if UserShop(user, s) in userShops {
      var k :| 0 <= k < |userShops| && userShops[k] == UserShop(user, s);
    }
  }

  /**
   * A manager lists the active shops of their group's users, within the
   * requested ones when some are requested, and the requested users, or
   * every user when none is requested.
   */
  lemma ManagerScope(user: int, f: PaginationFilter.Filters, userShops: seq<UserShop>,
                     activeShops: set<int>, groupUsers: set<int>, allUsers: set<int>, s: int)
    requires GetShopList(user, Some(ManagerRole), f, userShops, activeShops, groupUsers, allUsers).Ok?
    ensures var requestedUsers := IdSet(Lookup(f, "user_id", "$in").GetOr("")).value;
      GetShopList(user, Some(ManagerRole), f, userShops, activeShops, groupUsers, allUsers).value.userIds
        == if requestedUsers == {} then allUsers else requestedUsers
    ensures var requested := IdSet(Lookup(f, "shop_id", "$in").GetOr("")).value;
      s in GetShopList(user, Some(ManagerRole), f, userShops, activeShops, groupUsers, allUsers).value.shops <==>
        (s in activeShops && (requested == {} || s in requested)
         && exists k :: 0 <= k < |userShops| && userShops[k].shopId == s && userShops[k].userId in groupUsers)
  {
  }

  // ---------------------------------------------------------------- get_all_order

  /** `timedelta(days=3)` in seconds. */
  const DefaultWindow := 3 * 24 * 60 * 60
  const DefaultStatuses: set<string> := {"AWAITING_SHIPMENT", "AWAITING_COLLECTION"}

  /** The filters passed on to the order listing of every shop. */
  datatype OrderQuery = OrderQuery(createTimeGe: int, createTimeLt: int, statuses: set<string>, buyerUserId: string)

  /** `int(filters.get("create_time", {}).get(op, default))`. */
  function TimeBound(f: PaginationFilter.Filters, op: string, default: int): (r: Result<int>)
    ensures Lookup(f, "create_time", op).None? ==> r == Ok(default)
    ensures Lookup(f, "create_time", op).Some? ==> (r.Ok? <==> ToInt(Lookup(f, "create_time", op).value).Some?)
    ensures r.Err? ==> r.error == Text.InvalidLiteral(Lookup(f, "create_time", op).value)
  {
    match Lookup(f, "create_time", op)
    case None => Ok(default)
    case Some(v) =>
      match ToInt(v)
      case None => Err(Text.InvalidLiteral(v))
      case Some(t) => Ok(t)
  }

  /**
   * The filters of `get_all_order` at time `now` (whole seconds): the
   * statuses of the `$in` list, or those awaiting shipment and collection;
   * the creation window, by default the last three days up to now; and the
   * buyer, by default any.
   */
  function OrderFilters(f: PaginationFilter.Filters, now: int): (r: Result<OrderQuery>)
    ensures r.Ok? <==> TimeBound(f, "$gte", now - DefaultWindow).Ok? && TimeBound(f, "$lt", now).Ok?
    ensures r.Ok? && Lookup(f, "order_status", "$in").GetOr("") == "" ==> r.value.statuses == DefaultStatuses
    ensures r.Ok? && Lookup(f, "order_status", "$in").GetOr("") != "" ==>
      forall st :: st in r.value.statuses <==> st in Text.Split(Lookup(f, "order_status", "$in").value, ',')
    ensures r.Ok? && Lookup(f, "create_time", "$gte").None? && Lookup(f, "create_time", "$lt").None? ==>
      r.value.createTimeLt == now && r.value.createTimeLt - r.value.createTimeGe == DefaultWindow
    ensures r.Ok? && Lookup(f, "buyer_user_id", "$eq").None? ==> r.value.buyerUserId == ""
  {
    var statusValue := Lookup(f, "order_status", "$in").GetOr("");
    var statuses := if statusValue != "" then set st | st in Text.Split(statusValue, ',') else DefaultStatuses;
    match (TimeBound(f, "$gte", now - DefaultWindow), TimeBound(f, "$lt", now))
    case (Ok(ge), Ok(lt)) => Ok(OrderQuery(ge, lt, statuses, Lookup(f, "buyer_user_id", "$eq").GetOr("")))
    case (Err(e), _) => Err(e)
    case (_, Err(e)) => Err(e)
  }

  /** A user-shop row whose user exists and is one of the listed users. */
  predicate Eligible(u: Option<OrderApi.Owner>, userIds: set<int>)
  {
    u.Some? && u.value.id in userIds
  }

  /** The first of the shop's users, in table order, that is listed. */
  function FirstEligible(users: seq<Option<OrderApi.Owner>>, userIds: set<int>): (r: Option<nat>)
    ensures r.Some? ==> r.value < |users| && Eligible(users[r.value], userIds)
    ensures r.Some? ==> forall j :: 0 <= j < r.value ==> !Eligible(users[j], userIds)
    ensures r.None? <==> forall j :: 0 <= j < |users| ==> !Eligible(users[j], userIds)
  {
    if users == [] then None
    else if Eligible(users[0], userIds) then Some(0)
    else
      match FirstEligible(users[1..], userIds)
      case None =>
        assert forall j :: 1 <= j < |users| ==> users[j] == users[1..][j - 1];
        None
      case Some(k) =>
        assert forall j :: 1 <= j < |users| ==> users[j] == users[1..][j - 1];
        Some(k + 1)
  }

  /**
   * `fetch_orders_for_shop`: the shop's user rows are scanned in order
   * (`users[k]` is `None` when the row's user no longer exists), and the
   * first listed user's orders are fetched; with none, nothing is.
   */
  method FetchOrdersForShop(users: seq<Option<OrderApi.Owner>>, userIds: set<int>,
                            list: OrderApi.Owner -> seq<OrderApi.Order>) returns (orders: seq<OrderApi.Order>)
    ensures FirstEligible(users, userIds).None? ==> orders == []
    ensures FirstEligible(users, userIds).Some? ==> orders == list(users[FirstEligible(users, userIds).value].value)
  {
    for k := 0 to |users|
      invariant forall j :: 0 <= j < k ==> !Eligible(users[j], userIds)
    {
      var user := users[k];
      if user.Some? && user.value.id in userIds {
        return list(user.value);
      }
    }
    return [];
  }

  /** The shops' orders laid end to end in the given order. */
  function ConcatOf(shops: seq<int>, fetch: int -> seq<OrderApi.Order>): seq<OrderApi.Order>
  {
    if shops == [] then [] else ConcatOf(shops[..|shops| - 1], fetch) + fetch(shops[|shops| - 1])
  }

  /**
   * `get_all_order` after the filters: one fetch per shop in a thread
   * pool, the results appended as the futures complete (`completion`).
   */
  method GetAllOrder(shops: seq<int>, completion: seq<int>, fetch: int -> seq<OrderApi.Order>)
    returns (allOrders: seq<OrderApi.Order>)
    requires multiset(completion) == multiset(shops)
    ensures allOrders == ConcatOf(completion, fetch)
    ensures multiset(allOrders) == multiset(ConcatOf(shops, fetch))
  {
    allOrders := [];
    for i := 0 to |completion|
      invariant allOrders == ConcatOf(completion[..i], fetch)
    {
      assert completion[..i + 1][..i] == completion[..i];
      allOrders := allOrders + fetch(completion[i]);
    }
    assert completion[..|completion|] == completion;
    ConcatPermutation(completion, shops, fetch);
  }

  lemma {:induction false} ConcatAppend(a: seq<int>, b: seq<int>, fetch: int -> seq<OrderApi.Order>)
    ensures ConcatOf(a + b, fetch) == ConcatOf(a, fetch) + ConcatOf(b, fetch)
  {
    if b == [] {
      assert a + b == a;
    } else {
      var n := |b| - 1;
      assert (a + b)[..|a + b| - 1] == a + b[..n];
      ConcatAppend(a, b[..n], fetch);
    }
  }

  /** The orders gathered do not depend on the order in which the shops finish. */
  lemma {:induction false} ConcatPermutation(p: seq<int>, q: seq<int>, fetch: int -> seq<OrderApi.Order>)
    requires multiset(p) == multiset(q)
    ensures multiset(ConcatOf(p, fetch)) == multiset(ConcatOf(q, fetch))
    decreases |p|
  {
    if p != [] {
      var n := |p| - 1;
      var x := p[n];
      assert p == p[..n] + [x];
      assert x in multiset(q);
      var k :| 0 <= k < |q| && q[k] == x;
      RemoveAtMultiset(q, k);
      assert multiset(p[..n]) == multiset(p) - multiset{x};
      ConcatPermutation(p[..n], q[..k] + q[k + 1..], fetch);
      ConcatRemove(q, k, fetch);
      ConcatAppend(p[..n], [x], fetch);
      assert ConcatOf([x], fetch) == ConcatOf([], fetch) + fetch(x);
    }
  }

  lemma RemoveAtMultiset(q: seq<int>, k: nat)
    requires k < |q|
    ensures multiset(q[..k] + q[k + 1..]) == multiset(q) - multiset{q[k]}
  {
    assert q == q[..k] + [q[k]] + q[k + 1..];
  }

  lemma ConcatRemove(q: seq<int>, k: nat, fetch: int -> seq<OrderApi.Order>)
    requires k < |q|
    ensures multiset(ConcatOf(q, fetch)) == multiset(ConcatOf(q[..k] + q[k + 1..], fetch)) + multiset(fetch(q[k]))
  {
    ConcatSplitAt(q, k, fetch);
    MultisetOfThree(ConcatOf(q[..k], fetch), fetch(q[k]), ConcatOf(q[k + 1..], fetch));
  }

  /** The orders of `q` are those before shop `k`, then shop `k`'s, then those after it. */
  lemma ConcatSplitAt(q: seq<int>, k: nat, fetch: int -> seq<OrderApi.Order>)
    requires k < |q|
    ensures ConcatOf(q, fetch) == ConcatOf(q[..k], fetch) + (fetch(q[k]) + ConcatOf(q[k + 1..], fetch))
    ensures ConcatOf(q[..k] + q[k + 1..], fetch) == ConcatOf(q[..k], fetch) + ConcatOf(q[k + 1..], fetch)
  {
    var before, x, after := q[..k], q[k], q[k + 1..];
    assert ConcatOf(q, fetch) == ConcatOf(before, fetch) + ConcatOf([x] + after, fetch) by {
      assert q == before + ([x] + after) by {
        assert q[k..] == [x] + after;
        assert q == before + q[k..];
      }
      ConcatAppend(before, [x] + after, fetch);
    }
    assert ConcatOf([x] + after, fetch) == fetch(x) + ConcatOf(after, fetch) by {
      ConcatAppend([x], after, fetch);
      ConcatSingle(x, fetch);
    }
    ConcatAppend(before, after, fetch);
  }

  lemma ConcatSingle(x: int, fetch: int -> seq<OrderApi.Order>)
    ensures ConcatOf([x], fetch) == fetch(x)
  {
    assert [x][..0] == [];
  }

  lemma MultisetOfThree(a: seq<OrderApi.Order>, b: seq<OrderApi.Order>, c: seq<OrderApi.Order>)
    ensures multiset(a + (b + c)) == multiset(a + c) + multiset(b)
  {
  }

  // ---------------------------------------------------------------- ListOderOfUserView

  /** `(total_items // limit) + (1 if total_items % limit > 0 else 0)`. */
  function TotalPages(total: nat, limit: int): (r: nat)
    requires limit >= 1
    ensures total == 0 <==> r == 0
    ensures r > 0 ==> (r - 1) * limit < total <= r * limit
  {
    var q := total / limit;
    assert total == q * limit + total % limit;
    assert (q + 1) * limit == q * limit + limit;
    q + (if total % limit > 0 then 1 else 0)
  }

  datatype Meta = Meta(totalItems: nat, totalPages: nat, offset: int, limit: int)
  datatype ListResponse = ListResponse(meta: Meta, data: seq<OrderApi.Order>, errors: seq<string>)

  /**
   * The response of the order-list view: every fetched order, unsorted and
   * without the page slice, with the page count for the requested limit.
   */
  function ListOrderResponse(allOrders: seq<OrderApi.Order>, errors: seq<string>, limit: int, offset: int): (r: ListResponse)
    requires limit >= 1
    ensures r.data == allOrders && r.meta.totalItems == |allOrders|
    ensures r.meta.totalPages * limit >= |r.data|
    ensures r.meta.totalPages > 0 ==> (r.meta.totalPages - 1) * limit < |r.data|
  {
    ListResponse(Meta(|allOrders|, TotalPages(|allOrders|, limit), offset, limit), allOrders, errors)
  }

  // ---------------------------------------------------------------- UpdateTrackingInfor

  datatype Response = Response(status: int, message: string)

  const Required := "package_ids and tracking_ids are required"
  const InvalidJson := "Invalid JSON data"
  const ShopNotFound := "Shop not found"
  const Updated := "Tracking information updated successfully"

  /**
   * `TIKTOK_API_URL["url_update_tracking_infor"]` raises `KeyError`: the URL
   * table defines this endpoint under `url_update_tracking` only, and
   * `str()` of the `KeyError` is the quoted key.
   */
  const MissingUrlKey := "'url_update_tracking_infor'"

  /** `data.get(...)` on a parsed body that is not a dict raises `AttributeError`. */
  function NoGet(data: Json): string
  {
    "'" + TypeName(data) + "' object has no attribute 'get'"
  }

  /**
   * The checks of `UpdateTrackingInfor.post` before the update: the body
   * must be JSON (`None` when it does not parse), a dict, with truthy
   * `package_ids` and `tracking_ids`, and the shop must exist.
   */
  function TrackingPrecheck(body: Option<Json>, shop: Option<OrderApi.Shop>): (r: Option<Response>)
    ensures r.None? <==> body.Some? && body.value.JObj? && Truthy(Arg(body.value, "package_ids"))
                         && Truthy(Arg(body.value, "tracking_ids")) && shop.Some?
    ensures r.Some? ==> r.value.status in {400, 404, 500}
    ensures body.None? ==> r == Some(Response(400, InvalidJson))
    ensures body.Some? && !body.value.JObj? ==> r == Some(Response(500, NoGet(body.value)))
    ensures body.Some? && body.value.JObj? && !Truthy(Arg(body.value, "package_ids")) ==> r == Some(Response(400, Required))
    ensures r.Some? && r.value.status == 404 ==> r.value.message == ShopNotFound && shop.None?
  {
    match body
    case None => Some(Response(400, InvalidJson))
    case Some(data) =>
      if !data.JObj? then Some(Response(500, NoGet(data)))
      else if !Truthy(Arg(data, "package_ids")) || !Truthy(Arg(data, "tracking_ids")) then Some(Response(400, Required))
      else if shop.None? then Some(Response(404, ShopNotFound))
      else None
  }

  /**
   * The endpoint as written: once the checks pass, `update_tracking_infor`
   * looks its URL up under a key the URL table lacks, so it raises
   * `KeyError` before its loop and the view answers 500 with the key.
   */
  function UpdateTrackingInforAsWritten(body: Option<Json>, shop: Option<OrderApi.Shop>): (r: Response)
    ensures TrackingPrecheck(body, shop).Some? ==> r == TrackingPrecheck(body, shop).value
  {
    match TrackingPrecheck(body, shop)
    case Some(resp) => resp
    case None => Response(500, MissingUrlKey)
  }

  /**
   * No request ever updates tracking: one that passes the checks gets 500
   * with the missing URL key, whatever its package and tracking ids hold.
   */
  lemma UpdateTrackingNeverSucceeds(body: Option<Json>, shop: Option<OrderApi.Shop>)
    ensures UpdateTrackingInforAsWritten(body, shop).status != 200
    ensures TrackingPrecheck(body, shop).None? ==> UpdateTrackingInforAsWritten(body, shop) == Response(500, MissingUrlKey)
  {
  }

  /**
   * `tracking_ids[index]`: a list or a string by position, with
   * `IndexError` past its end; a dict raises `KeyError` on the integer key;
   * anything else is not subscriptable.
   */
  function TrackingAt(trackingIds: Json, i: nat): (r: Result<Json>)
    ensures trackingIds.JArr? ==> (r.Ok? <==> i < |trackingIds.items|)
    ensures trackingIds.JArr? && r.Ok? ==> r.value == trackingIds.items[i]
  {
    match trackingIds
    case JArr(items) => if i < |items| then Ok(items[i]) else Err("list index out of range")
    case JStr(t) => if i < |t| then Ok(JStr([t[i]])) else Err("string index out of range")
    case JObj(_) => Err(Text.NatToString(i))
    case _ => Err("'" + TypeName(trackingIds) + "' object is not subscriptable")
  }

  /**
   * The requests of `update_tracking_infor` with the request built inside
   * the loop: one per package, the i-th carrying `tracking_ids[i]`; the
   * first index that cannot be read raises.
   */
  function TrackingRequests(packageIds: seq<Json>, trackingIds: Json): (r: Result<seq<(Json, Json)>>)
    ensures r.Ok? <==> forall i :: 0 <= i < |packageIds| ==> TrackingAt(trackingIds, i).Ok?
    ensures r.Ok? ==> |r.value| == |packageIds|
    ensures r.Ok? ==> forall i :: 0 <= i < |packageIds| ==> r.value[i] == (packageIds[i], TrackingAt(trackingIds, i).value)
    ensures r.Err? ==>
      exists k :: 0 <= k < |packageIds| && TrackingAt(trackingIds, k).Err? && r.error == TrackingAt(trackingIds, k).error
  {
    if packageIds == [] then Ok([])
    else
      var k := |packageIds| - 1;
      match TrackingRequests(packageIds[..k], trackingIds)
      case Err(e) => Err(e)
      case Ok(init) =>
        match TrackingAt(trackingIds, k)
        case Err(e) => Err(e)
        case Ok(t) => Ok(init + [(packageIds[k], t)])
  }

  /** With a list of tracking ids, the requests are built exactly when there are enough of them. */
  lemma TrackingListRequests(packageIds: seq<Json>, trackingIds: seq<Json>)
    ensures TrackingRequests(packageIds, JArr(trackingIds)).Ok? <==> |packageIds| <= |trackingIds|
    ensures |packageIds| > |trackingIds| ==> TrackingRequests(packageIds, JArr(trackingIds)).error == "list index out of range"
  {
    if |packageIds| > |trackingIds| {
      assert !TrackingAt(JArr(trackingIds), |trackingIds|).Ok?;
    }
  }

  /**
   * The endpoint corrected: the URL looked up under the `url_update_tracking`
   * key the URL table defines, the shop read through its attributes, and
   * the request sent for every package. `post` answers each `(package id,
   * tracking id)` with a status and a text, and the view reports the last
   * answer.
   */
  function UpdateTrackingInfor(body: Option<Json>, shop: Option<OrderApi.Shop>, post: (Json, Json) -> (int, string))
    : (r: Response)
    ensures TrackingPrecheck(body, shop).Some? ==> r == TrackingPrecheck(body, shop).value
    ensures r.status == 200 ==> r.message == Updated
  {
    match TrackingPrecheck(body, shop)
    case Some(resp) => resp
    case None =>
      var ids := Arg(body.value, "package_ids");
      match Iterate(ids)
      case None => Response(500, NotIterable(ids))
      case Some(packageIds) =>
        match TrackingRequests(packageIds, Arg(body.value, "tracking_ids"))
        case Err(e) => Response(500, e)
        case Ok(requests) =>
          // a truthy list, string or dict has at least one element
          assert packageIds != [] by { assert Truthy(ids); }
          var last := post(requests[|requests| - 1].0, requests[|requests| - 1].1);
          if last.0 == 200 then Response(200, Updated) else Response(last.0, last.1)
  }

  /**
   * With the request sent per package, a well-formed update whose requests
   * are all accepted answers 200, where the code as written answers 500.
   */
  lemma UpdateTrackingCanSucceed(body: Option<Json>, shop: Option<OrderApi.Shop>, post: (Json, Json) -> (int, string))
    requires TrackingPrecheck(body, shop).None?
    requires Arg(body.value, "package_ids").JArr? && Arg(body.value, "tracking_ids").JArr?
    requires |Arg(body.value, "package_ids").items| <= |Arg(body.value, "tracking_ids").items|
    requires forall a, b :: post(a, b).0 == 200
    ensures UpdateTrackingInfor(body, shop, post) == Response(200, Updated)
    ensures UpdateTrackingInforAsWritten(body, shop).status == 500
  {
    TrackingListRequests(Arg(body.value, "package_ids").items, Arg(body.value, "tracking_ids").items);
  }
}
