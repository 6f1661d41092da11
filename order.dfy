/**
 * The order calls to the TikTok shop API: the shipping-label retry, the
 * per-shop error list, the paged order listing over several statuses, the
 * grouping of orders by shop, fixed-size chunking, and the merging of order
 * details into a chunk of orders. Each reply of the API is an oracle.
 */
module OrderApi {
  import opened Wrappers
  import opened Json
  import Text

  const ShippingDocAttempts := 10
  const DetailChunkSize := 50

  /** `order_status_list`. */
  const OrderStatusList: seq<string> := [
    "UNPAID", "ON_HOLD", "PARTIALLY_SHIPPING", "AWAITING_SHIPMENT", "AWAITING_COLLECTION",
    "IN_TRANSIT", "DELIVERED", "COMPLETED", "CANCELLED"]

  datatype Shop = Shop(id: nat, name: string, cipher: string, accessToken: string, appKey: string, appSecret: string)
  datatype Owner = Owner(id: nat, username: string)
  /** The `shop` dict of an order; the token and the cipher are dropped once details are merged. */
  datatype ShopInfo = ShopInfo(id: nat, name: string, cipher: Option<string>, accessToken: Option<string>, appKey: string, appSecret: string)

  function FullInfo(s: Shop): ShopInfo
  {
    ShopInfo(s.id, s.name, Some(s.cipher), Some(s.accessToken), s.appKey, s.appSecret)
  }

  /** `{key: value for key, value in shop.items() if key not in ["access_token", "shop_cipher"]}`. */
  function Stripped(i: ShopInfo): (r: ShopInfo)
    ensures r.cipher.None? && r.accessToken.None?
    ensures r.(cipher := i.cipher, accessToken := i.accessToken) == i
  {
    i.(cipher := None, accessToken := None)
  }

  /** An order as the API returns it: its id and the fields passed through. */
  datatype RawOrder = RawOrder(id: string, fields: Json)

  /** An order once annotated; `packages` and `itemList` are set when details are merged. */
  datatype Order = Order(id: string, fields: Json, shopOwner: Owner, shop: ShopInfo,
                         packages: Option<seq<string>>, itemList: Option<seq<Json>>)

  // ---------------------------------------------------------------- callGetShippingDoc

  /**
   * The first of attempts `k .. 10` whose reply has a non-empty `doc_url`.
   * `docUrl(k)` is `None` when attempt `k`'s reply has no `data` dict (the
   * exception is logged) or no `doc_url`.
   */
  function ShippingDocSpec(docUrl: nat -> Option<string>, k: nat): Option<string>
    requires 1 <= k <= ShippingDocAttempts + 1
    decreases ShippingDocAttempts + 1 - k
  {
    if k > ShippingDocAttempts then None
    else if docUrl(k).Some? && docUrl(k).value != "" then docUrl(k)
    else ShippingDocSpec(docUrl, k + 1)
  }

  /** `callGetShippingDoc`: up to ten requests, returning the first non-empty `doc_url`. */
  method CallGetShippingDoc(docUrl: nat -> Option<string>) returns (r: Option<string>, attempts: nat)
    ensures r == ShippingDocSpec(docUrl, 1)
    ensures 1 <= attempts <= ShippingDocAttempts
    ensures r.Some? ==> r.value != "" && docUrl(attempts) == r
    ensures r.None? ==> attempts == ShippingDocAttempts
  {
    attempts := 0;
    for attempt := 1 to ShippingDocAttempts + 1
      invariant attempts == attempt - 1
      invariant ShippingDocSpec(docUrl, 1) == ShippingDocSpec(docUrl, attempt)
    {
      attempts := attempt;
      var url := docUrl(attempt);
      if url.Some? && url.value != "" {
        return url, attempts;
      }
    }
    r := None;
  }

  /** `None` comes back exactly when none of the ten replies carries a URL. */
  lemma {:induction false} ShippingDocNone(docUrl: nat -> Option<string>, k: nat)
    requires 1 <= k <= ShippingDocAttempts + 1
    ensures ShippingDocSpec(docUrl, k).None? <==>
      forall j :: k <= j <= ShippingDocAttempts ==> docUrl(j).None? || docUrl(j).value == ""
    decreases ShippingDocAttempts + 1 - k
  {
    if k <= ShippingDocAttempts {
      ShippingDocNone(docUrl, k + 1);
    }
  }

  // ---------------------------------------------------------------- check_and_append_errors

  /** The text searched for: `f"{shop_id} |"`. */
  function ShopMarker(shopId: nat): string
  {
    Text.NatToString(shopId) + " |"
  }

  /** `check_and_append_errors`: no recorded error contains the shop's marker. */
  predicate CheckAndAppendErrors(errors: seq<string>, shopId: nat)
  {
    forall i :: 0 <= i < |errors| ==> !Text.Contains(errors[i], ShopMarker(shopId))
  }

  /** `f"{shop.id} | {shop.shop_name} | {what}"`. */
  function ErrorLine(shop: Shop, what: string): string
  {
    Text.NatToString(shop.id) + " | " + shop.name + " | " + what
  }

  lemma LineHasMarker(shop: Shop, what: string)
    ensures Text.Contains(ErrorLine(shop, what), ShopMarker(shop.id))
  {
    var line := ErrorLine(shop, what);
    var m := ShopMarker(shop.id);
    assert line[0..|m|] == m;
    Text.ContainsAt(line, m, 0);
  }

  /** The error recorded for a shop, unless one mentioning it is already there. */
  function RecordError(errors: seq<string>, shop: Shop, what: string): (r: seq<string>)
    ensures !CheckAndAppendErrors(r, shop.id)
    ensures CheckAndAppendErrors(errors, shop.id) ==> r == errors + [ErrorLine(shop, what)]
    ensures !CheckAndAppendErrors(errors, shop.id) ==> r == errors
  {
    if CheckAndAppendErrors(errors, shop.id) then
      LineHasMarker(shop, what);
      assert (errors + [ErrorLine(shop, what)])[|errors|] == ErrorLine(shop, what);
      errors + [ErrorLine(shop, what)]
    else errors
  }

  /** The substring test also matches longer ids ending in the same digits: an error of shop 11 blocks shop 1. */
  lemma SuffixIdBlocks(shop: Shop, what: string)
    requires shop.id == 11
    ensures !CheckAndAppendErrors([ErrorLine(shop, what)], 1)
  {
    var line := ErrorLine(shop, what);
    assert Text.DigitChar(1) == '1';
    assert Text.NatToString(1) == "1";
    assert Text.NatToString(11) == Text.NatToString(1) + [Text.DigitChar(1)] == "11";
    assert ShopMarker(1) == "1 |";
    assert line[..4] == "11 |";
    assert line[1..4] == ShopMarker(1);
    Text.ContainsAt(line, ShopMarker(1), 1);
    assert [line][0] == line;
  }

  // ---------------------------------------------------------------- req_get_order_list_new

  /** One reply of the order-list endpoint for a status and a page token. */
  datatype Reply = Expired | Failed | Page(orders: seq<RawOrder>, nextToken: string)

  predicate Annotated(o: Order, shop: Shop, user: Owner)
  {
    o.shopOwner == user && o.shop == FullInfo(shop)
  }

  predicate AllAnnotated(os: seq<Order>, shop: Shop, user: Owner)
  {
    forall i :: 0 <= i < |os| ==> Annotated(os[i], shop, user)
  }

  /** Each fetched order gets `shop_owner` and the full `shop` dict. */
  function Annotate(os: seq<RawOrder>, shop: Shop, user: Owner): (r: seq<Order>)
    ensures |r| == |os| && forall i :: 0 <= i < |os| ==> r[i].id == os[i].id && r[i].fields == os[i].fields
    ensures AllAnnotated(r, shop, user)
  {
    seq(|os|, i requires 0 <= i < |os| => Order(os[i].id, os[i].fields, user, FullInfo(shop), None, None))
  }

  /** Orders fetched, the shared error list, and `error_occurred`. */
  datatype FetchState = FetchState(orders: seq<Order>, errors: seq<string>, failed: bool)

  /** The errors only ever gain one line for the shop, and only while none mentions it. */
  predicate ErrorsGrow(before: seq<string>, after: seq<string>, shopId: nat)
  {
    after == before
    || (CheckAndAppendErrors(before, shopId) && |after| == |before| + 1 && after[..|before|] == before
        && !CheckAndAppendErrors(after, shopId))
  }

  /**
   * The `while` loop of `fetch_orders_for_status` from page `token` on, at
   * most `fuel` pages: the orders it gathers, and the errors and the flag
   * after it. An expired token records an error and ends this status (its
   * orders so far are kept); any other failure also sets `error_occurred`.
   */
  function PagesSpec(shop: Shop, user: Owner, status: string, reply: (string, string) -> Reply,
                     token: string, fuel: nat, errors: seq<string>, failed: bool): (r: FetchState)
    ensures ErrorsGrow(errors, r.errors, shop.id)
    ensures AllAnnotated(r.orders, shop, user)
    ensures failed ==> r == FetchState([], errors, true)
    ensures !failed && r.failed ==> !CheckAndAppendErrors(r.errors, shop.id)
    decreases fuel
  {
    if failed || fuel == 0 then FetchState([], errors, failed)
    else
      match reply(status, token)
      case Expired => FetchState([], RecordError(errors, shop, "token expired."), false)
      case Failed => FetchState([], RecordError(errors, shop, "wrong token."), true)
      case Page(os, next) =>
        if next == "" then FetchState(Annotate(os, shop, user), errors, false)
        else
          var r := PagesSpec(shop, user, status, reply, next, fuel - 1, errors, false);
          FetchState(Annotate(os, shop, user) + r.orders, r.errors, r.failed)
  }

  /** `fetch_orders_for_status`: an unknown status fetches nothing; a known one starts from the page token `""`. */
  function StatusSpec(shop: Shop, user: Owner, status: string, reply: (string, string) -> Reply,
                      fuel: nat, errors: seq<string>, failed: bool): FetchState
  {
    if status !in OrderStatusList then FetchState([], errors, failed)
    else PagesSpec(shop, user, status, reply, "", fuel, errors, failed)
  }

  /** `req_get_order_list_new` over the statuses, first to last. */
  function ListSpec(shop: Shop, user: Owner, statuses: seq<string>, reply: (string, string) -> Reply,
                    fuel: nat, errors: seq<string>): (r: FetchState)
    ensures ErrorsGrow(errors, r.errors, shop.id)
    ensures AllAnnotated(r.orders, shop, user)
  {
    if statuses == [] then FetchState([], errors, false)
    else
      var st := ListSpec(shop, user, statuses[..|statuses| - 1], reply, fuel, errors);
      var s := StatusSpec(shop, user, statuses[|statuses| - 1], reply, fuel, st.errors, st.failed);
      FetchState(st.orders + s.orders, s.errors, s.failed)
  }

  /**
   * `fetch_orders_for_status`: pages are fetched following `next_page_token`
   * until it is empty or an error stops them; at most `fuel` pages are read.
   */
  method FetchOrdersForStatus(shop: Shop, user: Owner, status: string, reply: (string, string) -> Reply,
                              fuel: nat, errors: seq<string>, failed: bool)
    returns (ordersForStatus: seq<Order>, errorsOut: seq<string>, errorOccurred: bool)
    ensures FetchState(ordersForStatus, errorsOut, errorOccurred) == StatusSpec(shop, user, status, reply, fuel, errors, failed)
  {
    ordersForStatus := [];
    errorsOut := errors;
    errorOccurred := failed;
    if status !in OrderStatusList {
      return;
    }
    var pageToken := "";
    var withinRange := true;
    var left := fuel;
    while withinRange && !errorOccurred && left > 0
      invariant StatusSpec(shop, user, status, reply, fuel, errors, failed) ==
        (if !withinRange then FetchState(ordersForStatus, errorsOut, errorOccurred)
         else
           var r := PagesSpec(shop, user, status, reply, pageToken, left, errorsOut, errorOccurred);
           FetchState(ordersForStatus + r.orders, r.errors, r.failed))
      decreases left
    {
      var page := reply(status, pageToken);
      match page {
        case Expired =>
          errorsOut := RecordError(errorsOut, shop, "token expired.");
          withinRange := false;
        case Failed =>
          errorsOut := RecordError(errorsOut, shop, "wrong token.");
          errorOccurred := true;
          withinRange := false;
        case Page(os, next) =>
          var r := PagesSpec(shop, user, status, reply, next, left - 1, errorsOut, false);
          assert ordersForStatus + (Annotate(os, shop, user) + r.orders)
              == (ordersForStatus + Annotate(os, shop, user)) + r.orders;
          ordersForStatus := ordersForStatus + Annotate(os, shop, user);
          pageToken := next;
          withinRange := next != "";
      }
      left := left - 1;
    }
    if withinRange {
      assert ordersForStatus + [] == ordersForStatus;
    }
  }

  /**
   * `req_get_order_list_new`: the orders of every status in turn, with the
   * page token reset between statuses and `error_occurred` never reset.
   */
  method ReqGetOrderList(shop: Shop, user: Owner, statuses: seq<string>, reply: (string, string) -> Reply,
                         fuel: nat, errors: seq<string>) returns (allOrders: seq<Order>, errorsOut: seq<string>)
    ensures allOrders == ListSpec(shop, user, statuses, reply, fuel, errors).orders
    ensures errorsOut == ListSpec(shop, user, statuses, reply, fuel, errors).errors
  {
    allOrders := [];
    errorsOut := errors;
    var errorOccurred := false;
    for i := 0 to |statuses|
      invariant FetchState(allOrders, errorsOut, errorOccurred) == ListSpec(shop, user, statuses[..i], reply, fuel, errors)
    {
      assert statuses[..i + 1][..i] == statuses[..i];
      var os;
      os, errorsOut, errorOccurred := FetchOrdersForStatus(shop, user, statuses[i], reply, fuel, errorsOut, errorOccurred);
      allOrders := allOrders + os;
    }
    assert statuses[..|statuses|] == statuses;
  }

  /** Once a reply other than an expired token fails, no later status fetches anything. */
  lemma {:induction false} FailureIsSticky(shop: Shop, user: Owner, statuses: seq<string>,
                                           reply: (string, string) -> Reply, fuel: nat, errors: seq<string>, j: nat)
    requires j <= |statuses| && ListSpec(shop, user, statuses[..j], reply, fuel, errors).failed
    ensures ListSpec(shop, user, statuses, reply, fuel, errors) == ListSpec(shop, user, statuses[..j], reply, fuel, errors)
    decreases |statuses| - j
  {
    if j < |statuses| {
      assert statuses[..j + 1][..j] == statuses[..j];
      assert ListSpec(shop, user, statuses[..j], reply, fuel, errors).orders + [] == ListSpec(shop, user, statuses[..j], reply, fuel, errors).orders;
      FailureIsSticky(shop, user, statuses, reply, fuel, errors, j + 1);
    } else {
      assert statuses[..j] == statuses;
    }
  }

  /** Statuses outside `order_status_list` fetch nothing and record nothing. */
  lemma {:induction false} UnknownStatusesFetchNothing(shop: Shop, user: Owner, statuses: seq<string>,
                                                      reply: (string, string) -> Reply, fuel: nat, errors: seq<string>)
    requires forall i :: 0 <= i < |statuses| ==> statuses[i] !in OrderStatusList
    ensures ListSpec(shop, user, statuses, reply, fuel, errors) == FetchState([], errors, false)
  {
    if statuses != [] {
      var n := |statuses| - 1;
      assert forall i :: 0 <= i < n ==> statuses[..n][i] == statuses[i];
      UnknownStatusesFetchNothing(shop, user, statuses[..n], reply, fuel, errors);
    }
  }

  // ---------------------------------------------------------------- split_orders_by_shop_id

  /** One entry of `orders_by_shop_id`: the shop's orders, and the owner and shop of its first order. */
  datatype Group = Group(shopId: nat, orders: seq<Order>, owner: Owner, shop: ShopInfo)

  /** The position of a shop's group in the dict's insertion order. */
  function GroupIndex(gs: seq<Group>, shopId: nat): (r: Option<nat>)
    ensures r.Some? ==> r.value < |gs| && gs[r.value].shopId == shopId
    ensures r.None? ==> forall k :: 0 <= k < |gs| ==> gs[k].shopId != shopId
  {
    if gs == [] then None
    else if gs[|gs| - 1].shopId == shopId then Some(|gs| - 1)
    else GroupIndex(gs[..|gs| - 1], shopId)
  }

  /** One step of the loop: the order joins its shop's group, which is created the first time. */
  function AddToGroups(gs: seq<Group>, o: Order): seq<Group>
  {
    match GroupIndex(gs, o.shop.id)
    case None => gs + [Group(o.shop.id, [o], o.shopOwner, o.shop)]
    case Some(k) => gs[k := gs[k].(orders := gs[k].orders + [o])]
  }

  /** `split_orders_by_shop_id`, as groups in insertion order. */
  function SplitByShop(orders: seq<Order>): seq<Group>
  {
    if orders == [] then [] else AddToGroups(SplitByShop(orders[..|orders| - 1]), orders[|orders| - 1])
  }

  /** The orders of one shop, in their original order. */
  function OrdersOf(orders: seq<Order>, shopId: nat): (r: seq<Order>)
    ensures |r| <= |orders|
    ensures forall i :: 0 <= i < |r| ==> r[i].shop.id == shopId
  {
    if orders == [] then []
    else
      var rest := OrdersOf(orders[..|orders| - 1], shopId);
      if orders[|orders| - 1].shop.id == shopId then rest + [orders[|orders| - 1]] else rest
  }

  function FlattenGroups(gs: seq<Group>): seq<Order>
  {
    if gs == [] then [] else FlattenGroups(gs[..|gs| - 1]) + gs[|gs| - 1].orders
  }

  /** No two groups share a shop id: `orders_by_shop_id` is a dict. */
  predicate DistinctShops(gs: seq<Group>)
  {
    forall j, k :: 0 <= j < k < |gs| ==> gs[j].shopId != gs[k].shopId
  }

  /** Each group holds exactly its shop's orders, in their original order. */
  predicate GroupsHold(gs: seq<Group>, orders: seq<Order>)
  {
    forall k :: 0 <= k < |gs| ==> gs[k].orders == OrdersOf(orders, gs[k].shopId)
  }

  /** Each group is non-empty and carries the owner and shop of its first order. */
  predicate GroupsHeaded(gs: seq<Group>)
  {
    forall k :: 0 <= k < |gs| ==>
      gs[k].orders != [] && gs[k].shop == gs[k].orders[0].shop && gs[k].owner == gs[k].orders[0].shopOwner
  }

  /** Every order's shop has a group. */
  predicate GroupsCover(gs: seq<Group>, orders: seq<Order>)
  {
    forall i :: 0 <= i < |orders| ==> GroupIndex(gs, orders[i].shop.id).Some?
  }

  method SplitOrdersByShopId(orders: seq<Order>) returns (gs: seq<Group>)
    ensures gs == SplitByShop(orders)
  {
    gs := [];
    for i := 0 to |orders|
      invariant gs == SplitByShop(orders[..i])
    {
      assert orders[..i + 1][..i] == orders[..i];
      var o := orders[i];
      match GroupIndex(gs, o.shop.id) {
        case None =>
          gs := gs + [Group(o.shop.id, [o], o.shopOwner, o.shop)];
        case Some(k) =>
          gs := gs[k := gs[k].(orders := gs[k].orders + [o])];
      }
    }
    assert orders[..|orders|] == orders;
  }

  lemma OrdersOfAppend(orders: seq<Order>, o: Order, shopId: nat)
    ensures OrdersOf(orders + [o], shopId) == if o.shop.id == shopId then OrdersOf(orders, shopId) + [o] else OrdersOf(orders, shopId)
  {
    assert (orders + [o])[..|orders|] == orders;
  }

  lemma OrdersOfNone(orders: seq<Order>, shopId: nat)
    requires forall i :: 0 <= i < |orders| ==> orders[i].shop.id != shopId
    ensures OrdersOf(orders, shopId) == []
  {
    if orders != [] {
      OrdersOfNone(orders[..|orders| - 1], shopId);
    }
  }

  /** Every order lands in exactly one group, which keeps the orders of its shop in their original order. */
  lemma {:induction false} SplitByShopGroups(orders: seq<Order>)
    ensures DistinctShops(SplitByShop(orders))
    ensures GroupsHold(SplitByShop(orders), orders)
    ensures GroupsHeaded(SplitByShop(orders))
    ensures GroupsCover(SplitByShop(orders), orders)
  {
    if orders != [] {
      var n := |orders| - 1;
      assert orders == orders[..n] + [orders[n]];
      SplitByShopGroups(orders[..n]);
      AddDistinct(SplitByShop(orders[..n]), orders[n]);
      AddHolds(SplitByShop(orders[..n]), orders[..n], orders[n]);
      AddHeaded(SplitByShop(orders[..n]), orders[n]);
      AddCovers(SplitByShop(orders[..n]), orders[..n], orders[n]);
    }
  }

  lemma AddDistinct(gs: seq<Group>, o: Order)
    requires DistinctShops(gs)
    ensures DistinctShops(AddToGroups(gs, o))
  {
  }

  lemma AddHeaded(gs: seq<Group>, o: Order)
    requires GroupsHeaded(gs)
    ensures GroupsHeaded(AddToGroups(gs, o))
  {
    var gs' := AddToGroups(gs, o);
    forall k | 0 <= k < |gs'|
      ensures gs'[k].orders != [] && gs'[k].shop == gs'[k].orders[0].shop && gs'[k].owner == gs'[k].orders[0].shopOwner
    {
      if k < |gs| && gs'[k] != gs[k] {
        assert gs'[k].orders == gs[k].orders + [o];
      }
    }
  }

  lemma AddHolds(gs: seq<Group>, init: seq<Order>, o: Order)
    requires DistinctShops(gs) && GroupsHold(gs, init) && GroupsCover(gs, init)
    ensures GroupsHold(AddToGroups(gs, o), init + [o])
  {
    var gs' := AddToGroups(gs, o);
    forall k | 0 <= k < |gs'|
      ensures gs'[k].orders == OrdersOf(init + [o], gs'[k].shopId)
    {
      OrdersOfAppend(init, o, gs'[k].shopId);
      if k == |gs| {
        forall i | 0 <= i < |init| ensures init[i].shop.id != o.shop.id {
          assert GroupIndex(gs, init[i].shop.id).Some?;
        }
        OrdersOfNone(init, o.shop.id);
      } else if GroupIndex(gs, o.shop.id).Some? && k != GroupIndex(gs, o.shop.id).value {
        assert gs'[k] == gs[k] && gs[k].shopId != o.shop.id;
      }
    }
  }

  lemma AddCovers(gs: seq<Group>, init: seq<Order>, o: Order)
    requires GroupsCover(gs, init)
    ensures GroupsCover(AddToGroups(gs, o), init + [o])
  {
    var gs' := AddToGroups(gs, o);
    var orders := init + [o];
    forall i | 0 <= i < |orders| ensures GroupIndex(gs', orders[i].shop.id).Some? {
      var k := if i < |init| then GroupIndex(gs, init[i].shop.id).value
               else if GroupIndex(gs, o.shop.id).Some? then GroupIndex(gs, o.shop.id).value
               else |gs|;
      assert gs'[k].shopId == orders[i].shop.id;
      GroupIndexFound(gs', k);
    }
  }

  lemma {:induction false} GroupIndexFound(gs: seq<Group>, k: nat)
    requires k < |gs|
    ensures GroupIndex(gs, gs[k].shopId).Some?
  {
    if k < |gs| - 1 && gs[|gs| - 1].shopId != gs[k].shopId {
      assert gs[..|gs| - 1][k] == gs[k];
      GroupIndexFound(gs[..|gs| - 1], k);
    }
  }

  lemma {:induction false} FlattenUpdate(gs: seq<Group>, k: nat, o: Order)
    requires k < |gs|
    ensures multiset(FlattenGroups(gs[k := gs[k].(orders := gs[k].orders + [o])]))
         == multiset(FlattenGroups(gs)) + multiset{o}
  {
    var gs' := gs[k := gs[k].(orders := gs[k].orders + [o])];
    var n := |gs| - 1;
    if k == n {
      assert gs'[..n] == gs[..n];
    } else {
      assert gs'[..n] == gs[..n][k := gs[k].(orders := gs[k].orders + [o])];
      FlattenUpdate(gs[..n], k, o);
    }
  }

  /** The groups together hold every order exactly as often as the input does. */
  lemma {:induction false} SplitByShopPermutes(orders: seq<Order>)
    ensures multiset(FlattenGroups(SplitByShop(orders))) == multiset(orders)
  {
    if orders != [] {
      var n := |orders| - 1;
      assert orders == orders[..n] + [orders[n]];
      SplitByShopPermutes(orders[..n]);
      var gs := SplitByShop(orders[..n]);
      match GroupIndex(gs, orders[n].shop.id)
      case None =>
        assert (gs + [Group(orders[n].shop.id, [orders[n]], orders[n].shopOwner, orders[n].shop)])[..|gs|] == gs;
      case Some(k) =>
        FlattenUpdate(gs, k, orders[n]);
    }
  }

  // ---------------------------------------------------------------- split_into_chunks

  /** `split_into_chunks(lst, n)`: the slices `lst[i:i+n]` for `i` in `range(0, len(lst), n)`. */
  function Chunks<T>(lst: seq<T>, n: nat): seq<seq<T>>
    requires n > 0
    decreases |lst|
  {
    if lst == [] then []
    else if |lst| <= n then [lst]
    else [lst[..n]] + Chunks(lst[n..], n)
  }

  function Concat<T>(ss: seq<seq<T>>): seq<T>
  {
    if ss == [] then [] else ss[0] + Concat(ss[1..])
  }

  /**
   * The chunks put back together give the list; none is empty, none is
   * longer than `n`, and all but the last have exactly `n` elements.
   */
  lemma {:induction false} ChunksProperties<T>(lst: seq<T>, n: nat)
    requires n > 0
    ensures Concat(Chunks(lst, n)) == lst
    ensures forall i :: 0 <= i < |Chunks(lst, n)| ==> 0 < |Chunks(lst, n)[i]| <= n
    ensures forall i :: 0 <= i < |Chunks(lst, n)| - 1 ==> |Chunks(lst, n)[i]| == n
    ensures forall i, x :: 0 <= i < |Chunks(lst, n)| && x in Chunks(lst, n)[i] ==> x in lst
    decreases |lst|
  {
    if |lst| > n {
      ChunksProperties(lst[n..], n);
      var c := Chunks(lst, n);
      assert c[1..] == Chunks(lst[n..], n);
      assert lst == lst[..n] + lst[n..];
      forall i, x | 0 <= i < |c| && x in c[i] ensures x in lst {
        if i > 0 {
          assert c[i] == c[1..][i - 1];
        }
      }
    }
  }

  /** There are `ceil(len(lst) / n)` chunks: the fewest slices of `n` that cover the list. */
  lemma {:induction false} ChunksCount<T>(lst: seq<T>, n: nat)
    requires n > 0
    ensures lst == [] <==> Chunks(lst, n) == []
    ensures lst != [] ==> (|Chunks(lst, n)| - 1) * n < |lst| <= |Chunks(lst, n)| * n
    decreases |lst|
  {
    if |lst| > n {
      ChunksCount(lst[n..], n);
      var k := |Chunks(lst[n..], n)|;
      assert (k + 1) * n == k * n + n;
      assert k * n == (k - 1) * n + n;
    }
  }

  // ---------------------------------------------------------------- process_orders_chunk_by_shop_id

  /** An order of `req_get_order_detail_old`'s reply: its id, its package ids and its line items (absent keys read as `[]`). */
  datatype Detail = Detail(id: string, packageIds: Option<seq<string>>, lineItems: Option<seq<Json>>)

  /** One submitted request: a slice of at most 50 orders of one shop, and that shop's dict. */
  datatype Job = Job(sub: seq<Order>, shop: ShopInfo)

  function Ids(os: seq<Order>): (r: seq<string>)
    ensures |r| == |os| && forall i :: 0 <= i < |os| ==> r[i] == os[i].id
  {
    seq(|os|, i requires 0 <= i < |os| => os[i].id)
  }

  /** `detailed_dict[order_id]`: the dict comprehension keeps the last detail with that id. */
  function LastDetail(ds: seq<Detail>, id: string): (r: Option<nat>)
    ensures r.Some? ==> r.value < |ds| && ds[r.value].id == id
    ensures r.Some? ==> forall j :: r.value < j < |ds| ==> ds[j].id != id
    ensures r.None? ==> forall j :: 0 <= j < |ds| ==> ds[j].id != id
  {
    if ds == [] then None
    else if ds[|ds| - 1].id == id then Some(|ds| - 1)
    else LastDetail(ds[..|ds| - 1], id)
  }

  function Enrich(o: Order, d: Detail, shop: ShopInfo): Order
  {
    o.(packages := Some(d.packageIds.GetOr([])), itemList := Some(d.lineItems.GetOr([])), shop := Stripped(shop))
  }

  /** `r` is `o` untouched, or `o` with packages, an item list and its shop without token or cipher. */
  predicate MergedFrom(o: Order, r: Order)
  {
    r == o
    || (r.id == o.id && r.fields == o.fields && r.shopOwner == o.shopOwner
        && r.packages.Some? && r.itemList.Some? && r.shop.id == o.shop.id
        && r.shop.cipher.None? && r.shop.accessToken.None?)
  }

  predicate AllOfShop(os: seq<Order>, shopId: nat)
  {
    forall i :: 0 <= i < |os| ==> os[i].shop.id == shopId
  }

  /** The orders of one slice, each merged with the last detail carrying its id. */
  function MergeDetails(sub: seq<Order>, ds: seq<Detail>, shop: ShopInfo): (r: seq<Order>)
    ensures |r| == |sub|
    ensures forall i :: 0 <= i < |sub| && LastDetail(ds, sub[i].id).None? ==> r[i] == sub[i]
    ensures forall i :: 0 <= i < |sub| && LastDetail(ds, sub[i].id).Some? ==>
      r[i].packages == Some(ds[LastDetail(ds, sub[i].id).value].packageIds.GetOr([])) && r[i].shop == Stripped(shop)
    ensures AllOfShop(sub, shop.id) ==> forall i :: 0 <= i < |sub| ==> MergedFrom(sub[i], r[i])
  {
    seq(|sub|, i requires 0 <= i < |sub| =>
      match LastDetail(ds, sub[i].id)
      case None => sub[i]
      case Some(j) => Enrich(sub[i], ds[j], shop))
  }

  /** The requests submitted for one shop: one per slice of 50 of its orders. */
  function GroupJobs(g: Group): (r: seq<Job>)
    ensures |r| == |Chunks(g.orders, DetailChunkSize)|
  {
    var cs := Chunks(g.orders, DetailChunkSize);
    seq(|cs|, k requires 0 <= k < |cs| => Job(cs[k], g.shop))
  }

  /** `futures`, in submission order: the shops in the dict's order, each shop's slices in order. */
  function JobsSpec(gs: seq<Group>): seq<Job>
  {
    if gs == [] then [] else JobsSpec(gs[..|gs| - 1]) + GroupJobs(gs[|gs| - 1])
  }

  /** The replies consumed in submission order, each slice's merged orders appended. */
  function MergeJobs(jobs: seq<Job>, detail: (seq<string>, ShopInfo) -> seq<Detail>): seq<Order>
  {
    if jobs == [] then []
    else
      var job := jobs[|jobs| - 1];
      MergeJobs(jobs[..|jobs| - 1], detail) + MergeDetails(job.sub, detail(Ids(job.sub), job.shop), job.shop)
  }

  /** `process_orders_chunk_by_shop_id` on a chunk, with `detail` standing for `req_get_order_detail_old`. */
  function ProcessSpec(chunk: seq<Order>, detail: (seq<string>, ShopInfo) -> seq<Detail>): seq<Order>
  {
    MergeJobs(JobsSpec(SplitByShop(chunk)), detail)
  }

  /** The submission loop: one future per slice of 50 orders of each shop. */
  method SubmitJobs(gs: seq<Group>) returns (futures: seq<Job>)
    ensures futures == JobsSpec(gs)
  {
    futures := [];
    for i := 0 to |gs|
      invariant futures == JobsSpec(gs[..i])
    {
      assert gs[..i + 1][..i] == gs[..i];
      var subs := Chunks(gs[i].orders, DetailChunkSize);
      ghost var jobs := GroupJobs(gs[i]);
      for j := 0 to |subs|
        invariant futures == JobsSpec(gs[..i]) + jobs[..j]
      {
        assert jobs[..j + 1] == jobs[..j] + [Job(subs[j], gs[i].shop)];
        futures := futures + [Job(subs[j], gs[i].shop)];
      }
      assert jobs[..|subs|] == jobs;
    }
    assert gs[..|gs|] == gs;
  }

  /** The loop over `sub_chunk`: each order with a detail is enriched, the others are kept. */
  method MergeSlice(sub: seq<Order>, detailedChunk: seq<Detail>, shop: ShopInfo) returns (merged: seq<Order>)
    ensures merged == MergeDetails(sub, detailedChunk, shop)
  {
    merged := [];
    for k := 0 to |sub|
      invariant merged == MergeDetails(sub, detailedChunk, shop)[..k]
    {
      var o := sub[k];
      match LastDetail(detailedChunk, o.id) {
        case None =>
          merged := merged + [o];
        case Some(d) =>
          merged := merged + [Enrich(o, detailedChunk[d], shop)];
      }
    }
  }

  /**
   * `process_orders_chunk_by_shop_id`: the orders are grouped by shop, a
   * detail request is submitted per slice of 50, and the replies are
   * merged into the slices in submission order.
   */
  method ProcessOrdersChunkByShopId(chunk: seq<Order>, detail: (seq<string>, ShopInfo) -> seq<Detail>)
    returns (detailedOrders: seq<Order>)
    ensures detailedOrders == ProcessSpec(chunk, detail)
  {
    var gs := SplitOrdersByShopId(chunk);
    var futures := SubmitJobs(gs);
    detailedOrders := [];
    for i := 0 to |futures|
      invariant detailedOrders == MergeJobs(futures[..i], detail)
    {
      assert futures[..i + 1][..i] == futures[..i];
      var merged := MergeSlice(futures[i].sub, detail(Ids(futures[i].sub), futures[i].shop), futures[i].shop);
      detailedOrders := detailedOrders + merged;
    }
    assert futures[..|futures|] == futures;
  }

  /** The orders of the submitted slices, in submission order. */
  function JobOrders(jobs: seq<Job>): seq<Order>
  {
    if jobs == [] then [] else jobs[0].sub + JobOrders(jobs[1..])
  }

  lemma {:induction false} JobOrdersAppend(a: seq<Job>, b: seq<Job>)
    ensures JobOrders(a + b) == JobOrders(a) + JobOrders(b)
  {
    if a != [] {
      assert (a + b)[1..] == a[1..] + b;
      JobOrdersAppend(a[1..], b);
    } else {
      assert a + b == b;
    }
  }

  lemma {:induction false} JobOrdersOfSlices(cs: seq<seq<Order>>, shop: ShopInfo)
    ensures JobOrders(seq(|cs|, k requires 0 <= k < |cs| => Job(cs[k], shop))) == Concat(cs)
  {
    if cs != [] {
      var jobs := seq(|cs|, k requires 0 <= k < |cs| => Job(cs[k], shop));
      assert jobs[1..] == seq(|cs[1..]|, k requires 0 <= k < |cs[1..]| => Job(cs[1..][k], shop));
      JobOrdersOfSlices(cs[1..], shop);
    }
  }

  /** Every group's orders, and its dict, belong to its shop. */
  predicate GroupsOwnTheirOrders(gs: seq<Group>)
  {
    forall k :: 0 <= k < |gs| ==> AllOfShop(gs[k].orders, gs[k].shop.id)
  }

  predicate JobsOwnTheirOrders(jobs: seq<Job>)
  {
    forall j :: 0 <= j < |jobs| ==> AllOfShop(jobs[j].sub, jobs[j].shop.id)
  }

  /** The slices submitted are the groups' orders, cut into pieces and laid end to end. */
  lemma {:induction false} JobsCoverGroups(gs: seq<Group>)
    requires GroupsOwnTheirOrders(gs)
    ensures JobOrders(JobsSpec(gs)) == FlattenGroups(gs)
    ensures JobsOwnTheirOrders(JobsSpec(gs))
  {
    if gs != [] {
      var n := |gs| - 1;
      var g := gs[n];
      assert GroupsOwnTheirOrders(gs[..n]);
      JobsCoverGroups(gs[..n]);
      JobOrdersAppend(JobsSpec(gs[..n]), GroupJobs(g));
      JobOrdersOfSlices(Chunks(g.orders, DetailChunkSize), g.shop);
      ChunksProperties(g.orders, DetailChunkSize);
      var jobs := JobsSpec(gs);
      forall j | 0 <= j < |jobs| ensures AllOfShop(jobs[j].sub, jobs[j].shop.id) {
        if j >= |JobsSpec(gs[..n])| {
          var c := Chunks(g.orders, DetailChunkSize)[j - |JobsSpec(gs[..n])|];
          assert jobs[j] == Job(c, g.shop);
          forall i | 0 <= i < |c| ensures c[i].shop.id == g.shop.id {
            assert c[i] in g.orders;
          }
        }
      }
    }
  }

  /** Merging keeps each slice's length, and each order comes back untouched or enriched. */
  lemma {:induction false} MergeJobsPointwise(jobs: seq<Job>, detail: (seq<string>, ShopInfo) -> seq<Detail>)
    requires JobsOwnTheirOrders(jobs)
    ensures |MergeJobs(jobs, detail)| == |JobOrders(jobs)|
    ensures forall i :: 0 <= i < |JobOrders(jobs)| ==> MergedFrom(JobOrders(jobs)[i], MergeJobs(jobs, detail)[i])
  {
    if jobs != [] {
      var n := |jobs| - 1;
      assert jobs == jobs[..n] + [jobs[n]];
      assert JobsOwnTheirOrders(jobs[..n]);
      MergeJobsPointwise(jobs[..n], detail);
      JobOrdersAppend(jobs[..n], [jobs[n]]);
      assert JobOrders([jobs[n]]) == jobs[n].sub + JobOrders([]);
    }
  }

  /**
   * The orders that come back are the chunk's orders, regrouped by shop:
   * as many as went in, each one untouched or enriched with its packages,
   * its item list and a shop dict without token or cipher.
   */
  lemma ProcessKeepsOrders(chunk: seq<Order>, detail: (seq<string>, ShopInfo) -> seq<Detail>)
    ensures |ProcessSpec(chunk, detail)| == |chunk|
    ensures multiset(FlattenGroups(SplitByShop(chunk))) == multiset(chunk)
    ensures |FlattenGroups(SplitByShop(chunk))| == |chunk|
    ensures forall i :: 0 <= i < |chunk| ==>
      MergedFrom(FlattenGroups(SplitByShop(chunk))[i], ProcessSpec(chunk, detail)[i])
  {
    var gs := SplitByShop(chunk);
    SplitByShopGroups(chunk);
    SplitByShopPermutes(chunk);
    assert |multiset(FlattenGroups(gs))| == |FlattenGroups(gs)|;
    forall k | 0 <= k < |gs| ensures AllOfShop(gs[k].orders, gs[k].shop.id) {
      assert gs[k].orders == OrdersOf(chunk, gs[k].shopId);
    }
    JobsCoverGroups(gs);
    MergeJobsPointwise(JobsSpec(gs), detail);
  }
}
