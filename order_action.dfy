/**
 * The order views: the shipping-service list with its fallback, label
 * purchase with its record of bought packages, shipping documents with a
 * retry per package, the package list's shop-id parsing, filters and paging,
 * the SKU design check and the PDF OCR endpoint. TikTok calls, the OCR
 * engine and the design table are oracles or plain sequences.
 */
module OrderAction {
  import opened Wrappers
  import opened Json
  import Text
  import ListOrders

  // ---------------------------------------------------------------- ShippingService

  /** A `shipping_service_info` entry of the reply, reduced to the two keys the view reads. */
  datatype Service = Service(id: Option<string>, name: Option<string>)

  /** The single service returned when none are found. */
  const UspsFallback := Service(Some("7208502187360519982"), Some("USPS Ground Advantage™"))

  /**
   * The services of the view's reply. `reply` is `None` when the call
   * raised, which the view turns into an empty list.
   */
  function SimplifiedServices(reply: Option<seq<Service>>): (r: seq<Service>)
  {
    var services := reply.GetOr([]);
    if services == [] then [UspsFallback]
    else seq(|services|, k requires 0 <= k < |services| => Service(services[k].id, services[k].name))
  }

  /**
   * The view always answers with at least one service: the ones found, in
   * order, or the USPS fallback alone when the call failed or found none.
   */
  lemma ShippingServiceFallback(reply: Option<seq<Service>>)
    ensures |SimplifiedServices(reply)| >= 1
    ensures reply.None? || reply.value == [] ==> SimplifiedServices(reply) == [UspsFallback]
    ensures reply.Some? && reply.value != [] ==> SimplifiedServices(reply) == reply.value
  {
    if reply.Some? && reply.value != [] {
      assert SimplifiedServices(reply) == reply.value;
    }
  }

  // ---------------------------------------------------------------- CreateLabel

  /**
   * A reply of `callCreateLabel`: its body, and its `data.package_id` when
   * `data` and `package_id` are both truthy.
   */
  datatype LabelReply = LabelReply(body: Json, packageId: Option<string>)

  datatype LabelResponse =
    | Forwarded(body: Json)     // a newly bought package: the reply itself
    | AlreadyBought             // {"status": 404, "error": "Package is buyed label."}
    | IntegrityFailure          // {"error": "Integrity error occurred"}

  const AlreadyBoughtMessage := "Package is buyed label."

  datatype LabelStep = LabelStep(bought: seq<string>, response: LabelResponse)

  /**
   * `call_create_label` against the `BuyedPackage` rows: `get_or_create`
   * with a missing id violates the non-null column; an id already recorded
   * answers 404; a new id is recorded and the reply forwarded.
   */
  function LabelSpec(bought: seq<string>, reply: LabelReply): (r: LabelStep)
  {
    match reply.packageId
    case None => LabelStep(bought, IntegrityFailure)
    case Some(id) =>
      if id in bought then LabelStep(bought, AlreadyBought)
      else LabelStep(bought + [id], Forwarded(reply.body))
  }

  /** The responses of a batch and the rows after it, the replies taken in submission order. */
  function LabelsSpec(bought: seq<string>, replies: seq<LabelReply>): (r: (seq<string>, seq<LabelResponse>))
    ensures |r.1| == |replies|
  {
    if replies == [] then (bought, [])
    else
      var prev := LabelsSpec(bought, replies[..|replies| - 1]);
      var step := LabelSpec(prev.0, replies[|replies| - 1]);
      (step.bought, prev.1 + [step.response])
  }

  predicate Distinct(s: seq<string>)
  {
    forall i, j :: 0 <= i < j < |s| ==> s[i] != s[j]
  }

  /** The `BuyedPackage` table. */
  class BoughtPackages {
    var rows: seq<string>

    constructor(rows: seq<string>)
      ensures this.rows == rows
    {
      this.rows := rows;
    }

    method CallCreateLabel(reply: LabelReply) returns (response: LabelResponse)
      modifies this
      ensures LabelStep(rows, response) == LabelSpec(old(rows), reply)
    {
      if reply.packageId.None? {
        return IntegrityFailure;
      }
      var id := reply.packageId.value;
      if id in rows {
        return AlreadyBought;
      }
      rows := rows + [id];
      return Forwarded(reply.body);
    }

    /** `CreateLabel.post`: one purchase per label, the responses in submission order. */
    method CreateLabels(replies: seq<LabelReply>) returns (datas: seq<LabelResponse>)
      modifies this
      ensures (rows, datas) == LabelsSpec(old(rows), replies)
    {
      datas := [];
      for i := 0 to |replies|
        invariant (rows, datas) == LabelsSpec(old(rows), replies[..i])
      {
        assert replies[..i + 1][..i] == replies[..i];
        var d := CallCreateLabel(replies[i]);
        datas := datas + [d];
      }
      assert replies[..|replies|] == replies;
    }
  }

  /**
   * A package is bought at most once: the recorded ids stay distinct, every
   * forwarded reply's id is recorded, and a reply whose id was recorded
   * before, in an earlier batch or earlier in this one, gets the 404 answer.
   */
  lemma {:induction false} LabelsBuyOnce(bought: seq<string>, replies: seq<LabelReply>)
    requires Distinct(bought)
    ensures Distinct(LabelsSpec(bought, replies).0)
    ensures forall x :: x in bought ==> x in LabelsSpec(bought, replies).0
    ensures forall k :: 0 <= k < |replies| && replies[k].packageId.Some? ==>
      replies[k].packageId.value in LabelsSpec(bought, replies).0
    ensures forall k :: 0 <= k < |replies| && replies[k].packageId.Some? && replies[k].packageId.value in bought ==>
      LabelsSpec(bought, replies).1[k] == AlreadyBought
    ensures forall k :: 0 <= k < |replies| && replies[k].packageId.None? ==>
      LabelsSpec(bought, replies).1[k] == IntegrityFailure
  {
    if replies != [] {
      var init := replies[..|replies| - 1];
      LabelsBuyOnce(bought, init);
      assert forall k :: 0 <= k < |init| ==> init[k] == replies[k];
    }
  }

  /** Two labels for the same package in one batch: the second gets the 404 answer. */
  lemma RebuyInBatch(bought: seq<string>, replies: seq<LabelReply>, i: nat, j: nat)
    requires Distinct(bought)
    requires i < j < |replies| && replies[i].packageId.Some? && replies[j].packageId == replies[i].packageId
    ensures LabelsSpec(bought, replies).1[j] == AlreadyBought
  {
    var prefix := replies[..j];
    LabelsBuyOnce(bought, prefix);
    assert prefix[i] == replies[i];
    LabelsPrefix(bought, replies, j);
  }

  lemma {:induction false} LabelsPrefix(bought: seq<string>, replies: seq<LabelReply>, j: nat)
    requires j < |replies|
    ensures LabelsSpec(bought, replies).1[j] == LabelSpec(LabelsSpec(bought, replies[..j]).0, replies[j]).response
  {
    var init := replies[..|replies| - 1];
    if j < |replies| - 1 {
      LabelsPrefix(bought, init, j);
      assert init[..j] == replies[..j];
    } else {
      assert init == replies[..j];
    }
  }

  // ---------------------------------------------------------------- ShippingDoc

  const MaxRetries := 10

  /** One call of `callGetShippingDoc`: it raised, or it returned a URL or `None`. */
  datatype DocAttempt = Raised | Returned(url: Option<string>)

  /** `call_with_retry` from attempt `k`: the first call that does not raise decides; ten raises give `None`. */
  function RetrySpec(call: (string, nat) -> DocAttempt, packageId: string, k: nat): Option<string>
    requires k <= MaxRetries
    decreases MaxRetries - k
  {
    if k == MaxRetries then None
    else match call(packageId, k)
      case Returned(url) => url
      case Raised => RetrySpec(call, packageId, k + 1)
  }

  method CallWithRetry(call: (string, nat) -> DocAttempt, packageId: string) returns (r: Option<string>)
    ensures r == RetrySpec(call, packageId, 0)
  {
    var retries := 0;
    while retries < MaxRetries
      invariant 0 <= retries <= MaxRetries
      invariant RetrySpec(call, packageId, retries) == RetrySpec(call, packageId, 0)
      decreases MaxRetries - retries
    {
      var attempt := call(packageId, retries);
      if attempt.Returned? {
        return attempt.url;
      }
      retries := retries + 1;
      if retries >= MaxRetries {
        return None;
      }
    }
    return None;
  }

  /** A URL comes back exactly when some attempt returns it after only raises before it. */
  lemma {:induction false} RetryReturns(call: (string, nat) -> DocAttempt, packageId: string, k: nat)
    requires k <= MaxRetries
    ensures RetrySpec(call, packageId, k).Some? <==>
      exists j :: k <= j < MaxRetries && call(packageId, j) == Returned(RetrySpec(call, packageId, k)) &&
        RetrySpec(call, packageId, k).Some? && forall i :: k <= i < j ==> call(packageId, i).Raised?
    decreases MaxRetries - k
  {
    if k < MaxRetries {
      RetryReturns(call, packageId, k + 1);
      if call(packageId, k).Raised? && RetrySpec(call, packageId, k).Some? {
        var j :| k + 1 <= j < MaxRetries && call(packageId, j) == Returned(RetrySpec(call, packageId, k + 1)) &&
          forall i :: k + 1 <= i < j ==> call(packageId, i).Raised?;
        assert forall i :: k <= i < j ==> call(packageId, i).Raised?;
      }
    }
  }

  /** The truthy URLs, in package order. */
  function DocUrlsSpec(call: (string, nat) -> DocAttempt, packageIds: seq<string>): (r: seq<string>)
    ensures |r| <= |packageIds|
  {
    if packageIds == [] then []
    else
      var prev := DocUrlsSpec(call, packageIds[..|packageIds| - 1]);
      var url := RetrySpec(call, packageIds[|packageIds| - 1], 0);
      if url.Some? && url.value != "" then prev + [url.value] else prev
  }

  /** `ShippingDoc.post`: `{"code": 0, "data": {"doc_urls": ...}}`. */
  method ShippingDocPost(call: (string, nat) -> DocAttempt, packageIds: seq<string>) returns (docUrls: seq<string>)
    ensures docUrls == DocUrlsSpec(call, packageIds)
  {
    docUrls := [];
    for i := 0 to |packageIds|
      invariant docUrls == DocUrlsSpec(call, packageIds[..i])
    {
      assert packageIds[..i + 1][..i] == packageIds[..i];
      var url := CallWithRetry(call, packageIds[i]);
      if url.Some? && url.value != "" {
        docUrls := docUrls + [url.value];
      }
    }
    assert packageIds[..|packageIds|] == packageIds;
  }

  /** Only truthy URLs are kept, and a URL is kept exactly when some package's retry returns it. */
  lemma {:induction false} DocUrlsMembers(call: (string, nat) -> DocAttempt, packageIds: seq<string>, x: string)
    ensures x in DocUrlsSpec(call, packageIds) <==>
      x != "" && exists k :: 0 <= k < |packageIds| && RetrySpec(call, packageIds[k], 0) == Some(x)
  {
    if packageIds != [] {
      var init := packageIds[..|packageIds| - 1];
      DocUrlsMembers(call, init, x);
      if x != "" && exists k :: 0 <= k < |packageIds| && RetrySpec(call, packageIds[k], 0) == Some(x) {
        var k :| 0 <= k < |packageIds| && RetrySpec(call, packageIds[k], 0) == Some(x);
        if k < |init| {
          assert init[k] == packageIds[k];
        }
      }
      if x in DocUrlsSpec(call, init) {
        var k :| 0 <= k < |init| && RetrySpec(call, init[k], 0) == Some(x);
        assert packageIds[k] == init[k];
      }
    }
  }

  // ---------------------------------------------------------------- PackageFilter: shop ids

  /** A token's id when `t.strip().isdigit()`, which `int(t)` then parses. */
  function TokenId(t: string): (r: Option<int>)
    ensures r.Some? <==> Text.IsDigits(Text.Strip(t))
    ensures r.Some? ==> r.value >= 0
  {
    var u := Text.Strip(t);
    if Text.IsDigits(u) then Some(Text.DigitsValue(u)) else None
  }

  /** The decimal form of a shop id is a token that reads back as that id. */
  lemma TokenIdReadsDecimal(n: nat)
    ensures TokenId(Text.NatToString(n)) == Some(n)
  {
    var d := Text.NatToString(n);
    Text.NatToStringRoundTrip(n);
    assert !Text.IsSpace(d[0]) && !Text.IsSpace(d[|d| - 1]);
    Text.LStripNoop(d);
    Text.RStripNoop(d);
  }

  /**
   * `[int(t) for t in tokens if t.strip().isdigit()]`, with `toId` giving a
   * token's id when it passes the test (`TokenId` in the view).
   */
  function DigitTokens(tokens: seq<string>, toId: string -> Option<int>): (r: seq<int>)
    ensures |r| <= |tokens|
  {
    if tokens == [] then []
    else
      var prev := DigitTokens(tokens[..|tokens| - 1], toId);
      var id := toId(tokens[|tokens| - 1]);
      if id.Some? then prev + [id.value] else prev
  }

  /** An id is kept exactly when some token passes the test with that id. */
  lemma {:induction false} DigitTokensMembers(tokens: seq<string>, toId: string -> Option<int>, x: int)
    ensures x in DigitTokens(tokens, toId) <==> exists k :: 0 <= k < |tokens| && toId(tokens[k]) == Some(x)
  {
    if tokens != [] {
      var init := tokens[..|tokens| - 1];
      DigitTokensMembers(init, toId, x);
      if exists k :: 0 <= k < |tokens| && toId(tokens[k]) == Some(x) {
        var k :| 0 <= k < |tokens| && toId(tokens[k]) == Some(x);
        if k < |init| {
          assert init[k] == tokens[k];
        }
      }
      if x in DigitTokens(init, toId) {
        var k :| 0 <= k < |init| && toId(init[k]) == Some(x);
        assert tokens[k] == init[k];
      }
    }
  }

  predicate NoIdToken(tokens: seq<string>, toId: string -> Option<int>)
  {
    forall k :: 0 <= k < |tokens| ==> toId(tokens[k]).None?
  }

  /** No id is kept exactly when no token passes the test. */
  lemma {:induction false} DigitTokensEmpty(tokens: seq<string>, toId: string -> Option<int>)
    ensures DigitTokens(tokens, toId) == [] <==> NoIdToken(tokens, toId)
  {
    if tokens != [] {
      var init := tokens[..|tokens| - 1];
      DigitTokensEmpty(init, toId);
      assert forall k :: 0 <= k < |init| ==> init[k] == tokens[k];
    }
  }

  /**
   * `shop_id_value`: the digit tokens of a non-empty `shop_id` parameter,
   * otherwise the ids of the user's shops. The view passes `TokenId`.
   */
  function ShopIdValue(param: string, userShopIds: seq<int>, toId: string -> Option<int>): seq<int>
  {
    if param != "" then DigitTokens(Text.Split(param, ','), toId) else userShopIds
  }

  // ---------------------------------------------------------------- PackageFilter: filters

  /** The query parameters `PackageFilter.get` reads. */
  datatype PackageParams = PackageParams(
    shopId: string,
    createGte: Option<string>, createLt: Option<string>,
    supifyGte: Option<string>, supifyLt: Option<string>,
    fulfillmentNames: seq<string>, statusNames: seq<string>,
    productName: Option<string>, orderId: Option<string>)

  /** `package_filters`; a `None` field is a key the dict does not hold. Times are unix seconds. */
  datatype PackageFilters = PackageFilters(
    createdGte: Option<int>, createdLt: Option<int>,
    supifyGte: Option<int>, supifyLt: Option<int>,
    shopIds: Option<seq<int>>,
    fulfillmentNames: Option<seq<string>>, statusNames: Option<seq<string>>,
    productName: Option<string>, orderId: Option<string>)

  const InvalidCreateGte := "Invalid format for create_time[$gte]. Must be a valid unix time."
  const InvalidCreateLt := "Invalid format for create_time[$lt]. Must be a valid unix time."
  const InvalidSupifyGte := "Invalid supify_create_time[$gte]. Must be a valid UNIX timestamp."
  const InvalidSupifyLt := "Invalid supify_create_time[$lt]. Must be a valid UNIX timestamp."

  predicate Given(p: Option<string>)
  {
    p.Some? && p.value != ""
  }

  /**
   * `datetime.fromtimestamp(t, pytz.utc)` accepts a `time_t` whose UTC date
   * lies in years 1 to 9999; outside that, a `time_t` whose year the C
   * library can still compute raises `ValueError`, a farther one `OSError`
   * from `gmtime`, and an integer that is no `time_t` `OverflowError`. The
   * bounds are those of a 64-bit `time_t` and glibc's `gmtime`.
   */
  const MinTimestamp := -62135596800       // 0001-01-01T00:00:00Z
  const MaxTimestamp := 253402300799       // 9999-12-31T23:59:59Z
  const GmTimeMin := -67768040609740800
  const GmTimeMax := 67768036191676799
  const TimeTLimit := 0x8000_0000_0000_0000
  /** Asia/Ho_Chi_Minh is seven hours ahead of UTC. */
  const LocalOffset := 7 * 3600

  const TimeTOverflow := "timestamp out of range for platform time_t"
  const GmTimeOverflow := "[Errno 75] Value too large for defined data type"
  const DateOverflow := "date value out of range"

  /** What `convert_unix_to_datetime` does with an integer. */
  datatype Conversion = Converted | YearOutOfRange | Raises(message: string)

  /**
   * `convert_unix_to_datetime(t)`: the UTC instant, then its local time. The
   * year check raises `ValueError`, which the view reports with the bound's
   * own message; the other exceptions are not `ValueError` and reach the
   * view's catch-all. The local time of an instant in the last seven hours
   * of 9999 overflows `datetime`.
   */
  function ConvertUnix(t: int): (c: Conversion)
    ensures c.Converted? <==> MinTimestamp <= t <= MaxTimestamp - LocalOffset
    ensures c.YearOutOfRange? <==> GmTimeMin <= t < MinTimestamp || MaxTimestamp < t <= GmTimeMax
    ensures c.Raises? && (t < -TimeTLimit || t >= TimeTLimit) ==> c.message == TimeTOverflow
    ensures c.Raises? && t > MaxTimestamp ==> t > GmTimeMax
  {
    if t < -TimeTLimit || t >= TimeTLimit then Raises(TimeTOverflow)
    else if t < GmTimeMin || t > GmTimeMax then Raises(GmTimeOverflow)
    else if t < MinTimestamp || t > MaxTimestamp then YearOutOfRange
    else if t > MaxTimestamp - LocalOffset then Raises(DateOverflow)
    else Converted
  }

  /**
   * A time bound: absent unless given; then `int()` of it, converted. A
   * value that is not an integer, or whose year is out of range, gets the
   * bound's own message; another exception gets its own text from the
   * view's catch-all, with the same status 400.
   */
  function TimeFilter(p: Option<string>, err: string): (r: Result<Option<int>>)
    ensures !Given(p) ==> r == Ok(None)
    ensures Given(p) ==> (r.Ok? <==> Text.ParseInt(p.value).Some? && ConvertUnix(Text.ParseInt(p.value).value).Converted?)
    ensures Given(p) && r.Ok? ==> r.value == Text.ParseInt(p.value)
    ensures Given(p) && Text.ParseInt(p.value).None? ==> r == Err(err)
    ensures Given(p) && r.Err? && r.error != err ==> ConvertUnix(Text.ParseInt(p.value).value).Raises?
    ensures r.Err? ==> r.error == err || r.error in {TimeTOverflow, GmTimeOverflow, DateOverflow}
  {
    if !Given(p) then Ok(None)
    else match Text.ParseInt(p.value)
      case None => Err(err)
      case Some(v) =>
        match ConvertUnix(v)
        case Converted => Ok(Some(v))
        case YearOutOfRange => Err(err)
        case Raises(m) => Err(m)
  }

  /** The filter dict, or the 400 message of the first time bound that is not an integer. */
  function PackageFilterSpec(params: PackageParams, userShopIds: seq<int>): (r: Result<PackageFilters>)
    ensures r.Err? ==> r.error in {InvalidCreateGte, InvalidCreateLt, InvalidSupifyGte, InvalidSupifyLt,
                                   TimeTOverflow, GmTimeOverflow, DateOverflow}
    ensures r.Ok? ==> (r.value.shopIds.Some? ==> r.value.shopIds.value != [])
    ensures r.Ok? ==> (r.value.fulfillmentNames.Some? <==> params.fulfillmentNames != [])
    ensures r.Ok? ==> (r.value.statusNames.Some? <==> params.statusNames != [])
    ensures r.Ok? ==> (r.value.productName.Some? <==> Given(params.productName))
    ensures r.Ok? ==> (r.value.orderId.Some? <==> Given(params.orderId))
  {
    var ids := ShopIdValue(params.shopId, userShopIds, TokenId);
    match TimeFilter(params.createGte, InvalidCreateGte)
    case Err(e) => Err(e)
    case Ok(cg) =>
      match TimeFilter(params.createLt, InvalidCreateLt)
      case Err(e) => Err(e)
      case Ok(cl) =>
        match TimeFilter(params.supifyGte, InvalidSupifyGte)
        case Err(e) => Err(e)
        case Ok(sg) =>
          match TimeFilter(params.supifyLt, InvalidSupifyLt)
          case Err(e) => Err(e)
          case Ok(sl) =>
            Ok(PackageFilters(cg, cl, sg, sl,
              if ids != [] then Some(ids) else None,
              if params.fulfillmentNames != [] then Some(params.fulfillmentNames) else None,
              if params.statusNames != [] then Some(params.statusNames) else None,
              if Given(params.productName) then params.productName else None,
              if Given(params.orderId) then params.orderId else None))
  }

  /** A time bound that is absent, empty, or an integer that converts. */
  predicate TimeOk(p: Option<string>)
  {
    !Given(p) || (Text.ParseInt(p.value).Some? && ConvertUnix(Text.ParseInt(p.value).value).Converted?)
  }

  /**
   * The filters are built exactly when every given time bound is an
   * integer, and then hold each given bound; a failing bound reports its own
   * message, `create_time[$gte]` first.
   */
  lemma PackageFilterTimes(params: PackageParams, userShopIds: seq<int>)
    ensures var r := PackageFilterSpec(params, userShopIds);
      && (r.Ok? <==> TimeOk(params.createGte) && TimeOk(params.createLt) && TimeOk(params.supifyGte) && TimeOk(params.supifyLt))
      && (!TimeOk(params.createGte) ==> r == Err(TimeFilter(params.createGte, InvalidCreateGte).error))
      && (TimeOk(params.createGte) && !TimeOk(params.createLt) ==> r == Err(TimeFilter(params.createLt, InvalidCreateLt).error))
      && (r.Ok? && Given(params.createGte) ==> r.value.createdGte == Text.ParseInt(params.createGte.value))
      && (r.Ok? && Given(params.createLt) ==> r.value.createdLt == Text.ParseInt(params.createLt.value))
      && (r.Ok? && !Given(params.createGte) ==> r.value.createdGte.None?)
  {
  }

  /**
   * Shops are filtered only when the parsed id list is non-empty: a
   * `shop_id` parameter with no digit token, or a user with no shops and no
   * parameter, leaves the package list unrestricted by shop.
   */
  lemma PackageFilterShops(params: PackageParams, userShopIds: seq<int>)
    requires PackageFilterSpec(params, userShopIds).Ok?
    ensures var f := PackageFilterSpec(params, userShopIds).value;
      f.shopIds.None? <==> ShopIdValue(params.shopId, userShopIds, TokenId) == []
  {
  }

  /**
   * The parsed shop list is empty exactly when no `shop_id` parameter is
   * given and the user has no shops, or when it is given and no token of it
   * is all digits once stripped.
   */
  lemma ShopIdValueEmpty(param: string, userShopIds: seq<int>, toId: string -> Option<int>)
    ensures param == "" ==> ShopIdValue(param, userShopIds, toId) == userShopIds
    ensures param != "" ==> (ShopIdValue(param, userShopIds, toId) == [] <==> NoIdToken(Text.Split(param, ','), toId))
  {
    DigitTokensEmpty(Text.Split(param, ','), toId);
  }

  // ---------------------------------------------------------------- PackageFilter: paging

  /** `packages[offset * limit : (offset + 1) * limit]` with Python's slice clamping. */
  function PageSlice<T>(items: seq<T>, offset: nat, limit: nat): (r: seq<T>)
    requires limit >= 1
    ensures |r| <= limit
  {
    var lo := if offset * limit < |items| then offset * limit else |items|;
    var hi := if offset * limit + limit < |items| then offset * limit + limit else |items|;
    items[lo..hi]
  }

  /** The first `p` pages, one after the other. */
  function Pages<T>(items: seq<T>, limit: nat, p: nat): seq<T>
    requires limit >= 1
  {
    if p == 0 then [] else Pages(items, limit, p - 1) + PageSlice(items, p - 1, limit)
  }

  lemma {:induction false} PagesPrefix<T>(items: seq<T>, limit: nat, p: nat)
    requires limit >= 1
    ensures Pages(items, limit, p) == items[..if p * limit < |items| then p * limit else |items|]
  {
    if p > 0 {
      PagesPrefix(items, limit, p - 1);
      assert (p - 1) * limit + limit == p * limit;
    }
  }

  /**
   * Pages `0 .. total_pages - 1` together are the whole list, each of at
   * most `limit` items, and any page from `total_pages` on is empty.
   */
  lemma PagesCover<T>(items: seq<T>, limit: nat, offset: nat)
    requires limit >= 1
    ensures Pages(items, limit, ListOrders.TotalPages(|items|, limit)) == items
    ensures offset >= ListOrders.TotalPages(|items|, limit) ==> PageSlice(items, offset, limit) == []
  {
    var n := ListOrders.TotalPages(|items|, limit);
    assert |items| <= n * limit;
    PagesPrefix(items, limit, n);
    assert items[..|items|] == items;
    if offset >= n {
      MulMonotone(offset, n, limit);
    }
  }

  lemma MulMonotone(a: nat, b: nat, c: nat)
    requires a >= b
    ensures a * c >= b * c
  {
    assert a * c == b * c + (a - b) * c;
  }

  // ---------------------------------------------------------------- CsvFulfillmentSkuValidationAPI

  const MaxSkus := 1000

  /** A `DesignSku` row: its SKU id, its department (the group it belongs to) and its serialised design. */
  datatype DesignSku = DesignSku(skuId: string, department: nat, design: Json)
  datatype SkuCheck = SkuCheck(skuId: Json, exists_: bool, design: Option<Json>)

  datatype SkuResponse =
    | SkuResults(results: seq<SkuCheck>)   // 200
    | SkuError(status: int, error: string)

  const NoGroup := "User does not belong to any group."
  const NoSkuIds := "No SKU IDs provided"
  const NotAList := "SKU IDs must be provided as a list"
  const TooManySkus := "Too many SKU IDs. Maximum allowed: 1000"

  /**
   * The lookup `department=group, sku_id=sku`: the `CharField` compares
   * `str()` of a value that is not a string, and `None` becomes `IS NULL`,
   * which the non-null column never matches.
   */
  predicate SkuMatches(d: DesignSku, group: nat, sku: Json)
  {
    d.department == group && !sku.JNull? && d.skuId == Str(sku)
  }

  /** `DesignSku.objects.filter(department=group, sku_id=sku).first()`, rows in table order. */
  function FirstDesign(designs: seq<DesignSku>, group: nat, sku: Json): (r: Option<nat>)
    ensures r.Some? ==> r.value < |designs| && SkuMatches(designs[r.value], group, sku)
    ensures r.Some? ==> forall j :: 0 <= j < r.value ==> !SkuMatches(designs[j], group, sku)
    ensures r.None? ==> forall j :: 0 <= j < |designs| ==> !SkuMatches(designs[j], group, sku)
  {
    if designs == [] then None
    else if SkuMatches(designs[0], group, sku) then Some(0)
    else match FirstDesign(designs[1..], group, sku)
      case None => None
      case Some(k) => Some(k + 1)
  }

  function CheckSku(designs: seq<DesignSku>, group: nat, sku: Json): SkuCheck
  {
    match FirstDesign(designs, group, sku)
    case None => SkuCheck(sku, false, None)
    case Some(k) => SkuCheck(sku, true, Some(designs[k].design))
  }

  /** The checks are done one SKU id at a time, in order. */
  method CheckSkus(designs: seq<DesignSku>, group: nat, skuIds: seq<Json>) returns (results: seq<SkuCheck>)
    ensures |results| == |skuIds|
    ensures forall k :: 0 <= k < |skuIds| ==> results[k] == CheckSku(designs, group, skuIds[k])
  {
    results := [];
    for i := 0 to |skuIds|
      invariant |results| == i
      invariant forall k :: 0 <= k < i ==> results[k] == CheckSku(designs, group, skuIds[k])
    {
      var k := FirstDesign(designs, group, skuIds[i]);
      if k.Some? {
        results := results + [SkuCheck(skuIds[i], true, Some(designs[k.value].design))];
      } else {
        results := results + [SkuCheck(skuIds[i], false, None)];
      }
    }
  }

  /** `CsvFulfillmentSkuValidationAPI.post` after the body is parsed; `skuIds` is the `sku_ids` value, `JNull` when absent. */
  method ValidateSkus(group: Option<nat>, skuIds: Json, designs: seq<DesignSku>) returns (r: SkuResponse)
    ensures group.None? ==> r == SkuError(404, NoGroup)
    ensures group.Some? && !Truthy(skuIds) ==> r == SkuError(400, NoSkuIds)
    ensures group.Some? && Truthy(skuIds) && !skuIds.JArr? ==> r == SkuError(400, NotAList)
    ensures group.Some? && skuIds.JArr? && |skuIds.items| > MaxSkus ==> r == SkuError(400, TooManySkus)
    ensures r.SkuResults? <==> group.Some? && skuIds.JArr? && 0 < |skuIds.items| <= MaxSkus
    ensures r.SkuResults? ==> |r.results| == |skuIds.items|
    ensures r.SkuResults? ==> forall k :: 0 <= k < |skuIds.items| ==> r.results[k] == CheckSku(designs, group.value, skuIds.items[k])
  {
    if group.None? {
      return SkuError(404, NoGroup);
    }
    if !Truthy(skuIds) {
      return SkuError(400, NoSkuIds);
    }
    if !skuIds.JArr? {
      return SkuError(400, NotAList);
    }
    if |skuIds.items| > MaxSkus {
      return SkuError(400, TooManySkus);
    }
    var results := CheckSkus(designs, group.value, skuIds.items);
    return SkuResults(results);
  }

  /**
   * A SKU id is reported as existing exactly when its group has a design
   * whose SKU id is `str()` of it; `null` never exists. The id is echoed as
   * sent.
   */
  lemma SkuExistsIffDesign(designs: seq<DesignSku>, group: nat, sku: Json)
    ensures CheckSku(designs, group, sku).exists_ <==>
      !sku.JNull? && exists j :: 0 <= j < |designs| && designs[j].department == group && designs[j].skuId == Str(sku)
    ensures CheckSku(designs, group, sku).skuId == sku
    ensures CheckSku(designs, group, sku).design.Some? <==> CheckSku(designs, group, sku).exists_
  {
    if FirstDesign(designs, group, sku).None? && !sku.JNull? {
      assert forall j :: 0 <= j < |designs| ==> !SkuMatches(designs[j], group, sku);
    }
  }

  /**
   * A value that is not a string finds the same design as the string of its
   * `str()`: `123` finds the design of SKU `"123"`.
   */
  lemma {:induction false} LookupByStr(designs: seq<DesignSku>, group: nat, sku: Json)
    requires !sku.JNull?
    ensures FirstDesign(designs, group, sku) == FirstDesign(designs, group, JStr(Str(sku)))
    ensures CheckSku(designs, group, sku).design == CheckSku(designs, group, JStr(Str(sku))).design
  {
    if designs != [] {
      LookupByStr(designs[1..], group, sku);
    }
  }

  // ---------------------------------------------------------------- CsvFulfillmentPdfOcrAPI.post

  /** One result dict: `status`, `message` and `data`. */
  datatype OcrResult = OcrResult(status: string, message: Option<string>, data: Option<Json>)

  const NoPdfDocuments := "No PDF documents provided"
  const EmptyPdfData := "PDF data is empty"

  datatype OcrResponse = OcrResponse(status: int, results: seq<OcrResult>)

  /** The catch-all's reply: 500 with one error entry. */
  function ServerError(e: string): OcrResponse
  {
    OcrResponse(500, [OcrResult("error", Some("Server error: " + e), None)])
  }

  /** `pdf_doc.get(...)` on something that is not a dict raises `AttributeError`. */
  function NoGet(doc: Json): string
  {
    "'" + TypeName(doc) + "' object has no attribute 'get'"
  }

  /**
   * One document, a dict: an error entry when `pdf_data` is missing or
   * falsy, otherwise the result of `process_pdf_with_ocr`, given by `ocr`. A
   * missing `temp_id` defaults to `temp_<now>`.
   */
  function DocumentResult(doc: Json, now: nat, ocr: (Json, Json) -> OcrResult): OcrResult
    requires doc.JObj?
  {
    var tempId := Get(doc.fields, "temp_id").GetOr(JStr("temp_" + Text.NatToString(now)));
    var pdfData := Get(doc.fields, "pdf_data").GetOr(JStr(""));
    if !Truthy(pdfData) then OcrResult("error", Some(EmptyPdfData), None)
    else ocr(pdfData, tempId)
  }

  /** The first document that is not a dict. */
  function FirstNonDict(docs: seq<Json>): (r: Option<nat>)
    ensures r.None? <==> forall k :: 0 <= k < |docs| ==> docs[k].JObj?
    ensures r.Some? ==> r.value < |docs| && !docs[r.value].JObj?
    ensures r.Some? ==> forall j :: 0 <= j < r.value ==> docs[j].JObj?
  {
    if docs == [] then None
    else
      var i := |docs| - 1;
      match FirstNonDict(docs[..i])
      case Some(k) => Some(k)
      case None => if !docs[i].JObj? then Some(i) else None
  }

  /**
   * `CsvFulfillmentPdfOcrAPI.post` once the body is parsed; `documents` is
   * the `pdf_documents` value, `[]` when absent. A falsy value is a 400; a
   * value that cannot be iterated, or a document that is not a dict (the
   * characters of a string and the keys of a dict are strings), reaches the
   * catch-all, whose 500 replaces every result gathered so far.
   */
  method PdfOcrPost(documents: Json, now: nat, ocr: (Json, Json) -> OcrResult) returns (r: OcrResponse)
    ensures !Truthy(documents) ==> r == OcrResponse(400, [OcrResult("error", Some(NoPdfDocuments), None)])
    ensures Truthy(documents) && Iterate(documents).None? ==> r == ServerError(NotIterable(documents))
    ensures Truthy(documents) && Iterate(documents).Some? ==>
      var docs := Iterate(documents).value;
      match FirstNonDict(docs)
      case Some(k) => r == ServerError(NoGet(docs[k]))
      case None =>
        && r.status == 200 && |r.results| == |docs|
        && forall k :: 0 <= k < |docs| ==> r.results[k] == DocumentResult(docs[k], now, ocr)
  {
    if !Truthy(documents) {
      return OcrResponse(400, [OcrResult("error", Some(NoPdfDocuments), None)]);
    }
    var iterated := Iterate(documents);
    if iterated.None? {
      return ServerError(NotIterable(documents));
    }
    var docs := iterated.value;
    var results := [];
    for i := 0 to |docs|
      invariant |results| == i
      invariant forall k :: 0 <= k < i ==> docs[k].JObj? && results[k] == DocumentResult(docs[k], now, ocr)
    {
      var doc := docs[i];
      if !doc.JObj? {
        return ServerError(NoGet(doc));
      }
      var tempId := Get(doc.fields, "temp_id").GetOr(JStr("temp_" + Text.NatToString(now)));
      var pdfData := Get(doc.fields, "pdf_data").GetOr(JStr(""));
      if !Truthy(pdfData) {
        results := results + [OcrResult("error", Some(EmptyPdfData), None)];
        continue;
      }
      var result := ocr(pdfData, tempId);
      results := results + [result];
    }
    return OcrResponse(200, results);
  }

  /** A document without data never reaches the OCR engine: its entry is the empty-data error. */
  lemma EmptyDocumentSkipped(fields: seq<(string, Json)>, now: nat, ocr: (Json, Json) -> OcrResult)
    requires "pdf_data" !in Keys(fields) || !Truthy(Get(fields, "pdf_data").value)
    ensures DocumentResult(JObj(fields), now, ocr) == OcrResult("error", Some(EmptyPdfData), None)
  {
  }

  /**
   * A truthy `pdf_documents` gets 200 exactly when it is a list of dicts; a
   * non-empty string or dict always gets 500.
   */
  lemma OcrStatus(documents: Json)
    requires Truthy(documents)
    ensures (Iterate(documents).Some? && FirstNonDict(Iterate(documents).value).None?) <==>
      documents.JArr? && forall k :: 0 <= k < |documents.items| ==> documents.items[k].JObj?
  {
    if documents.JStr? {
      assert !Iterate(documents).value[0].JObj?;
    } else if documents.JObj? {
      assert !Iterate(documents).value[0].JObj?;
    }
  }
}
