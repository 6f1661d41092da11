/**
 * The promotion helpers: splitting the shop's products into packs of at most
 * 2999 SKUs, the promotion and product type codes, the per-SKU entries sent
 * with a promotion, the "unpromoted products" difference, and the
 * per-product flash-deal tasks with their three attempts.
 *
 * The TikTok endpoints are oracles: `PageOf` gives the products of a result
 * page, and an `Attempt` function gives the outcome of one try of a task.
 */
module Promotion {
  import opened Wrappers
  import Text

  const PromotionSkusLimit := 2999
  const PageSize := 100
  const MaxRetries := 3
  const RetryDelay := 2

  datatype PromoSku = PromoSku(id: string, originalPrice: string)
  datatype Product = Product(id: string, skus: seq<PromoSku>)

  /** Total SKUs in a list of products. */
  function SkuCount(products: seq<Product>): nat
  {
    if products == [] then 0 else SkuCount(products[..|products| - 1]) + |products[|products| - 1].skus|
  }

  /** The packs laid end to end. */
  function Flatten(packs: seq<seq<Product>>): seq<Product>
  {
    if packs == [] then [] else Flatten(packs[..|packs| - 1]) + packs[|packs| - 1]
  }

  /** A pack within the limit, or a single product that alone exceeds it. */
  predicate PackFits(pack: seq<Product>)
  {
    SkuCount(pack) <= PromotionSkusLimit || |pack| == 1
  }

  /** The next pack starts with a product that would have taken the previous one over the limit. */
  predicate Greedy(previous: seq<Product>, next: seq<Product>)
  {
    next != [] && SkuCount(previous) + |next[0].skus| > PromotionSkusLimit
  }

  /**
   * The pack-splitting loop of `create_promotion` after some products: the
   * packs closed so far and the pack being filled. A product joins the
   * current pack while its SKU total stays within the limit; otherwise the
   * pack is closed, even when it is still empty, and a new one starts with
   * the product.
   */
  function SplitState(products: seq<Product>): (seq<seq<Product>>, seq<Product>)
  {
    if products == [] then ([], [])
    else
      var st := SplitState(products[..|products| - 1]);
      var p := products[|products| - 1];
      if SkuCount(st.1) + |p.skus| <= PromotionSkusLimit then (st.0, st.1 + [p]) else (st.0 + [st.1], [p])
  }

  /** The packs `create_promotion` creates promotions for: the closed ones and the last one when it is not empty. */
  function Packs(products: seq<Product>): seq<seq<Product>>
  {
    var st := SplitState(products);
    if st.1 != [] then st.0 + [st.1] else st.0
  }

  /** `create_promotion`'s loop building `product_packs`. */
  method SplitIntoPacks(products: seq<Product>) returns (packs: seq<seq<Product>>)
    ensures packs == Packs(products)
  {
    packs := [];
    var pack: seq<Product> := [];
    var packSkuCount := 0;
    for i := 0 to |products|
      invariant (packs, pack) == SplitState(products[..i])
      invariant packSkuCount == SkuCount(pack)
    {
      assert products[..i + 1][..i] == products[..i];
      var product := products[i];
      var skuCount := |product.skus|;
      if packSkuCount + skuCount <= PromotionSkusLimit {
        SkuCountAppend(pack, [product]);
        pack := pack + [product];
        packSkuCount := packSkuCount + skuCount;
      } else {
        packs := packs + [pack];
        pack := [product];
        packSkuCount := skuCount;
        SkuCountAppend([], [product]);
        assert [] + [product] == [product];
      }
    }
    assert products[..|products|] == products;
    if pack != [] {
      packs := packs + [pack];
    }
  }

  /** The packs, laid end to end, are the products in their order; no product is lost or repeated. */
  lemma {:induction false} SplitCovers(products: seq<Product>)
    ensures Flatten(SplitState(products).0) + SplitState(products).1 == products
    ensures products != [] ==> SplitState(products).1 != []
  {
    if products != [] {
      var n := |products| - 1;
      SplitCovers(products[..n]);
      var st := SplitState(products[..n]);
      assert (st.0 + [st.1])[..|st.0|] == st.0;
      assert products == products[..n] + [products[n]];
    }
  }

  /** Every pack is within 2999 SKUs, except a pack holding one product that alone has more. */
  lemma {:induction false} SplitFits(products: seq<Product>)
    ensures PackFits(SplitState(products).1)
    ensures forall j :: 0 <= j < |SplitState(products).0| ==> PackFits(SplitState(products).0[j])
  {
    if products != [] {
      var n := |products| - 1;
      SplitFits(products[..n]);
      var st := SplitState(products[..n]);
      SkuCountAppend(st.1, [products[n]]);
      SkuCountAppend([], [products[n]]);
      assert [] + [products[n]] == [products[n]];
    }
  }

  /** Only the first pack can be empty, and it is exactly when the first product alone is over the limit. */
  lemma {:induction false} SplitEmpties(products: seq<Product>)
    ensures forall j :: 0 < j < |SplitState(products).0| ==> SplitState(products).0[j] != []
    ensures SplitState(products).0 != [] ==> (SplitState(products).0[0] == [] <==> |products[0].skus| > PromotionSkusLimit)
    ensures products != [] && SplitState(products).0 == [] ==> |products[0].skus| <= PromotionSkusLimit
  {
    if products != [] {
      var n := |products| - 1;
      SplitEmpties(products[..n]);
      SplitCovers(products[..n]);
      if n > 0 {
        assert products[..n][0] == products[0];
      }
    }
  }

  /** Each pack after the first starts with a product that did not fit in the pack before it. */
  lemma {:induction false} SplitGreedy(products: seq<Product>)
    ensures forall j, k :: 0 <= j && k == j + 1 && k < |SplitState(products).0| ==>
      Greedy(SplitState(products).0[j], SplitState(products).0[k])
    ensures SplitState(products).0 != [] ==> Greedy(SplitState(products).0[|SplitState(products).0| - 1], SplitState(products).1)
  {
    if products != [] {
      var n := |products| - 1;
      SplitGreedy(products[..n]);
      SplitCovers(products[..n]);
    }
  }

  /** The properties of the packs `create_promotion` fills. */
  lemma PacksProperties(products: seq<Product>)
    ensures Flatten(Packs(products)) == products
    ensures Packs(products) == [] <==> products == []
    ensures forall j :: 0 <= j < |Packs(products)| ==> PackFits(Packs(products)[j])
    ensures forall j :: 0 < j < |Packs(products)| ==> Packs(products)[j] != []
    ensures Packs(products) != [] ==> (Packs(products)[0] == [] <==> |products[0].skus| > PromotionSkusLimit)
    ensures forall j, k :: 0 <= j && k == j + 1 && k < |Packs(products)| ==> Greedy(Packs(products)[j], Packs(products)[k])
  {
    PacksCover(products);
    PacksFit(products);
    PacksGreedy(products);
  }

  lemma PacksCover(products: seq<Product>)
    ensures Flatten(Packs(products)) == products
    ensures Packs(products) == [] <==> products == []
  {
    SplitCovers(products);
    var st := SplitState(products);
    if st.1 != [] {
      assert (st.0 + [st.1])[..|st.0|] == st.0;
    }
  }

  lemma PacksFit(products: seq<Product>)
    ensures forall j :: 0 <= j < |Packs(products)| ==> PackFits(Packs(products)[j])
    ensures forall j :: 0 < j < |Packs(products)| ==> Packs(products)[j] != []
    ensures Packs(products) != [] ==> (Packs(products)[0] == [] <==> |products[0].skus| > PromotionSkusLimit)
  {
    SplitCovers(products);
    SplitFits(products);
    SplitEmpties(products);
  }

  lemma PacksGreedy(products: seq<Product>)
    ensures forall j, k :: 0 <= j && k == j + 1 && k < |Packs(products)| ==> Greedy(Packs(products)[j], Packs(products)[k])
  {
    SplitGreedy(products);
  }

  /** Splitting into packs keeps the SKU total. */
  lemma {:induction false} FlattenSkuCount(packs: seq<seq<Product>>)
    ensures SkuCount(Flatten(packs)) == SumCounts(packs)
  {
    if packs != [] {
      var init := packs[..|packs| - 1];
      FlattenSkuCount(init);
      SkuCountAppend(Flatten(init), packs[|packs| - 1]);
    }
  }

  function SumCounts(packs: seq<seq<Product>>): nat
  {
    if packs == [] then 0 else SumCounts(packs[..|packs| - 1]) + SkuCount(packs[|packs| - 1])
  }

  lemma {:induction false} SkuCountAppend(a: seq<Product>, b: seq<Product>)
    ensures SkuCount(a + b) == SkuCount(a) + SkuCount(b)
    decreases |b|
  {
    if b != [] {
      var n := |b| - 1;
      assert (a + b)[..|a + b| - 1] == a + b[..n];
      SkuCountAppend(a, b[..n]);
    } else {
      assert a + b == a;
    }
  }

  /** The summary `create_promotion` returns; `promotionIds` has one id per pack. */
  datatype CreateSummary = CreateSummary(promotionIds: seq<string>, count: nat, productsCount: nat, skusCount: nat)

  /**
   * `create_promotion`: one promotion per pack, in pack order; `createFor`
   * stands for the promotion the API creates for the pack at an index.
   */
  method CreatePromotion(allProducts: seq<Product>, createFor: nat -> string) returns (summary: CreateSummary)
    ensures summary.count == |summary.promotionIds| == |Packs(allProducts)|
    ensures summary.productsCount == |allProducts| && summary.skusCount == SkuCount(allProducts)
    ensures allProducts == [] ==> summary.count == 0
    ensures allProducts != [] ==> summary.count >= 1
    ensures forall i :: 0 <= i < summary.count ==> summary.promotionIds[i] == createFor(i)
  {
    var packs := SplitIntoPacks(allProducts);
    var ids: seq<string> := [];
    for i := 0 to |packs|
      invariant |ids| == i && forall j :: 0 <= j < i ==> ids[j] == createFor(j)
    {
      ids := ids + [createFor(i)];
    }
    summary := CreateSummary(ids, |ids|, |allProducts|, SkuCount(allProducts));
  }

  /** `promotion_type`: 3 for a flash sale, 2 for a direct discount, 1 for anything else (fixed price). */
  function PromotionType(kind: string): (code: int)
    ensures code in {1, 2, 3}
    ensures code == 3 <==> kind == "FlashSale"
    ensures code == 2 <==> kind == "DirectDiscount"
  {
    if kind == "FlashSale" then 3 else if kind == "DirectDiscount" then 2 else 1
  }

  /** `product_type`: 2 for `"SKU"`, 1 (SPU) for anything else. */
  function ProductType(kind: string): (code: int)
    ensures code == 2 <==> kind == "SKU"
    ensures code == 1 <==> kind != "SKU"
  {
    if kind == "SKU" then 2 else 1
  }

  /** The promotion kind a type code stands for. */
  function KindOfCode(code: int): string
  {
    if code == 3 then "FlashSale" else if code == 2 then "DirectDiscount" else "FixedPrice"
  }

  /** The three named kinds survive a trip through their code; any other name reads back as a fixed price. */
  lemma PromotionTypeRoundTrip(kind: string)
    ensures kind in {"FlashSale", "DirectDiscount", "FixedPrice"} ==> KindOfCode(PromotionType(kind)) == kind
    ensures kind !in {"FlashSale", "DirectDiscount"} ==> KindOfCode(PromotionType(kind)) == "FixedPrice"
  {
  }

  /**
   * How a SKU is priced in the promotion: a flash sale or fixed price carries
   * the promotion price, computed in floating point from the original price
   * and the discount and not modelled beyond its inputs; any other kind
   * carries the discount itself.
   */
  datatype Pricing = PromotionPrice(originalPrice: string, discount: int) | Discount(discount: int)

  datatype SkuEntry = SkuEntry(numLimit: int, userLimit: int, productId: string, skuId: string, pricing: Pricing)
  datatype ProductEntry = ProductEntry(numLimit: int, userLimit: int, productId: string, skuList: seq<SkuEntry>)

  function PricingFor(kind: string, discount: int, sku: PromoSku): Pricing
  {
    if kind == "FlashSale" || kind == "FixedPrice" then PromotionPrice(sku.originalPrice, discount) else Discount(discount)
  }

  /** The SKU entries of one product, in SKU order. */
  function SkuEntries(kind: string, discount: int, p: Product): (r: seq<SkuEntry>)
    ensures |r| == |p.skus|
    ensures forall j :: 0 <= j < |r| ==>
      r[j].numLimit == -1 && r[j].userLimit == -1 && r[j].productId == p.id && r[j].skuId == p.skus[j].id
      && r[j].pricing == PricingFor(kind, discount, p.skus[j])
  {
    seq(|p.skus|, j requires 0 <= j < |p.skus| => SkuEntry(-1, -1, p.id, p.skus[j].id, PricingFor(kind, discount, p.skus[j])))
  }

  /** The `product_list` that `create_promotion_with_products` sends: one entry per product, in order. */
  function ProductEntries(kind: string, discount: int, products: seq<Product>): (r: seq<ProductEntry>)
    ensures |r| == |products|
    ensures forall i :: 0 <= i < |r| ==>
      r[i].numLimit == -1 && r[i].userLimit == -1 && r[i].productId == products[i].id
      && r[i].skuList == SkuEntries(kind, discount, products[i])
  {
    seq(|products|, i requires 0 <= i < |products| => ProductEntry(-1, -1, products[i].id, SkuEntries(kind, discount, products[i])))
  }

  /** A flash sale or fixed price never sends a bare discount, and any other kind never sends a price. */
  lemma PricingMatchesKind(kind: string, discount: int, products: seq<Product>, i: nat, j: nat)
    requires i < |products| && j < |products[i].skus|
    ensures var e := ProductEntries(kind, discount, products)[i].skuList[j];
      (e.pricing.PromotionPrice? <==> kind == "FlashSale" || kind == "FixedPrice")
      && e.pricing.discount == discount
  {
  }

  /** `math.ceil(total / 100)`: the number of product pages to fetch. */
  function PageCount(total: nat): (n: nat)
    ensures n * PageSize >= total && (n == 0 || (n - 1) * PageSize < total)
  {
    (total + PageSize - 1) / PageSize
  }

  /** The products of pages `1..n`, in page order, as `asyncio.gather` keeps them. */
  function PagesUpTo(pageOf: nat -> seq<Product>, n: nat): seq<Product>
  {
    if n == 0 then [] else PagesUpTo(pageOf, n - 1) + pageOf(n)
  }

  /** `get_all_no_promotion_products`: every page that the reported total calls for. */
  function AllProducts(total: nat, pageOf: nat -> seq<Product>): seq<Product>
  {
    PagesUpTo(pageOf, PageCount(total))
  }

  lemma AllProductsPages(total: nat, pageOf: nat -> seq<Product>)
    ensures total == 0 ==> AllProducts(total, pageOf) == []
    ensures 0 < total <= PageSize ==> AllProducts(total, pageOf) == pageOf(1)
  {
  }

  /** An id is in a list of products. */
  predicate HasId(products: seq<Product>, id: string)
  {
    exists i :: 0 <= i < |products| && products[i].id == id
  }

  /** The products whose id no promotion lists, kept in order. */
  function KeepUnpromoted(products: seq<Product>, promoted: seq<seq<string>>): (r: seq<Product>)
    ensures |r| <= |products|
    ensures forall p :: p in r <==> p in products && forall l :: l in promoted ==> p.id !in l
  {
    if products == [] then []
    else
      var rest := KeepUnpromoted(products[1..], promoted);
      assert forall p :: p in products <==> p == products[0] || p in products[1..];
      if forall l :: l in promoted ==> products[0].id !in l then [products[0]] + rest else rest
  }

  /**
   * `get_unpromotion_products` once both pages are fetched: page 2 is
   * appended into the very list page 1 came in, so when the total is above
   * 100 the result covers both pages, filtered by the ids no promotion's
   * `product_list` holds.
   */
  function UnpromotedProducts(page1: seq<Product>, total: int, page2: seq<Product>, promoted: seq<seq<string>>): (r: seq<Product>)
    ensures forall p :: p in r <==>
      (p in page1 || (total > PageSize && p in page2)) && forall l :: l in promoted ==> p.id !in l
  {
    var listed := if total > PageSize then page1 + page2 else page1;
    KeepUnpromoted(listed, promoted)
  }

  /** A product on the second page can come back, because the filtered list is the extended page-1 list. */
  lemma SecondPageIncluded(page1: seq<Product>, total: int, page2: seq<Product>, promoted: seq<seq<string>>, p: Product)
    requires total > PageSize && p in page2 && forall l :: l in promoted ==> p.id !in l
    ensures p in UnpromotedProducts(page1, total, page2, promoted)
  {
  }

  /**
   * `get_unpromotion_products` and `get_unpromotion_sku` as written: both
   * call `callProductList(access_token=..., page_number=...)` without the
   * `app_key` and `app_secret` that function requires, so Python raises
   * before any request is made, whatever the shop's data.
   */
  function UnpromotedProductsAsWritten(page1: seq<Product>, total: int, page2: seq<Product>, promoted: seq<seq<string>>)
    : (r: Result<seq<Product>>)
    ensures r.Err?
  {
    Err("callProductList() missing 2 required positional arguments: 'app_key' and 'app_secret'")
  }

  /** The call as written never yields the products the corrected filter does, even when there are some. */
  lemma UnpromotedNeverReturned(page1: seq<Product>, total: int, page2: seq<Product>, promoted: seq<seq<string>>)
    ensures UnpromotedProductsAsWritten(page1, total, page2, promoted) != Ok(UnpromotedProducts(page1, total, page2, promoted))
  {
  }

  /** What one flash-deal task reports. */
  datatype TaskReport = TaskSucceeded(index: nat, response: string) | TaskFailed(index: nat, error: string)

  /** `f"{title} #{(i // 1) + 1}"`. */
  function TaskTitle(title: string, i: nat): string
  {
    title + " #" + Text.NatToString(i + 1)
  }

  /** The promotions of different tasks get different titles. */
  lemma TaskTitlesDistinct(title: string, i: nat, j: nat)
    ensures TaskTitle(title, i) == TaskTitle(title, j) <==> i == j
  {
    if TaskTitle(title, i) == TaskTitle(title, j) {
      var n := |title + " #"|;
      assert Text.NatToString(i + 1) == TaskTitle(title, i)[n..];
      assert Text.NatToString(j + 1) == TaskTitle(title, j)[n..];
      Text.NatToStringRoundTrip(i + 1);
      Text.NatToStringRoundTrip(j + 1);
    }
  }

  /** The outcome of `create_promotion_task(i)`: the first of three attempts that succeeds, or the last error. */
  function TaskSpec(i: nat, attempt: (nat, nat) -> Result<string>, k: nat): TaskReport
    requires k < MaxRetries
    decreases MaxRetries - k
  {
    match attempt(i, k)
    case Ok(response) => TaskSucceeded(i, response)
    case Err(e) => if k + 1 >= MaxRetries then TaskFailed(i, e) else TaskSpec(i, attempt, k + 1)
  }

  /**
   * `create_promotion_task`: creates the promotion titled `TaskTitle(title, i)`
   * and adds product `i` to it, retrying; `attempt(i, k)` is the outcome of
   * try `k`. `sleeps` lists the delays taken: one after each failure but the
   * last, which returns at once.
   */
  method CreatePromotionTask(i: nat, attempt: (nat, nat) -> Result<string>) returns (report: TaskReport, sleeps: seq<nat>)
    ensures report == TaskSpec(i, attempt, 0)
    ensures report.index == i
    ensures |sleeps| < MaxRetries && forall s :: s in sleeps ==> s == RetryDelay
    ensures report.TaskFailed? ==> |sleeps| == MaxRetries - 1
  {
    var retries := 0;
    sleeps := [];
    while true
      invariant 0 <= retries < MaxRetries && |sleeps| == retries
      invariant forall s :: s in sleeps ==> s == RetryDelay
      invariant TaskSpec(i, attempt, 0) == TaskSpec(i, attempt, retries)
      decreases MaxRetries - retries
    {
      var outcome := attempt(i, retries);
      if outcome.Ok? {
        return TaskSucceeded(i, outcome.value), sleeps;
      }
      retries := retries + 1;
      if retries >= MaxRetries {
        return TaskFailed(i, outcome.error), sleeps;
      }
      sleeps := sleeps + [RetryDelay];
    }
  }

  /** A task that keeps failing makes exactly three attempts and reports the third error. */
  lemma TaskFailsAfterThree(i: nat, attempt: (nat, nat) -> Result<string>)
    requires attempt(i, 0).Err? && attempt(i, 1).Err? && attempt(i, 2).Err?
    ensures TaskSpec(i, attempt, 0) == TaskFailed(i, attempt(i, 2).error)
  {
  }

  /** A task reports success exactly when one of its three attempts succeeds. */
  lemma TaskSucceedsIff(i: nat, attempt: (nat, nat) -> Result<string>)
    ensures TaskSpec(i, attempt, 0).TaskSucceeded? <==> attempt(i, 0).Ok? || attempt(i, 1).Ok? || attempt(i, 2).Ok?
  {
  }

  /** The product indices of a list of task reports, in report order. */
  function Indices(results: seq<TaskReport>): (r: seq<nat>)
    ensures |r| == |results| && forall j :: 0 <= j < |r| ==> r[j] == results[j].index
  {
    seq(|results|, j requires 0 <= j < |results| => results[j].index)
  }

  /**
   * `add_update_flashdeal` with more than one product: one task per product,
   * each run on a single-product list, the reports collected in the order
   * the tasks complete (`completion`, a permutation of the indices).
   */
  method AddUpdateFlashdealMany(n: nat, completion: seq<nat>, attempt: (nat, nat) -> Result<string>)
    returns (results: seq<TaskReport>)
    requires n > 1
    requires |completion| == n && forall i :: 0 <= i < n ==> i in completion
    ensures |results| == n
    ensures forall j :: 0 <= j < n ==> results[j] == TaskSpec(completion[j], attempt, 0)
    ensures Indices(results) == completion
    ensures forall i :: 0 <= i < n ==> i in Indices(results)
  {
    results := [];
    for j := 0 to n
      invariant |results| == j && forall k :: 0 <= k < j ==> results[k] == TaskSpec(completion[k], attempt, 0)
      invariant Indices(results) == completion[..j]
    {
      var report, _ := CreatePromotionTask(completion[j], attempt);
      TaskIndex(completion[j], attempt, 0);
      results := results + [report];
    }
    assert completion[..n] == completion;
  }

  /** The report of a task carries its own index. */
  lemma {:induction false} TaskIndex(i: nat, attempt: (nat, nat) -> Result<string>, k: nat)
    requires k < MaxRetries
    ensures TaskSpec(i, attempt, k).index == i
    decreases MaxRetries - k
  {
    if attempt(i, k).Err? && k + 1 < MaxRetries {
      TaskIndex(i, attempt, k + 1);
    }
  }

  /** The status of the single-promotion path of `add_update_flashdeal`. */
  datatype SingleOutcome = SingleSucceeded(response: string) | SingleFailed(error: string)

  /**
   * `add_update_flashdeal` with at most one product: one promotion with the
   * plain title, three attempts. Unlike the per-product task, this loop
   * also sleeps after its last failure, so a total failure waits three
   * times.
   */
  method AddUpdateFlashdealSingle(attempt: nat -> Result<string>) returns (data: SingleOutcome, sleeps: seq<nat>)
    ensures data.SingleSucceeded? <==> attempt(0).Ok? || attempt(1).Ok? || attempt(2).Ok?
    ensures data.SingleFailed? ==> data.error == attempt(2).error && |sleeps| == MaxRetries
    ensures data.SingleSucceeded? ==> |sleeps| < MaxRetries && attempt(|sleeps|) == Ok(data.response)
    ensures forall j :: 0 <= j < |sleeps| && j < MaxRetries ==> attempt(j).Err?
    ensures forall s :: s in sleeps ==> s == RetryDelay
  {
    var retries := 0;
    sleeps := [];
    data := SingleFailed("");
    while retries < MaxRetries
      invariant 0 <= retries <= MaxRetries && |sleeps| == retries
      invariant forall s :: s in sleeps ==> s == RetryDelay
      invariant forall j :: 0 <= j < retries ==> attempt(j).Err?
      invariant retries == MaxRetries ==> data == SingleFailed(attempt(2).error)
      decreases MaxRetries - retries
    {
      var outcome := attempt(retries);
      if outcome.Ok? {
        data := SingleSucceeded(outcome.value);
        return;
      }
      retries := retries + 1;
      if retries >= MaxRetries {
        data := SingleFailed(outcome.error);
      }
      sleeps := sleeps + [RetryDelay];
    }
  }
}
