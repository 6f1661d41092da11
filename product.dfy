/**
 * The product calls to the TikTok shop API: the body `createProduct` sends
 * for a product built from a spreadsheet row, the body of
 * `callCreateOneProduct`, the image-upload retry rule of `callUploadImage`
 * and the image list `callEditProduct` sends. Requests, signing and the
 * clock are outside the model; an upload is an oracle giving the decoded
 * reply of each post.
 */
module Product {
  import opened Wrappers
  import opened Json
  import Text
  import Constant
  import ObjectCreate

  /** `product_attributes_list` is only assigned inside the loop over the SKUs. */
  const AttributesUnbound := "cannot access local variable 'product_attributes_list' where it is not associated with a value"

  /** `str()` of the `TypeError` that `int(j)` raises for a value that is neither text nor a number. */
  function NotANumber(j: Json): string
  {
    "int() argument must be a string, a bytes-like object or a real number, not '" + TypeName(j) + "'"
  }

  /** Python's `int(x)` on a JSON value. */
  function IntOf(j: Json): Result<int>
  {
    match j
    case JInt(i) => Ok(i)
    case JBool(b) => Ok(if b then 1 else 0)
    case JStr(s) => (match Text.ParseInt(s) case Some(n) => Ok(n) case None => Err(Text.InvalidLiteral(s)))
    case _ => Err(NotANumber(j))
  }

  /** `x[k]` on a decoded JSON value: a dict lookup, a `KeyError` when absent, a `TypeError` on a non-dict. */
  function Index(j: Json, k: string): (r: Result<Json>)
    ensures r.Ok? <==> j.JObj? && k in Keys(j.fields)
    ensures r.Ok? ==> r.value == Arg(j, k)
    ensures r.Err? ==> r.error == SubscriptError(j, k)
  {
    if !j.JObj? then Err(SubscriptError(j, k))
    else match Get(j.fields, k)
      case None => Err(SubscriptError(j, k))
      case Some(v) => Ok(v)
  }

  // ---------------------------------------------------------------- createProduct

  datatype Inventory = Inventory(warehouseId: string, quantity: int)
  datatype SalesAttrPayload = SalesAttrPayload(name: Json, valueName: Json, skuImg: Json)
  datatype SkuPayload = SkuPayload(salesAttributes: seq<SalesAttrPayload>, amount: string, inventory: seq<Inventory>, sellerSku: Json)
  datatype AttrPayload = AttrPayload(id: string, values: seq<(string, string)>)

  /** `stock_infos_list`: the warehouse id as a string and the stock through `int()`; the first bad stock raises. */
  function Inventories(infos: seq<Constant.StockInfo>): (r: Result<seq<Inventory>>)
    ensures r.Ok? <==> forall i :: 0 <= i < |infos| ==> IntOf(infos[i].availableStock).Ok?
    ensures r.Ok? ==> |r.value| == |infos| && forall i :: 0 <= i < |infos| ==>
      r.value[i].warehouseId == Str(infos[i].warehouseId) && IntOf(infos[i].availableStock) == Ok(r.value[i].quantity)
  {
    if infos == [] then Ok([])
    else
      match IntOf(infos[0].availableStock)
      case Err(e) => Err(e)
      case Ok(q) =>
        match Inventories(infos[1..])
        case Err(e) => Err(e)
        case Ok(rest) => Ok([Inventory(Str(infos[0].warehouseId), q)] + rest)
  }

  /** Some warehouse holds stock. */
  predicate InStock(inventory: seq<Inventory>)
  {
    exists i :: 0 <= i < |inventory| && inventory[i].quantity > 0
  }

  function AttrPayloads(attrs: seq<ObjectCreate.SalesAttribute>): seq<SalesAttrPayload>
  {
    seq(|attrs|, i requires 0 <= i < |attrs| => SalesAttrPayload(attrs[i].attributeName, attrs[i].customValue, attrs[i].skuImg))
  }

  /** One SKU of the loop: skipped (`None`) when no stock quantity is positive. */
  function SkuEntry(s: ObjectCreate.Sku): Result<Option<SkuPayload>>
  {
    match Inventories(s.stockInfos)
    case Err(e) => Err(e)
    case Ok(inventory) =>
      if InStock(inventory) then Ok(Some(SkuPayload(AttrPayloads(s.salesAttributes), Str(s.originalPrice), inventory, s.sellerSku)))
      else Ok(None)
  }

  /** `skus_list` after the loop over the SKUs, first to last. */
  function SkusSpec(skus: seq<ObjectCreate.Sku>): (r: Result<seq<SkuPayload>>)
    ensures r.Ok? ==> |r.value| <= |skus|
    ensures r.Ok? ==> forall i :: 0 <= i < |r.value| ==> InStock(r.value[i].inventory)
  {
    if skus == [] then Ok([])
    else
      match SkusSpec(skus[..|skus| - 1])
      case Err(e) => Err(e)
      case Ok(list) =>
        match SkuEntry(skus[|skus| - 1])
        case Err(e) => Err(e)
        case Ok(None) => Ok(list)
        case Ok(Some(p)) => Ok(list + [p])
  }

  /** Once a SKU has raised, the later ones are not looked at. */
  lemma {:induction false} SkusErrorStops(skus: seq<ObjectCreate.Sku>, i: nat)
    requires i <= |skus| && SkusSpec(skus[..i]).Err?
    ensures SkusSpec(skus) == SkusSpec(skus[..i])
    decreases |skus| - i
  {
    if i < |skus| {
      assert skus[..i + 1][..i] == skus[..i];
      SkusErrorStops(skus, i + 1);
    } else {
      assert skus[..i] == skus;
    }
  }

  /** The loop of `createProduct` that fills `skus_list`. */
  method BuildSkus(skus: seq<ObjectCreate.Sku>) returns (r: Result<seq<SkuPayload>>)
    ensures r == SkusSpec(skus)
  {
    var list: seq<SkuPayload> := [];
    for i := 0 to |skus|
      invariant SkusSpec(skus[..i]) == Ok(list)
    {
      assert skus[..i + 1][..i] == skus[..i];
      var entry := SkuEntry(skus[i]);
      if entry.Err? {
        SkusErrorStops(skus, i + 1);
        return Err(entry.error);
      }
      if entry.value.Some? {
        list := list + [entry.value.value];
      }
    }
    assert skus[..|skus|] == skus;
    r := Ok(list);
  }

  /**
   * A SKU is skipped exactly when every stock quantity is at most zero,
   * which includes a SKU with no stock entries at all (`all([])` is true).
   */
  lemma SkuDropped(s: ObjectCreate.Sku)
    requires Inventories(s.stockInfos).Ok?
    ensures SkuEntry(s) == Ok(None) <==>
      forall i :: 0 <= i < |s.stockInfos| ==> IntOf(s.stockInfos[i].availableStock).value <= 0
    ensures s.stockInfos == [] ==> SkuEntry(s) == Ok(None)
  {
    var inventory := Inventories(s.stockInfos).value;
    if !InStock(inventory) {
      forall i | 0 <= i < |s.stockInfos| ensures IntOf(s.stockInfos[i].availableStock).value <= 0 {
        assert inventory[i].quantity <= 0;
      }
    }
  }

  /** When every SKU has stock somewhere, none is dropped and their order is kept. */
  lemma {:induction false} AllStockedKept(skus: seq<ObjectCreate.Sku>)
    requires forall i :: 0 <= i < |skus| ==> SkuEntry(skus[i]).Ok? && SkuEntry(skus[i]).value.Some?
    ensures SkusSpec(skus).Ok? && |SkusSpec(skus).value| == |skus|
    ensures forall i :: 0 <= i < |skus| ==> SkusSpec(skus).value[i] == SkuEntry(skus[i]).value.value
  {
    if skus != [] {
      var n := |skus| - 1;
      var init := skus[..n];
      assert forall i :: 0 <= i < n ==> init[i] == skus[i];
      AllStockedKept(init);
      var list := SkusSpec(init).value;
      var p := SkuEntry(skus[n]).value.value;
      assert SkusSpec(skus) == Ok(list + [p]);
      forall i | 0 <= i < |skus| ensures SkusSpec(skus).value[i] == SkuEntry(skus[i]).value.value {
        if i < n {
          assert (list + [p])[i] == list[i] == SkuEntry(init[i]).value.value;
        }
      }
    }
  }

  /** The JSON of one SKU: the `sales_attributes` key is left out when there are none. */
  function SkuPayloadJson(p: SkuPayload): (r: Json)
    ensures r.JObj? && ("sales_attributes" in Keys(r.fields) <==> p.salesAttributes != [])
  {
    var rest := [
      ("price", JObj([("amount", JStr(p.amount)), ("currency", JStr("USD"))])),
      ("inventory", JArr(Encode(p.inventory, InventoryJson))),
      ("seller_sku", p.sellerSku)];
    assert Keys(rest) == ["price", "inventory", "seller_sku"];
    if p.salesAttributes != [] then
      var fields := [("sales_attributes", JArr(Encode(p.salesAttributes, SalesAttrJson)))] + rest;
      assert Keys(fields)[0] == "sales_attributes";
      JObj(fields)
    else JObj(rest)
  }

  function InventoryJson(i: Inventory): Json
  {
    JObj([("warehouse_id", JStr(i.warehouseId)), ("quantity", JInt(i.quantity))])
  }

  function SalesAttrJson(a: SalesAttrPayload): Json
  {
    JObj([("name", a.name), ("value_name", a.valueName), ("sku_img", a.skuImg)])
  }

  /** The `{"id": str(value_id), "name": str(value_name)}` pairs of one attribute. */
  function ValuePayloads(values: seq<Json>): (r: Result<seq<(string, string)>>)
    ensures r.Ok? ==> |r.value| == |values| && forall i :: 0 <= i < |values| ==>
      r.value[i] == (Str(Arg(values[i], "value_id")), Str(Arg(values[i], "value_name")))
  {
    if values == [] then Ok([])
    else
      match Index(values[0], "value_id")
      case Err(e) => Err(e)
      case Ok(id) =>
        match Index(values[0], "value_name")
        case Err(e) => Err(e)
        case Ok(name) =>
          match ValuePayloads(values[1..])
          case Err(e) => Err(e)
          case Ok(rest) => Ok([(Str(id), Str(name))] + rest)
  }

  /** One product attribute: its values are read first, then its id; ids and names are stringified. */
  function AttrPayloadOf(a: Json): (r: Result<AttrPayload>)
    ensures r.Ok? ==> r.value.id == Str(Arg(a, "attribute_id"))
    ensures Index(a, "attribute_values").Err? ==> r == Err(SubscriptError(a, "attribute_values"))
    ensures Index(a, "attribute_values").Ok? && Iterate(Arg(a, "attribute_values")).None? ==>
      r == Err(NotIterable(Arg(a, "attribute_values")))
  {
    match Index(a, "attribute_values")
    case Err(e) => Err(e)
    case Ok(vs) =>
      match Iterate(vs)
      case None => Err(NotIterable(vs))
      case Some(items) =>
        match ValuePayloads(items)
        case Err(e) => Err(e)
        case Ok(values) =>
          match Index(a, "attribute_id")
          case Err(e) => Err(e)
          case Ok(id) => Ok(AttrPayload(Str(id), values))
  }

  /** `product_attributes_list`: empty for falsy attributes, else one entry per attribute in order. */
  function AttributesSpec(attrs: Json): (r: Result<seq<AttrPayload>>)
    ensures !Truthy(attrs) ==> r == Ok([])
    ensures r.Ok? && Truthy(attrs) ==> Iterate(attrs).Some? && |r.value| == |Iterate(attrs).value|
    ensures Truthy(attrs) && Iterate(attrs).None? ==> r == Err(NotIterable(attrs))
  {
    if !Truthy(attrs) then Ok([])
    else
      match Iterate(attrs)
      case None => Err(NotIterable(attrs))
      case Some(items) => MapAll(items, AttrPayloadOf)
  }

  function AttrPayloadJson(a: AttrPayload): Json
  {
    JObj([("id", JStr(a.id)), ("values", JArr(Encode(a.values, PairJson)))])
  }

  function PairJson(v: (string, string)): Json
  {
    JObj([("id", JStr(v.0)), ("name", JStr(v.1))])
  }

  /** `size_chart` after `None` is replaced by `""`. */
  function SizeChart(p: ObjectCreate.ProductCreateMultiObject): Json
  {
    if p.sizeChart == JNull then JStr("") else p.sizeChart
  }

  /** The body keys before the optional size chart. */
  const CreateKeys: seq<string> := [
    "title", "category_version", "main_images", "is_cod_open", "package_dimensions",
    "package_weight", "category_id", "description", "skus", "product_attributes"]
  const SizeChartKey := "size_chart"

  lemma CreateKeysDistinct()
    ensures DistinctNames(CreateKeys + [SizeChartKey]) && SizeChartKey !in CreateKeys
  {
  }

  function MainImages(imageIds: seq<string>): seq<Json>
  {
    seq(|imageIds|, i requires 0 <= i < |imageIds| => JObj([("uri", JStr(imageIds[i]))]))
  }

  /** The values under `CreateKeys`, in order. */
  function CreateValues(title: string, imageIds: seq<string>, p: ObjectCreate.ProductCreateMultiObject,
                        skus: seq<SkuPayload>, attrs: seq<AttrPayload>): (v: seq<Json>)
    ensures |v| == |CreateKeys|
  {
    [ JStr(title), JStr("v2"), JArr(MainImages(imageIds)), p.isCodOpen,
      JObj([("height", JStr(Str(p.packageHeight))), ("length", JStr(Str(p.packageLength))),
            ("unit", JStr("INCH")), ("width", JStr(Str(p.packageWidth)))]),
      JObj([("unit", JStr("POUND")), ("value", JStr(Str(p.packageWeight)))]),
      p.categoryId, if Truthy(p.description) then p.description else JStr(""),
      JArr(Encode(skus, SkuPayloadJson)), JArr(Encode(attrs, AttrPayloadJson)) ]
  }

  /** The `bodyjson` of `createProduct`; a bad stock value or a malformed attribute raises. */
  function CreateProductSpec(title: string, imageIds: seq<string>, p: ObjectCreate.ProductCreateMultiObject): Result<Json>
  {
    match SkusSpec(p.skus)
    case Err(e) => Err(e)
    case Ok(skus) =>
      match AttributesSpec(p.attributes)
      case Err(e) => Err(e)
      case Ok(attrs) =>
        Ok(CreateBody(title, imageIds, p, skus, attrs))
  }

  /** The body once the SKUs and attributes are converted: the size chart is added when it is not `""`. */
  function CreateBody(title: string, imageIds: seq<string>, p: ObjectCreate.ProductCreateMultiObject,
                      skus: seq<SkuPayload>, attrs: seq<AttrPayload>): Json
  {
    var chart := SizeChart(p);
    var values := CreateValues(title, imageIds, p, skus, attrs);
    if chart != JStr("") then Obj(CreateKeys + [SizeChartKey], values + [JObj([("image", JObj([("uri", chart)]))])])
    else Obj(CreateKeys, values)
  }

  /** `createProduct`: normalises the size chart, then builds the images, SKUs and attributes. */
  method CreateProduct(title: string, imageIds: seq<string>, p: ObjectCreate.ProductCreateMultiObject) returns (r: Result<Json>)
    ensures r == CreateProductSpec(title, imageIds, p)
  {
    var productObject := p;
    if productObject.sizeChart == JNull {
      productObject := productObject.(sizeChart := JStr(""));
    }
    var skus := BuildSkus(productObject.skus);
    if skus.Err? {
      return Err(skus.error);
    }
    var attrs := AttributesSpec(productObject.attributes);
    if attrs.Err? {
      return Err(attrs.error);
    }
    var values := CreateValues(title, imageIds, p, skus.value, attrs.value);
    if productObject.sizeChart != JStr("") && productObject.sizeChart != JNull {
      r := Ok(Obj(CreateKeys + [SizeChartKey], values + [JObj([("image", JObj([("uri", productObject.sizeChart)]))])]));
    } else {
      r := Ok(Obj(CreateKeys, values));
    }
    assert r == Ok(CreateBody(title, imageIds, p, skus.value, attrs.value));
  }

  /** The body fails exactly when a SKU's stock or an attribute cannot be read. */
  lemma CreateProductFails(title: string, imageIds: seq<string>, p: ObjectCreate.ProductCreateMultiObject)
    ensures CreateProductSpec(title, imageIds, p).Ok? <==> SkusSpec(p.skus).Ok? && AttributesSpec(p.attributes).Ok?
    ensures CreateProductSpec(title, imageIds, p).Ok? ==>
      CreateProductSpec(title, imageIds, p).value == CreateBody(title, imageIds, p, SkusSpec(p.skus).value, AttributesSpec(p.attributes).value)
  {
  }

  /**
   * The body carries the SKUs, the images as `{"uri": id}` in order, and a
   * `size_chart` key exactly when the chart is neither `None` nor `""`.
   */
  lemma CreateBodyShape(title: string, imageIds: seq<string>, p: ObjectCreate.ProductCreateMultiObject,
                        skus: seq<SkuPayload>, attrs: seq<AttrPayload>)
    ensures var b := CreateBody(title, imageIds, p, skus, attrs);
      b.JObj? && (SizeChartKey in Keys(b.fields) <==> p.sizeChart != JNull && p.sizeChart != JStr(""))
    ensures Arg(CreateBody(title, imageIds, p, skus, attrs), "main_images") == JArr(MainImages(imageIds))
    ensures Arg(CreateBody(title, imageIds, p, skus, attrs), "skus") == JArr(Encode(skus, SkuPayloadJson))
    ensures |MainImages(imageIds)| == |imageIds|
    ensures forall i :: 0 <= i < |imageIds| ==> MainImages(imageIds)[i] == JObj([("uri", JStr(imageIds[i]))])
  {
    CreateKeysDistinct();
    var values := CreateValues(title, imageIds, p, skus, attrs);
    var chart := SizeChart(p);
    if chart != JStr("") {
      var names := CreateKeys + [SizeChartKey];
      var vals := values + [JObj([("image", JObj([("uri", chart)]))])];
      ObjKwargs(names, vals);
      assert names[2] == "main_images" && names[8] == "skus";
      assert Arg(Obj(names, vals), names[2]) == vals[2];
      assert Arg(Obj(names, vals), names[8]) == vals[8];
    } else {
      ObjKwargs(CreateKeys, values);
      assert Arg(Obj(CreateKeys, values), CreateKeys[2]) == values[2];
      assert Arg(Obj(CreateKeys, values), CreateKeys[8]) == values[8];
    }
  }

  // ---------------------------------------------------------------- callCreateOneProduct

  const CreateOneKeys: seq<string> := [
    "product_name", "images", "is_cod_open", "package_dimension_unit", "package_height",
    "package_length", "package_weight", "package_width", "category_id", "description",
    "skus", "product_attributes"]
  const BrandKey := "brand_id"

  lemma CreateOneKeysDistinct()
    ensures DistinctNames(CreateOneKeys + [BrandKey]) && BrandKey !in CreateOneKeys
  {
  }

  function OneSkuJson(s: Constant.Sku): Json
  {
    JObj([
      ("sales_attributes", JArr(Encode(s.salesAttributes, Constant.SalesAttributeToJson))),
      ("original_price", s.originalPrice),
      ("stock_infos", JArr(Encode(s.stockInfos, OneStockJson)))])
  }

  function OneStockJson(i: Constant.StockInfo): Json
  {
    JObj([("warehouse_id", i.warehouseId), ("quantity", i.availableStock)])
  }

  function ImageIdJson(j: Json): Json
  {
    JObj([("id", j)])
  }

  /** The values under `CreateOneKeys`, once the images have been iterated. */
  function CreateOneValues(p: Constant.ProductCreateOneObject, images: seq<Json>): (v: seq<Json>)
    ensures |v| == |CreateOneKeys|
  {
    [ p.productName, JArr(Encode(images, ImageIdJson)), p.isCodOpen, p.packageDimensionUnit,
      p.packageHeight, p.packageLength, p.packageWeight, p.packageWidth, p.categoryId,
      if Truthy(p.description) then p.description else JStr(""),
      JArr(Encode(p.skus, OneSkuJson)), JArr(Encode(p.productAttributes, Constant.ProductAttributeToJson)) ]
  }

  /** The body with `brand_id` added unless it is the empty string. */
  function WithBrand(p: Constant.ProductCreateOneObject, images: seq<Json>): Json
  {
    if p.brandId != JStr("") then Obj(CreateOneKeys + [BrandKey], CreateOneValues(p, images) + [p.brandId])
    else Obj(CreateOneKeys, CreateOneValues(p, images))
  }

  /**
   * `body_json` of `callCreateOneProduct` as written: the product
   * attributes are converted inside the loop over the SKUs, so a product
   * without SKUs reaches the body with the list never assigned.
   */
  function CreateOneBodyAsWritten(p: Constant.ProductCreateOneObject): (r: Result<Json>)
    ensures r.Ok? <==> Iterate(p.images).Some? && p.skus != []
    ensures Iterate(p.images).None? ==> r == Err(NotIterable(p.images))
    ensures Iterate(p.images).Some? && p.skus == [] ==> r == Err(AttributesUnbound)
    ensures r.Ok? ==> r == CreateOneBody(p)
  {
    match Iterate(p.images)
    case None => Err(NotIterable(p.images))
    case Some(images) => if p.skus == [] then Err(AttributesUnbound) else Ok(WithBrand(p, images))
  }

  /** `body_json` with the attributes converted once, after the SKU loop, as `callEditProduct` does. */
  function CreateOneBody(p: Constant.ProductCreateOneObject): (r: Result<Json>)
    ensures r.Ok? <==> Iterate(p.images).Some?
    ensures r.Err? ==> r.error == NotIterable(p.images)
  {
    match Iterate(p.images)
    case None => Err(NotIterable(p.images))
    case Some(images) => Ok(WithBrand(p, images))
  }

  /** The code as written raises for a product with no SKUs, where the corrected body is built. */
  lemma NoSkusRaises(p: Constant.ProductCreateOneObject)
    requires Iterate(p.images).Some? && p.skus == []
    ensures CreateOneBodyAsWritten(p) == Err(AttributesUnbound)
    ensures CreateOneBody(p).Ok?
  {
  }

  /** With at least one SKU the code as written and the corrected body agree. */
  lemma AsWrittenAgreesWithSkus(p: Constant.ProductCreateOneObject)
    requires p.skus != []
    ensures CreateOneBodyAsWritten(p) == CreateOneBody(p)
  {
  }

  /** `brand_id` is sent exactly when it is not `""`; a `None` brand is sent as `null`. */
  lemma BrandRule(p: Constant.ProductCreateOneObject)
    requires CreateOneBody(p).Ok?
    ensures var b := CreateOneBody(p).value;
      b.JObj? && (BrandKey in Keys(b.fields) <==> p.brandId != JStr(""))
    ensures var b := CreateOneBody(p).value;
      p.brandId != JStr("") ==> Arg(b, BrandKey) == p.brandId
  {
    CreateOneKeysDistinct();
    var images := Iterate(p.images).value;
    if p.brandId != JStr("") {
      var names := CreateOneKeys + [BrandKey];
      var vals := CreateOneValues(p, images) + [p.brandId];
      ObjKwargs(names, vals);
      assert names[12] == BrandKey;
    }
  }

  // ---------------------------------------------------------------- callUploadImage

  /** What `callUploadImage` returns: the image id, or the last raw reply. */
  datatype UploadResult = ImageId(id: Json) | RawResponse(reply: Json)

  /** `"data" in r and r["data"] and "img_id" in r["data"]`, for a decoded reply that is a dict. */
  function DataImgId(reply: Json): Option<Json>
  {
    if reply.JObj? && "data" in Keys(reply.fields) then
      var d := Arg(reply, "data");
      if d.JObj? && "img_id" in Keys(d.fields) then Some(Arg(d, "img_id")) else None
    else None
  }

  /** The first check also wants `img_id` at the top level of the reply. */
  predicate FirstReplyAccepted(reply: Json)
  {
    reply.JObj? && "img_id" in Keys(reply.fields) && DataImgId(reply).Some?
  }

  /** The first of the retries `k .. 3` whose reply carries `data.img_id`, else the last reply. */
  function RetrySpec(post: nat -> Json, k: nat): UploadResult
    requires 1 <= k <= 4
    decreases 4 - k
  {
    if k == 4 then RawResponse(post(3))
    else if DataImgId(post(k)).Some? then ImageId(DataImgId(post(k)).value)
    else RetrySpec(post, k + 1)
  }

  /** The outcome of `callUploadImage`; `post(0)` is the first reply and `post(1..3)` those of the retries. */
  function UploadSpec(returnId: bool, post: nat -> Json): UploadResult
  {
    if !returnId then RawResponse(post(0))
    else if FirstReplyAccepted(post(0)) then ImageId(DataImgId(post(0)).value)
    else RetrySpec(post, 1)
  }

  /** `callUploadImage`: one post, then up to three re-signed retries when an id is wanted. */
  method UploadImage(returnId: bool, post: nat -> Json) returns (r: UploadResult, posts: nat)
    ensures r == UploadSpec(returnId, post)
    ensures 1 <= posts <= 4
    ensures !returnId ==> posts == 1
    ensures returnId && r.RawResponse? ==> posts == 4
  {
    var reply := post(0);
    posts := 1;
    if returnId {
      if FirstReplyAccepted(reply) {
        return ImageId(DataImgId(reply).value), posts;
      }
      for retry := 0 to 3
        invariant posts == retry + 1
        invariant UploadSpec(returnId, post) == RetrySpec(post, retry + 1)
        invariant retry > 0 ==> reply == post(retry)
      {
        reply := post(retry + 1);
        posts := posts + 1;
        if DataImgId(reply).Some? {
          return ImageId(DataImgId(reply).value), posts;
        }
      }
      return RawResponse(reply), posts;
    }
    r := RawResponse(reply);
  }

  /** A first reply with `data.img_id` but no top-level `img_id` is not taken: a second post is made. */
  lemma FirstNeedsBothIds(post: nat -> Json)
    requires DataImgId(post(0)).Some? && post(0).JObj? && "img_id" !in Keys(post(0).fields)
    ensures UploadSpec(true, post) == RetrySpec(post, 1)
  {
  }

  /** When no reply carries an id, the fourth reply is returned as is. */
  lemma NoIdGivesLastReply(post: nat -> Json)
    requires forall k :: 0 <= k < 4 ==> DataImgId(post(k)).None?
    ensures UploadSpec(true, post) == RawResponse(post(3))
  {
  }

  /** Any id returned is the `data.img_id` of one of the four replies. */
  lemma {:induction false} IdComesFromReply(post: nat -> Json, k: nat)
    requires 1 <= k <= 4 && RetrySpec(post, k).ImageId?
    ensures exists j :: k <= j < 4 && DataImgId(post(j)) == Some(RetrySpec(post, k).id)
    decreases 4 - k
  {
    if k < 4 && DataImgId(post(k)).None? {
      IdComesFromReply(post, k + 1);
    }
  }

  // ---------------------------------------------------------------- callEditProduct

  /** `json.dumps` of a body holding a `requests.Response`. */
  const NotSerializable := "Object of type Response is not JSON serializable"

  /**
   * `callEditProduct`'s `images_list`: the product's images, then one
   * `{"id": …}` per base64 item, uploaded in order. Every item is uploaded
   * first; an upload that returned the response object instead of an id
   * then makes `json.dumps(bodyjson)` raise `TypeError`, so no edit is sent.
   */
  method EditImages(existing: seq<Json>, imgBase64: seq<string>, upload: string -> UploadResult)
    returns (r: Result<seq<Json>>)
    ensures r.Err? <==> exists i :: 0 <= i < |imgBase64| && upload(imgBase64[i]).RawResponse?
    ensures r.Err? ==> r.error == NotSerializable
    ensures r.Ok? ==> |r.value| == |existing| + |imgBase64| && r.value[..|existing|] == existing
    ensures r.Ok? ==> forall i :: 0 <= i < |imgBase64| ==> r.value[|existing| + i] == ImageIdJson(upload(imgBase64[i]).id)
  {
    var images := existing;
    var serializable := true;
    for i := 0 to |imgBase64|
      invariant |images| == |existing| + i && images[..|existing|] == existing
      invariant serializable <==> forall j :: 0 <= j < i ==> upload(imgBase64[j]).ImageId?
      invariant forall j :: 0 <= j < i && upload(imgBase64[j]).ImageId? ==> images[|existing| + j] == ImageIdJson(upload(imgBase64[j]).id)
    {
      var response := upload(imgBase64[i]);
      if response.ImageId? {
        images := images + [ImageIdJson(response.id)];
      } else {
        images := images + [ImageIdJson(response.reply)];
        serializable := false;
      }
    }
    if !serializable {
      return Err(NotSerializable);
    }
    r := Ok(images);
  }
}
