/**
 * The payload objects used by bulk product creation from a spreadsheet:
 * `SKU`, `SalesAttribute` (name, custom value and an optional image) and
 * `ProductCreateMultiObject`. Each is built from keyword arguments and
 * serialised by `to_json`. The `StockInfo`, `AttributeValue` and
 * `ProductAttribute` classes of this module have the same fields and
 * `to_json` as those of the constants module, and are modelled by the
 * datatypes of `Constant`.
 */
module ObjectCreate {
  import opened Wrappers
  import opened Json
  import Constant

  const KwSalesAttribute: seq<string> := ["attribute_name", "custom_value"]
  const KwSalesAttributeOptional: seq<string> := ["sku_img"]
  const KwSku: seq<string> := ["sales_attributes", "original_price", "stock_infos", "seller_sku"]
  const KwProductCreateMulti: seq<string> := [
    "is_cod_open", "package_dimension_unit", "package_height", "package_length", "package_weight",
    "package_width", "category_id", "warehouse_id", "description", "skus", "size_chart", "attributes"]

  lemma KwProductCreateMultiDistinct()
    ensures DistinctNames(KwProductCreateMulti)
  {
  }

  datatype SalesAttribute = SalesAttribute(attributeName: Json, customValue: Json, skuImg: Json)
  datatype Sku = Sku(salesAttributes: seq<SalesAttribute>, originalPrice: Json, stockInfos: seq<Constant.StockInfo>, sellerSku: Json)

  /** `ProductCreateMultiObject`: pass-through fields, converted SKUs, and the raw size chart and attributes. */
  datatype ProductCreateMultiObject = ProductCreateMultiObject(
    isCodOpen: Json, packageDimensionUnit: Json, packageHeight: Json, packageLength: Json,
    packageWeight: Json, packageWidth: Json, categoryId: Json, warehouseId: Json,
    description: Json, skus: seq<Sku>, sizeChart: Json, attributes: Json)

  /** `SalesAttribute(**kwargs)`: a missing or `None` image becomes the empty dict. */
  function SalesAttributeFromKwargs(d: Json): (r: Result<SalesAttribute>)
    ensures r.Ok? <==> AcceptsKwargs(d, KwSalesAttribute, KwSalesAttributeOptional)
    ensures r.Ok? ==> r.value.skuImg != JNull
    ensures r.Ok? && Arg(d, "sku_img") == JNull ==> r.value.skuImg == JObj([])
  {
    if AcceptsKwargs(d, KwSalesAttribute, KwSalesAttributeOptional) then
      var img := Arg(d, "sku_img");
      Ok(SalesAttribute(Arg(d, "attribute_name"), Arg(d, "custom_value"), if img == JNull then JObj([]) else img))
    else Err(Constant.TypeErrorArgs)
  }

  /** `to_json` emits the image as its `str()`. */
  function SalesAttributeToJson(a: SalesAttribute): Json
  {
    JObj([("attribute_name", a.attributeName), ("custom_value", a.customValue), ("sku_img", JStr(Str(a.skuImg)))])
  }

  /** `SKU(**kwargs)`: a falsy `sales_attributes` gives no attributes; stock infos must be iterable. */
  function SkuFromKwargs(d: Json): Result<Sku>
  {
    if AcceptsKwargs(d, KwSku, []) then
      var attrs := if Truthy(Arg(d, KwSku[0])) then FromList(Arg(d, KwSku[0]), SalesAttributeFromKwargs) else Ok([]);
      match attrs
      case Err(e) => Err(e)
      case Ok(attrs) =>
        match FromList(Arg(d, KwSku[2]), Constant.StockInfoFromKwargs)
        case Err(e) => Err(e)
        case Ok(stocks) => Ok(Sku(attrs, Arg(d, KwSku[1]), stocks, Arg(d, KwSku[3])))
    else Err(Constant.TypeErrorArgs)
  }

  function SkuToJson(s: Sku): Json
  {
    Obj(KwSku, [
      JArr(Encode(s.salesAttributes, SalesAttributeToJson)), s.originalPrice,
      JArr(Encode(s.stockInfos, Constant.StockInfoToJson)), s.sellerSku])
  }

  function ProductCreateMultiObjectFromKwargs(d: Json): Result<ProductCreateMultiObject>
  {
    if AcceptsKwargs(d, KwProductCreateMulti, []) then
      match FromList(Arg(d, KwProductCreateMulti[9]), SkuFromKwargs)
      case Err(e) => Err(e)
      case Ok(skus) =>
        // a[i] is the argument named KwProductCreateMulti[i]
        var a := Args(d, KwProductCreateMulti);
        Ok(ProductCreateMultiObject(a[0], a[1], a[2], a[3], a[4], a[5], a[6], a[7], a[8], skus, a[10], a[11]))
    else Err(Constant.TypeErrorArgs)
  }

  function ProductCreateMultiObjectToJson(p: ProductCreateMultiObject): Json
  {
    Obj(KwProductCreateMulti, [
      p.isCodOpen, p.packageDimensionUnit, p.packageHeight, p.packageLength, p.packageWeight,
      p.packageWidth, p.categoryId, p.warehouseId, p.description,
      JArr(Encode(p.skus, SkuToJson)), p.sizeChart, p.attributes])
  }

  /** An attribute built without an image serialises its image as `'{}'`. */
  lemma DefaultImageSerialised(d: Json)
    requires AcceptsKwargs(d, KwSalesAttribute, KwSalesAttributeOptional) && Arg(d, "sku_img") == JNull
    ensures SalesAttributeToJson(SalesAttributeFromKwargs(d).value).fields[2] == ("sku_img", JStr("{}"))
  {
    EmptyDictRepr();
  }

  /**
   * Serialising and rebuilding an attribute keeps its name and value and
   * replaces the image by its `str()`; an image that is already a string
   * comes back unchanged.
   */
  lemma SalesAttributeRoundTrip(a: SalesAttribute)
    ensures SalesAttributeFromKwargs(SalesAttributeToJson(a)) == Ok(a.(skuImg := JStr(Str(a.skuImg))))
    ensures a.skuImg.JStr? ==> SalesAttributeFromKwargs(SalesAttributeToJson(a)) == Ok(a)
  {
    var fields := SalesAttributeToJson(a).fields;
    assert Keys(fields) == KwSalesAttribute + KwSalesAttributeOptional;
    ExactKwargs(fields, KwSalesAttribute + KwSalesAttributeOptional);
  }

  /** Attributes whose images are strings. */
  predicate StringImages(s: Sku)
  {
    forall a :: a in s.salesAttributes ==> a.skuImg.JStr?
  }

  /** `SKU(**sku.to_json())` gives the same SKU, attribute and stock lists in the same order, once images are strings. */
  lemma SkuRoundTrip(s: Sku)
    requires StringImages(s)
    ensures SkuFromKwargs(SkuToJson(s)) == Ok(s)
  {
    var vals := [
      JArr(Encode(s.salesAttributes, SalesAttributeToJson)), s.originalPrice,
      JArr(Encode(s.stockInfos, Constant.StockInfoToJson)), s.sellerSku];
    var d := SkuToJson(s);
    ObjKwargs(KwSku, vals);
    assert Arg(d, KwSku[0]) == vals[0] && Arg(d, KwSku[1]) == vals[1];
    assert Arg(d, KwSku[2]) == vals[2] && Arg(d, KwSku[3]) == vals[3];
    AttributesRoundTrip(s.salesAttributes);
    Constant.StocksRoundTrip(s.stockInfos);
  }

  lemma AttributesRoundTrip(attrs: seq<SalesAttribute>)
    requires forall a :: a in attrs ==> a.skuImg.JStr?
    ensures var j := JArr(Encode(attrs, SalesAttributeToJson));
      (if Truthy(j) then FromList(j, SalesAttributeFromKwargs) else Ok([])) == Ok(attrs)
  {
    forall a | a in attrs ensures SalesAttributeFromKwargs(SalesAttributeToJson(a)) == Ok(a) {
      SalesAttributeRoundTrip(a);
    }
    EncodeRoundTrip(attrs, SalesAttributeToJson, SalesAttributeFromKwargs);
  }

  /** `[] if not sales_attributes`: a SKU given `None` or an empty list has no attributes. */
  lemma FalsyAttributesEmpty(d: Json)
    requires AcceptsKwargs(d, KwSku, []) && !Truthy(Arg(d, "sales_attributes"))
    requires FromList(Arg(d, "stock_infos"), Constant.StockInfoFromKwargs).Ok?
    ensures SkuFromKwargs(d).Ok? && SkuFromKwargs(d).value.salesAttributes == []
  {
  }

  /**
   * `to_json` converts the SKUs and returns every other field, the size
   * chart and the raw attributes included, unchanged.
   */
  lemma ProductCreateMultiObjectRoundTrip(p: ProductCreateMultiObject)
    requires forall s :: s in p.skus ==> StringImages(s)
    ensures ProductCreateMultiObjectFromKwargs(ProductCreateMultiObjectToJson(p)) == Ok(p)
  {
    forall s | s in p.skus ensures SkuFromKwargs(SkuToJson(s)) == Ok(s) {
      SkuRoundTrip(s);
    }
    EncodeRoundTrip(p.skus, SkuToJson, SkuFromKwargs);
    KwProductCreateMultiDistinct();
    var vals := [
      p.isCodOpen, p.packageDimensionUnit, p.packageHeight, p.packageLength, p.packageWeight,
      p.packageWidth, p.categoryId, p.warehouseId, p.description,
      JArr(Encode(p.skus, SkuToJson)), p.sizeChart, p.attributes];
    ObjArgs(KwProductCreateMulti, vals);
    assert ProductCreateMultiObjectToJson(p) == Obj(KwProductCreateMulti, vals);
  }
}
