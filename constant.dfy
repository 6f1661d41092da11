/**
 * Role codes, worker and timeout limits, and the product payload objects
 * used by single-product creation (`ProductCreateObject`,
 * `ProductCreateOneObject` and their parts). Each object is built from
 * keyword arguments and serialised by `to_json`.
 */
module Constant {
  import opened Wrappers
  import opened Json

  /** `ROLE_USERGROUP_CHOICES`: the label of a role code, if it is one. */
  function RoleLabel(code: int): (r: Option<string>)
    ensures r.Some? <==> 0 <= code <= 3
  {
    if code == 0 then Some("Admin")
    else if code == 1 then Some("Manager")
    else if code == 2 then Some("Seller")
    else if code == 3 then Some("Fulfillment Staff")
    else None
  }

  const ROLE_ADMIN := 0
  const ROLE_MANAGER := 1
  const ROLE_SELLER := 2
  const ROLE_FULFILLMENT := 3
  const ROLE_USERGROUP_DEFAULT := 2
  const MAX_WORKER := 10
  /** Seconds. */
  const REQUEST_TIMEOUT := 300

  lemma DefaultRoleIsSeller()
    ensures RoleLabel(ROLE_USERGROUP_DEFAULT) == Some("Seller")
  {
  }

  const KwSalesAttribute: seq<string> := ["attribute_id", "attribute_name", "custom_value"]
  const KwStockInfo: seq<string> := ["warehouse_id", "available_stock"]
  const KwAttributeValue: seq<string> := ["value_id", "value_name"]
  const KwProductAttribute: seq<string> := ["attribute_id", "attribute_values"]
  const KwSku: seq<string> := ["sales_attributes", "original_price", "stock_infos", "seller_sku"]

  datatype SalesAttribute = SalesAttribute(attributeId: Json, attributeName: Json, customValue: Json)
  datatype StockInfo = StockInfo(warehouseId: Json, availableStock: Json)
  datatype AttributeValue = AttributeValue(valueId: Json, valueName: Json)
  datatype ProductAttribute = ProductAttribute(attributeId: Json, attributeValues: seq<AttributeValue>)
  datatype Sku = Sku(salesAttributes: seq<SalesAttribute>, originalPrice: Json, stockInfos: seq<StockInfo>, sellerSku: Json)

  const TypeErrorArgs := "TypeError: unexpected or missing keyword argument"

  function SalesAttributeFromKwargs(d: Json): Result<SalesAttribute>
  {
    if AcceptsKwargs(d, KwSalesAttribute, []) then
      Ok(SalesAttribute(Arg(d, "attribute_id"), Arg(d, "attribute_name"), Arg(d, "custom_value")))
    else Err(TypeErrorArgs)
  }

  function SalesAttributeToJson(a: SalesAttribute): Json
  {
    JObj([("attribute_id", a.attributeId), ("attribute_name", a.attributeName), ("custom_value", a.customValue)])
  }

  function StockInfoFromKwargs(d: Json): Result<StockInfo>
  {
    if AcceptsKwargs(d, KwStockInfo, []) then Ok(StockInfo(Arg(d, "warehouse_id"), Arg(d, "available_stock")))
    else Err(TypeErrorArgs)
  }

  function StockInfoToJson(s: StockInfo): Json
  {
    JObj([("warehouse_id", s.warehouseId), ("available_stock", s.availableStock)])
  }

  function AttributeValueFromKwargs(d: Json): Result<AttributeValue>
  {
    if AcceptsKwargs(d, KwAttributeValue, []) then Ok(AttributeValue(Arg(d, "value_id"), Arg(d, "value_name")))
    else Err(TypeErrorArgs)
  }

  function AttributeValueToJson(v: AttributeValue): Json
  {
    JObj([("value_id", v.valueId), ("value_name", v.valueName)])
  }

  function ProductAttributeFromKwargs(d: Json): Result<ProductAttribute>
  {
    if AcceptsKwargs(d, KwProductAttribute, []) then
      match FromList(Arg(d, "attribute_values"), AttributeValueFromKwargs)
      case Err(e) => Err(e)
      case Ok(values) => Ok(ProductAttribute(Arg(d, "attribute_id"), values))
    else Err(TypeErrorArgs)
  }

  function ProductAttributeToJson(a: ProductAttribute): Json
  {
    JObj([("attribute_id", a.attributeId), ("attribute_values", JArr(Encode(a.attributeValues, AttributeValueToJson)))])
  }

  function SkuFromKwargs(d: Json): Result<Sku>
  {
    if AcceptsKwargs(d, KwSku, []) then
      match FromList(Arg(d, KwSku[0]), SalesAttributeFromKwargs)
      case Err(e) => Err(e)
      case Ok(attrs) =>
        match FromList(Arg(d, KwSku[2]), StockInfoFromKwargs)
        case Err(e) => Err(e)
        case Ok(stocks) => Ok(Sku(attrs, Arg(d, KwSku[1]), stocks, Arg(d, KwSku[3])))
    else Err(TypeErrorArgs)
  }

  function SkuToJson(s: Sku): Json
  {
    Obj(KwSku, [
      JArr(Encode(s.salesAttributes, SalesAttributeToJson)), s.originalPrice,
      JArr(Encode(s.stockInfos, StockInfoToJson)), s.sellerSku])
  }

  /** A constructor given exactly its own keywords rebuilds the serialised attribute. */
  lemma SalesAttributeRoundTrip(a: SalesAttribute)
    ensures SalesAttributeFromKwargs(SalesAttributeToJson(a)) == Ok(a)
  {
    ExactKwargs(SalesAttributeToJson(a).fields, KwSalesAttribute);
  }

  lemma StockInfoRoundTrip(s: StockInfo)
    ensures StockInfoFromKwargs(StockInfoToJson(s)) == Ok(s)
  {
    ExactKwargs(StockInfoToJson(s).fields, KwStockInfo);
  }

  lemma AttributeValueRoundTrip(v: AttributeValue)
    ensures AttributeValueFromKwargs(AttributeValueToJson(v)) == Ok(v)
  {
    ExactKwargs(AttributeValueToJson(v).fields, KwAttributeValue);
  }

  lemma ProductAttributeRoundTrip(a: ProductAttribute)
    ensures ProductAttributeFromKwargs(ProductAttributeToJson(a)) == Ok(a)
  {
    forall v | v in a.attributeValues ensures AttributeValueFromKwargs(AttributeValueToJson(v)) == Ok(v) {
      AttributeValueRoundTrip(v);
    }
    EncodeRoundTrip(a.attributeValues, AttributeValueToJson, AttributeValueFromKwargs);
    ExactKwargs(ProductAttributeToJson(a).fields, KwProductAttribute);
  }

  /** Rebuilding a serialised list of sales attributes gives the same list. */
  lemma SalesAttributesRoundTrip(attrs: seq<SalesAttribute>)
    ensures FromList(JArr(Encode(attrs, SalesAttributeToJson)), SalesAttributeFromKwargs) == Ok(attrs)
  {
    forall a | a in attrs ensures SalesAttributeFromKwargs(SalesAttributeToJson(a)) == Ok(a) {
      SalesAttributeRoundTrip(a);
    }
    EncodeRoundTrip(attrs, SalesAttributeToJson, SalesAttributeFromKwargs);
  }

  /** Rebuilding a serialised list of stock infos gives the same list. */
  lemma StocksRoundTrip(stocks: seq<StockInfo>)
    ensures FromList(JArr(Encode(stocks, StockInfoToJson)), StockInfoFromKwargs) == Ok(stocks)
  {
    forall x | x in stocks ensures StockInfoFromKwargs(StockInfoToJson(x)) == Ok(x) {
      StockInfoRoundTrip(x);
    }
    EncodeRoundTrip(stocks, StockInfoToJson, StockInfoFromKwargs);
  }

  /** `SKU(**sku.to_json())` gives the same SKU: lists keep their length and order. */
  lemma SkuRoundTrip(s: Sku)
    ensures SkuFromKwargs(SkuToJson(s)) == Ok(s)
  {
    var vals := [
      JArr(Encode(s.salesAttributes, SalesAttributeToJson)), s.originalPrice,
      JArr(Encode(s.stockInfos, StockInfoToJson)), s.sellerSku];
    var d := SkuToJson(s);
    ObjKwargs(KwSku, vals);
    assert Arg(d, KwSku[0]) == vals[0] && Arg(d, KwSku[1]) == vals[1];
    assert Arg(d, KwSku[2]) == vals[2] && Arg(d, KwSku[3]) == vals[3];
    SalesAttributesRoundTrip(s.salesAttributes);
    StocksRoundTrip(s.stockInfos);
  }

  /** Every SKU given to a product must bind, or the constructor raises. */
  lemma SkuUnknownKeyRejected(d: Json)
    requires d.JObj? && "colour" in Keys(d.fields)
    ensures SkuFromKwargs(d).Err?
  {
    assert forall k :: k in KwSku ==> |k| >= 10;
    assert !AcceptsKwargs(d, KwSku, []);
  }

  /** Rebuilding a serialised list of SKUs gives the same list. */
  lemma SkusRoundTrip(skus: seq<Sku>)
    ensures FromList(JArr(Encode(skus, SkuToJson)), SkuFromKwargs) == Ok(skus)
  {
    forall s | s in skus ensures SkuFromKwargs(SkuToJson(s)) == Ok(s) {
      SkuRoundTrip(s);
    }
    EncodeRoundTrip(skus, SkuToJson, SkuFromKwargs);
  }

  /** Rebuilding a serialised list of product attributes gives the same list. */
  lemma ProductAttributesRoundTrip(attrs: seq<ProductAttribute>)
    ensures FromList(JArr(Encode(attrs, ProductAttributeToJson)), ProductAttributeFromKwargs) == Ok(attrs)
  {
    forall a | a in attrs ensures ProductAttributeFromKwargs(ProductAttributeToJson(a)) == Ok(a) {
      ProductAttributeRoundTrip(a);
    }
    EncodeRoundTrip(attrs, ProductAttributeToJson, ProductAttributeFromKwargs);
  }

  const KwProductCreate: seq<string> := [
    "is_cod_open", "package_dimension_unit", "package_height", "package_length", "package_weight",
    "package_width", "category_id", "warehouse_id", "description", "skus"]

  lemma KwProductCreateDistinct()
    ensures DistinctNames(KwProductCreate)
  {
  }

  /** `ProductCreateObject`: pass-through fields plus converted SKUs. */
  datatype ProductCreateObject = ProductCreateObject(
    isCodOpen: Json, packageDimensionUnit: Json, packageHeight: Json, packageLength: Json,
    packageWeight: Json, packageWidth: Json, categoryId: Json, warehouseId: Json,
    description: Json, skus: seq<Sku>)

  function ProductCreateObjectFromKwargs(d: Json): Result<ProductCreateObject>
  {
    if AcceptsKwargs(d, KwProductCreate, []) then
      match FromList(Arg(d, KwProductCreate[9]), SkuFromKwargs)
      case Err(e) => Err(e)
      case Ok(skus) =>
        // a[i] is the argument named KwProductCreate[i]
        var a := Args(d, KwProductCreate);
        Ok(ProductCreateObject(a[0], a[1], a[2], a[3], a[4], a[5], a[6], a[7], a[8], skus))
    else Err(TypeErrorArgs)
  }

  function ProductCreateObjectToJson(p: ProductCreateObject): Json
  {
    Obj(KwProductCreate, [
      p.isCodOpen, p.packageDimensionUnit, p.packageHeight, p.packageLength, p.packageWeight,
      p.packageWidth, p.categoryId, p.warehouseId, p.description, JArr(Encode(p.skus, SkuToJson))])
  }

  /** `to_json` returns every constructor field, so the payload builds the same object again. */
  lemma ProductCreateObjectRoundTrip(p: ProductCreateObject)
    ensures ProductCreateObjectFromKwargs(ProductCreateObjectToJson(p)) == Ok(p)
  {
    SkusRoundTrip(p.skus);
    KwProductCreateDistinct();
    var vals := [
      p.isCodOpen, p.packageDimensionUnit, p.packageHeight, p.packageLength, p.packageWeight,
      p.packageWidth, p.categoryId, p.warehouseId, p.description, JArr(Encode(p.skus, SkuToJson))];
    ObjArgs(KwProductCreate, vals);
    assert ProductCreateObjectToJson(p) == Obj(KwProductCreate, vals);
  }

  const KwProductCreateOne: seq<string> := [
    "product_name", "images", "is_cod_open", "package_dimension_unit", "package_height",
    "package_length", "package_weight", "package_width", "category_id", "brand_id",
    "description", "skus", "product_attributes", "size_chart"]

  lemma KwProductCreateOneDistinct()
    ensures DistinctNames(KwProductCreateOne)
  {
  }

  /** `ProductCreateOneObject`: pass-through fields plus converted SKUs and attributes. */
  datatype ProductCreateOneObject = ProductCreateOneObject(
    productName: Json, images: Json, isCodOpen: Json, packageDimensionUnit: Json,
    packageHeight: Json, packageLength: Json, packageWeight: Json, packageWidth: Json,
    categoryId: Json, brandId: Json, description: Json, skus: seq<Sku>,
    productAttributes: seq<ProductAttribute>, sizeChart: Json)

  function ProductCreateOneObjectFromKwargs(d: Json): Result<ProductCreateOneObject>
  {
    if AcceptsKwargs(d, KwProductCreateOne, []) then
      match FromList(Arg(d, KwProductCreateOne[11]), SkuFromKwargs)
      case Err(e) => Err(e)
      case Ok(skus) =>
        match FromList(Arg(d, KwProductCreateOne[12]), ProductAttributeFromKwargs)
        case Err(e) => Err(e)
        case Ok(attrs) =>
          // a[i] is the argument named KwProductCreateOne[i]
          var a := Args(d, KwProductCreateOne);
          Ok(ProductCreateOneObject(
            a[0], a[1], a[2], a[3], a[4], a[5], a[6], a[7], a[8], a[9], a[10], skus, attrs, a[13]))
    else Err(TypeErrorArgs)
  }

  function ProductCreateOneObjectToJson(p: ProductCreateOneObject): Json
  {
    Obj(KwProductCreateOne, [
      p.productName, p.images, p.isCodOpen, p.packageDimensionUnit, p.packageHeight,
      p.packageLength, p.packageWeight, p.packageWidth, p.categoryId, p.brandId,
      p.description, JArr(Encode(p.skus, SkuToJson)),
      JArr(Encode(p.productAttributes, ProductAttributeToJson)), p.sizeChart])
  }

  /** `to_json` returns every constructor field, with SKUs and attributes converted in order. */
  lemma ProductCreateOneObjectRoundTrip(p: ProductCreateOneObject)
    ensures ProductCreateOneObjectFromKwargs(ProductCreateOneObjectToJson(p)) == Ok(p)
  {
    SkusRoundTrip(p.skus);
    ProductAttributesRoundTrip(p.productAttributes);
    KwProductCreateOneDistinct();
    var vals := [
      p.productName, p.images, p.isCodOpen, p.packageDimensionUnit, p.packageHeight,
      p.packageLength, p.packageWeight, p.packageWidth, p.categoryId, p.brandId,
      p.description, JArr(Encode(p.skus, SkuToJson)),
      JArr(Encode(p.productAttributes, ProductAttributeToJson)), p.sizeChart];
    ObjArgs(KwProductCreateOne, vals);
    assert ProductCreateOneObjectToJson(p) == Obj(KwProductCreateOne, vals);
  }
}
