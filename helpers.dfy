/**
 * The shared helpers: the verification-token check, the two older signers
 * (`GenerateSign`, whose body is mandatory, and `GenerateSignNoBody`), and
 * the product payload objects built with `Class(**d)` and serialised by
 * `to_json`.
 *
 * The signers sort and filter the parameters exactly as the auth utilities
 * do, so they reuse `Auth.Signed` and `Auth.AppendItems`. `AttributeValue`,
 * `ProductAttribute` and `StockInfo` take the same keywords and emit the same
 * dicts as the classes of the same name in the constants module, so those
 * are reused too.
 */
module Helpers {
  import opened Wrappers
  import opened Json
  import Auth
  import Constant

  /** `check_token(user, token)`, given the user's stored `verify_token`. */
  predicate CheckToken(storedToken: string, token: string)
  {
    storedToken == token
  }

  /** The string `GenerateSign.cal_sign` hands to HMAC: the body is always appended. */
  function WithBodySignString(secret: string, path: string, params: seq<Auth.Entry>, body: string): string
  {
    secret + path + Auth.Concat(Auth.Signed(params)) + (body + secret)
  }

  /** The string `GenerateSignNoBody.cal_sign` hands to HMAC. */
  function NoBodySignString(secret: string, path: string, params: seq<Auth.Entry>): string
  {
    secret + path + Auth.Concat(Auth.Signed(params)) + secret
  }

  /** `GenerateSign().cal_sign(secret, url, query_params, body)`. */
  method CalSign(secret: string, path: string, params: seq<Auth.Entry>, body: string,
                 hmac: (string, string) -> string)
    returns (signature: string)
    ensures signature == hmac(secret, WithBodySignString(secret, path, params, body))
  {
    var sorted := Auth.ObjKeySort(params);
    sorted := Auth.Pop(sorted, Auth.SignKey);
    sorted := Auth.Pop(sorted, Auth.AccessTokenKey);
    var signString := Auth.AppendItems(secret + path, sorted);
    signString := signString + (body + secret);
    signature := hmac(secret, signString);
  }

  /** `GenerateSignNoBody().cal_sign(secret, url, query_params)`. */
  method CalSignNoBody(secret: string, path: string, params: seq<Auth.Entry>, hmac: (string, string) -> string)
    returns (signature: string)
    ensures signature == hmac(secret, NoBodySignString(secret, path, params))
  {
    var sorted := Auth.ObjKeySort(params);
    sorted := Auth.Pop(sorted, Auth.SignKey);
    sorted := Auth.Pop(sorted, Auth.AccessTokenKey);
    var signString := Auth.AppendItems(secret + path, sorted);
    signString := signString + secret;
    signature := hmac(secret, signString);
  }

  /**
   * The three signers agree: the body-less signer is the body signer with
   * an empty body, and both match the auth utilities' signer, which treats
   * an empty body as no body.
   */
  lemma SignersAgree(secret: string, path: string, params: seq<Auth.Entry>, body: string)
    ensures NoBodySignString(secret, path, params) == WithBodySignString(secret, path, params, "")
    ensures NoBodySignString(secret, path, params) == Auth.SignString(secret, path, params, None)
    ensures WithBodySignString(secret, path, params, body) == Auth.SignString(secret, path, params, Some(body))
  {
  }

  /**
   * Like the auth signer, the helpers' signers ignore the dict's order and
   * its `sign` and `access_token` entries.
   */
  lemma WithBodyDependsOnEntries(secret: string, path: string, p: seq<Auth.Entry>, q: seq<Auth.Entry>, body: string)
    requires DistinctKeys(p) && DistinctKeys(q)
    requires forall x: Auth.Entry :: x.0 != Auth.SignKey && x.0 != Auth.AccessTokenKey ==> (x in p <==> x in q)
    ensures WithBodySignString(secret, path, p, body) == WithBodySignString(secret, path, q, body)
    ensures NoBodySignString(secret, path, p) == NoBodySignString(secret, path, q)
  {
    Auth.SignedEntries(p);
    Auth.SignedEntries(q);
    Auth.SortedUnique(Auth.Signed(p), Auth.Signed(q));
  }

  const KwSalesAttribute: seq<string> := ["attribute_id", "attribute_name", "value_id", "value_name"]
  const KwSku: seq<string> := ["sales_attributes", "original_price", "stock_infos", "seller_sku"]
  const KwProduct: seq<string> := [
    "product_id", "product_name", "images", "price", "is_cod_open", "package_dimension_unit",
    "package_height", "package_length", "package_weight", "package_width", "category_id",
    "brand_id", "description", "skus", "product_attributes", "size_chart"]

  lemma KwProductDistinct()
    ensures DistinctNames(KwProduct)
  {
  }

  /** The helpers' `SalesAttribute`: a chosen value of a sales attribute. */
  datatype SalesAttribute = SalesAttribute(attributeId: Json, attributeName: Json, valueId: Json, valueName: Json)

  datatype Sku = Sku(salesAttributes: seq<SalesAttribute>, originalPrice: Json, stockInfos: seq<Constant.StockInfo>, sellerSku: Json)

  /** `ProductObject`: pass-through fields, the image list as given, and converted SKUs and attributes. */
  datatype ProductObject = ProductObject(
    productId: Json, productName: Json, images: Json, price: Json, isCodOpen: Json,
    packageDimensionUnit: Json, packageHeight: Json, packageLength: Json, packageWeight: Json,
    packageWidth: Json, categoryId: Json, brandId: Json, description: Json, skus: seq<Sku>,
    productAttributes: seq<Constant.ProductAttribute>, sizeChart: Json)

  function SalesAttributeFromKwargs(d: Json): Result<SalesAttribute>
  {
    if AcceptsKwargs(d, KwSalesAttribute, []) then
      Ok(SalesAttribute(Arg(d, "attribute_id"), Arg(d, "attribute_name"), Arg(d, "value_id"), Arg(d, "value_name")))
    else Err(Constant.TypeErrorArgs)
  }

  function SalesAttributeToJson(a: SalesAttribute): Json
  {
    JObj([("attribute_id", a.attributeId), ("attribute_name", a.attributeName),
          ("value_id", a.valueId), ("value_name", a.valueName)])
  }

  function SkuFromKwargs(d: Json): Result<Sku>
  {
    if AcceptsKwargs(d, KwSku, []) then
      match FromList(Arg(d, KwSku[0]), SalesAttributeFromKwargs)
      case Err(e) => Err(e)
      case Ok(attrs) =>
        match FromList(Arg(d, KwSku[2]), Constant.StockInfoFromKwargs)
        case Err(e) => Err(e)
        case Ok(stocks) => Ok(Sku(attrs, Arg(d, KwSku[1]), stocks, Arg(d, KwSku[3])))
    else Err(Constant.TypeErrorArgs)
  }

  function SkuToJson(s: Sku): Json
  {
    Obj(KwSku, [
      JArr(Encode(s.salesAttributes, SalesAttributeToJson)), s.originalPrice,
      JArr(Encode(s.stockInfos, Constant.StockInfoToJson)), s.sellerSku])
  }

  function ProductObjectFromKwargs(d: Json): Result<ProductObject>
  {
    if AcceptsKwargs(d, KwProduct, []) then
      match FromList(Arg(d, KwProduct[13]), SkuFromKwargs)
      case Err(e) => Err(e)
      case Ok(skus) =>
        match FromList(Arg(d, KwProduct[14]), Constant.ProductAttributeFromKwargs)
        case Err(e) => Err(e)
        case Ok(attrs) =>
          // a[i] is the argument named KwProduct[i]
          var a := Args(d, KwProduct);
          Ok(ProductObject(a[0], a[1], a[2], a[3], a[4], a[5], a[6], a[7], a[8], a[9], a[10], a[11], a[12],
                           skus, attrs, a[15]))
    else Err(Constant.TypeErrorArgs)
  }

  /** `{"id": image["id"]}`: anything but a dict with an `id` raises. */
  function ImageRef(image: Json): (r: Result<Json>)
    ensures r.Ok? ==> r.value == JObj([("id", Arg(image, "id"))])
    ensures r.Ok? <==> image.JObj? && "id" in Keys(image.fields)
    ensures r.Err? ==> r.error == SubscriptError(image, "id")
  {
    if image.JObj? && Get(image.fields, "id").Some? then Ok(JObj([("id", Get(image.fields, "id").value)]))
    else Err(SubscriptError(image, "id"))
  }

  /** The dict `to_json` returns once the image references are built. */
  function ProductDict(p: ProductObject, refs: seq<Json>): Json
  {
    Obj(KwProduct, [
      p.productId, p.productName, JArr(refs), p.price, p.isCodOpen, p.packageDimensionUnit,
      p.packageHeight, p.packageLength, p.packageWeight, p.packageWidth, p.categoryId,
      p.brandId, p.description, JArr(Encode(p.skus, SkuToJson)),
      JArr(Encode(p.productAttributes, Constant.ProductAttributeToJson)), p.sizeChart])
  }

  /** `ProductObject.to_json()`: every field, with each image cut down to its `id`. */
  function ProductObjectToJson(p: ProductObject): Result<Json>
  {
    match Iterate(p.images)
    case None => Err(NotIterable(p.images))
    case Some(items) =>
      match MapAll(items, ImageRef)
      case Err(e) => Err(e)
      case Ok(refs) => Ok(ProductDict(p, refs))
  }

  lemma SalesAttributeRoundTrip(a: SalesAttribute)
    ensures SalesAttributeFromKwargs(SalesAttributeToJson(a)) == Ok(a)
  {
    ExactKwargs(SalesAttributeToJson(a).fields, KwSalesAttribute);
  }

  /** Rebuilding a serialised list of sales attributes gives the same list. */
  lemma SalesAttributesRoundTrip(attrs: seq<SalesAttribute>)
    ensures FromList(JArr(Encode(attrs, SalesAttributeToJson)), SalesAttributeFromKwargs) == Ok(attrs)
  {
    forall a | a in attrs ensures SalesAttributeFromKwargs(SalesAttributeToJson(a)) == Ok(a) {
      SalesAttributeRoundTrip(a);
    }
    EncodeRoundTrip(attrs, SalesAttributeToJson, SalesAttributeFromKwargs);
  }

  /** `SKU(**sku.to_json())` gives the same SKU: attribute and stock lists keep their length and order. */
  lemma SkuRoundTrip(s: Sku)
    ensures SkuFromKwargs(SkuToJson(s)) == Ok(s)
  {
    var vals := [
      JArr(Encode(s.salesAttributes, SalesAttributeToJson)), s.originalPrice,
      JArr(Encode(s.stockInfos, Constant.StockInfoToJson)), s.sellerSku];
    var d := SkuToJson(s);
    ObjKwargs(KwSku, vals);
    assert Arg(d, KwSku[0]) == vals[0] && Arg(d, KwSku[1]) == vals[1];
    assert Arg(d, KwSku[2]) == vals[2] && Arg(d, KwSku[3]) == vals[3];
    SalesAttributesRoundTrip(s.salesAttributes);
    Constant.StocksRoundTrip(s.stockInfos);
  }

  /** Rebuilding a serialised list of SKUs gives the same list. */
  lemma SkusRoundTrip(skus: seq<Sku>)
    ensures FromList(JArr(Encode(skus, SkuToJson)), SkuFromKwargs) == Ok(skus)
  {
    forall s | s in skus ensures SkuFromKwargs(SkuToJson(s)) == Ok(s) {
      SkuRoundTrip(s);
    }
    EncodeRoundTrip(skus, SkuToJson, SkuFromKwargs);
  }

  /** An image reference is its own reference. */
  lemma {:induction false} RefsAreFixed(refs: seq<Json>, items: seq<Json>)
    requires MapAll(items, ImageRef) == Ok(refs)
    ensures MapAll(refs, ImageRef) == Ok(refs)
    decreases |items|
  {
    if items != [] {
      var r := ImageRef(items[0]);
      var rest := MapAll(items[1..], ImageRef);
      assert refs == [r.value] + rest.value;
      RefsAreFixed(rest.value, items[1..]);
      assert refs[1..] == rest.value;
      assert Get(r.value.fields, "id").Some?;
    }
  }

  /** Binding a product dict rebuilds the object, holding whatever image list the dict carried. */
  lemma ProductDictRoundTrip(p: ProductObject, refs: seq<Json>)
    ensures ProductObjectFromKwargs(ProductDict(p, refs)) == Ok(p.(images := JArr(refs)))
  {
    SkusRoundTrip(p.skus);
    Constant.ProductAttributesRoundTrip(p.productAttributes);
    KwProductDistinct();
    var vals := [
      p.productId, p.productName, JArr(refs), p.price, p.isCodOpen, p.packageDimensionUnit,
      p.packageHeight, p.packageLength, p.packageWeight, p.packageWidth, p.categoryId,
      p.brandId, p.description, JArr(Encode(p.skus, SkuToJson)),
      JArr(Encode(p.productAttributes, Constant.ProductAttributeToJson)), p.sizeChart];
    ObjArgs(KwProduct, vals);
    assert ProductDict(p, refs) == Obj(KwProduct, vals);
  }

  /** The image references of a product that serialises, `{"id": …}` per image in order. */
  function ImageRefs(p: ProductObject): (refs: seq<Json>)
    requires ProductObjectToJson(p).Ok?
    ensures ProductObjectToJson(p) == Ok(ProductDict(p, refs))
    ensures MapAll(Iterate(p.images).value, ImageRef) == Ok(refs)
  {
    MapAll(Iterate(p.images).value, ImageRef).value
  }

  lemma ImageRefsShape(p: ProductObject)
    requires ProductObjectToJson(p).Ok?
    ensures forall i :: 0 <= i < |ImageRefs(p)| ==>
      ImageRefs(p)[i] == JObj([("id", Arg(Iterate(p.images).value[i], "id"))])
  {
    var items := Iterate(p.images).value;
    var refs := ImageRefs(p);
    forall i | 0 <= i < |refs| ensures refs[i] == JObj([("id", Arg(items[i], "id"))]) {
      assert ImageRef(items[i]) == Ok(refs[i]);
    }
  }

  lemma ReserialiseStable(p: ProductObject)
    requires ProductObjectToJson(p).Ok?
    ensures ProductObjectToJson(p.(images := JArr(ImageRefs(p)))) == ProductObjectToJson(p)
  {
    var refs := ImageRefs(p);
    RefsAreFixed(refs, Iterate(p.images).value);
    assert ProductDict(p.(images := JArr(refs)), refs) == ProductDict(p, refs);
  }

  /**
   * `to_json` keeps every field but cuts each image down to `{"id": …}`:
   * rebuilding the object from its payload and serialising it again gives
   * the same payload, and the rebuilt object holds exactly the cut-down
   * images.
   */
  lemma ProductObjectRoundTrip(p: ProductObject)
    requires ProductObjectToJson(p).Ok?
    ensures ProductObjectFromKwargs(ProductObjectToJson(p).value) == Ok(p.(images := JArr(ImageRefs(p))))
    ensures forall i :: 0 <= i < |ImageRefs(p)| ==>
      ImageRefs(p)[i] == JObj([("id", Arg(Iterate(p.images).value[i], "id"))])
    ensures ProductObjectToJson(p.(images := JArr(ImageRefs(p)))) == ProductObjectToJson(p)
  {
    ProductDictRoundTrip(p, ImageRefs(p));
    ImageRefsShape(p);
    ReserialiseStable(p);
  }
}
