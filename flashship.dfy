/**
 * `SaveVariantDataFromExcel.post`: every row of an uploaded sheet becomes a
 * FlashShip print-on-demand variant. A row's `variant_sku` must read
 * `size/colour` and its `product_type` must be one of the three kinds;
 * the first row that fails stops the import, and the rows before it stay
 * saved.
 */
module Flashship {
  import opened Wrappers
  import Text

  /** A spreadsheet cell: text, or a value of another Python type (a number, `NaN` for an empty cell). */
  datatype Cell = CellText(text: string) | CellOther(typeName: string)

  datatype SheetRow = SheetRow(variantId: int, variantSku: Cell, productType: Cell)

  datatype Variant = Variant(variantId: int, color: string, size: string, productType: string)

  /** `FlashShipPODVariantList.PRODUCT_TYPE_CHOICES`, the stored values. */
  const ProductTypes: seq<string> := ["SHIRT", "HOODIE", "SWEATSHIRT"]

  datatype Reply =
    | NoFile
    | InvalidSku(row: nat)
    | InvalidType(row: nat)
    | Failed(message: string)
    | Saved

  function Status(r: Reply): nat
  {
    match r
    case NoFile => 400
    case InvalidSku(_) => 400
    case InvalidType(_) => 400
    case Failed(_) => 500
    case Saved => 201
  }

  function Message(r: Reply): string
  {
    match r
    case NoFile => "No file uploaded"
    case InvalidSku(n) => "Invalid variant SKU at row " + Text.NatToString(n)
    case InvalidType(n) => "Invalid product type at row " + Text.NatToString(n)
    case Failed(m) => "Failed to save variant data: " + m
    case Saved => "Variant data saved successfully"
  }

  /** What one row does: a variant to save, or the reply that stops the import (row numbers from 1). */
  datatype RowOutcome = Save(v: Variant) | Stop(reply: Reply)

  function CheckRow(row: SheetRow, index: nat): (o: RowOutcome)
    ensures o.Save? ==> row.variantSku.CellText? && o.v.size + "/" + o.v.color == row.variantSku.text
    ensures o.Save? ==> row.productType.CellText? && o.v.productType == row.productType.text && o.v.productType in ProductTypes
    ensures o.Save? ==> o.v.variantId == row.variantId
    ensures o.Stop? ==> o.reply != Saved && o.reply != NoFile
  {
    match row.variantSku
    case CellOther(t) => Stop(Failed("'" + t + "' object has no attribute 'split'"))
    case CellText(sku) =>
      var parts := Text.Split(sku, '/');
      if |parts| != 2 then Stop(InvalidSku(index + 1))
      else if !row.productType.CellText? || row.productType.text !in ProductTypes then Stop(InvalidType(index + 1))
      else
        assert parts[0] + "/" + parts[1] == sku by {
          Text.SplitJoin(sku, '/');
          JoinPair(parts);
        }
        Save(Variant(row.variantId, parts[1], parts[0], row.productType.text))
  }

  lemma JoinPair(parts: seq<string>)
    requires |parts| == 2
    ensures Text.Join(parts, '/') == parts[0] + "/" + parts[1]
  {
    assert parts[1..] == [parts[1]];
  }

  /** A SKU of the form `size/colour` with no other slash passes the SKU check, and splits back into its two halves. */
  lemma SkuRoundTrip(size: string, color: string, row: SheetRow, index: nat)
    requires '/' !in size && '/' !in color
    requires row.variantSku == CellText(size + "/" + color)
    requires row.productType.CellText? && row.productType.text in ProductTypes
    ensures CheckRow(row, index) == Save(Variant(row.variantId, color, size, row.productType.text))
  {
    SplitOf(size, color);
  }

  lemma {:induction false} SplitOf(size: string, color: string)
    requires '/' !in size && '/' !in color
    ensures Text.Split(size + "/" + color, '/') == [size, color]
  {
    if size == "" {
      assert (size + "/" + color)[1..] == color;
      NoSepSplit(color);
    } else {
      assert (size + "/" + color)[1..] == size[1..] + "/" + color;
      SplitOf(size[1..], color);
      assert [size[0]] + size[1..] == size;
    }
  }

  lemma {:induction false} NoSepSplit(s: string)
    requires '/' !in s
    ensures Text.Split(s, '/') == [s]
  {
    if s != "" {
      NoSepSplit(s[1..]);
      assert [s[0]] + s[1..] == s;
    }
  }

  /** A SKU with no slash, or with more than one, is rejected with its row number. */
  lemma BadSkuRejected(row: SheetRow, index: nat)
    requires row.variantSku.CellText? && |Text.Split(row.variantSku.text, '/')| != 2
    ensures CheckRow(row, index) == Stop(InvalidSku(index + 1))
  {
  }

  /** The rows that pass, from the first row up to the first one that stops the import. */
  function FirstStop(rows: seq<SheetRow>, from: nat): (k: nat)
    requires from <= |rows|
    ensures from <= k <= |rows|
    ensures forall j :: from <= j < k ==> CheckRow(rows[j], j).Save?
    ensures k < |rows| ==> CheckRow(rows[k], k).Stop?
    decreases |rows| - from
  {
    if from == |rows| then from
    else if CheckRow(rows[from], from).Stop? then from
    else FirstStop(rows, from + 1)
  }

  function Variants(rows: seq<SheetRow>, n: nat): (vs: seq<Variant>)
    requires n <= |rows| && forall j :: 0 <= j < n ==> CheckRow(rows[j], j).Save?
    ensures |vs| == n && forall j :: 0 <= j < n ==> vs[j] == CheckRow(rows[j], j).v
  {
    if n == 0 then [] else Variants(rows, n - 1) + [CheckRow(rows[n - 1], n - 1).v]
  }

  lemma VariantsSnoc(h: seq<Variant>, rows: seq<SheetRow>, n: nat)
    requires n < |rows| && forall j :: 0 <= j <= n ==> CheckRow(rows[j], j).Save?
    ensures h + Variants(rows, n) + [CheckRow(rows[n], n).v] == h + Variants(rows, n + 1)
  {
  }

  /** The import's reply for a sheet that was read. */
  function ImportReply(rows: seq<SheetRow>): Reply
  {
    var k := FirstStop(rows, 0);
    if k == |rows| then Saved else CheckRow(rows[k], k).reply
  }

  /** The import succeeds exactly when every row passes, and otherwise names the first failing row. */
  lemma ImportReplyFacts(rows: seq<SheetRow>)
    ensures ImportReply(rows) == Saved <==> forall j :: 0 <= j < |rows| ==> CheckRow(rows[j], j).Save?
    ensures ImportReply(rows).InvalidSku? ==>
      exists k ::
        && 0 <= k < |rows| && ImportReply(rows).row == k + 1
        && CheckRow(rows[k], k) == Stop(InvalidSku(k + 1))
        && forall j :: 0 <= j < k ==> CheckRow(rows[j], j).Save?
    ensures ImportReply(rows).InvalidType? ==>
      exists k ::
        && 0 <= k < |rows| && ImportReply(rows).row == k + 1
        && CheckRow(rows[k], k) == Stop(InvalidType(k + 1))
        && forall j :: 0 <= j < k ==> CheckRow(rows[j], j).Save?
  {
    var k := FirstStop(rows, 0);
    if k < |rows| {
      var r := CheckRow(rows[k], k).reply;
      assert r.InvalidSku? ==> r == InvalidSku(k + 1);
      assert r.InvalidType? ==> r == InvalidType(k + 1);
    }
  }

  /** `FlashShipPODVariantList`: the saved variants in creation order. */
  class VariantTable {
    var variants: seq<Variant>

    constructor()
      ensures variants == []
    {
      variants := [];
    }

    /**
     * `post`: `upload` is the uploaded file, `None` when there is none,
     * and `Err` carries the message of a sheet that could not be read.
     */
    method SaveVariantDataFromExcel(upload: Option<Result<seq<SheetRow>>>) returns (r: Reply)
      modifies this
      ensures upload.None? ==> r == NoFile && variants == old(variants)
      ensures upload.Some? && upload.value.Err? ==> r == Failed(upload.value.error) && variants == old(variants)
      ensures upload.Some? && upload.value.Ok? ==>
        var rows := upload.value.value;
        && r == ImportReply(rows)
        && variants == old(variants) + Variants(rows, FirstStop(rows, 0))
    {
      if upload.None? {
        return NoFile;
      }
      if upload.value.Err? {
        return Failed(upload.value.error);
      }
      var rows := upload.value.value;
      ghost var k := FirstStop(rows, 0);
      for index := 0 to |rows|
        invariant index <= k
        invariant variants == old(variants) + Variants(rows, index)
      {
        var outcome := CheckRow(rows[index], index);
        if outcome.Stop? {
          assert index == k;
          return outcome.reply;
        }
        VariantsSnoc(old(variants), rows, index);
        variants := variants + [outcome.v];
      }
      r := Saved;
    }
  }
}
