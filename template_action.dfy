/**
 * The listing templates and the design templates: `TemplateList.get` picks
 * a user's templates by kind, `TemplateList.put` clears a template and then
 * saves the normalised request through the template serializer, and
 * `TemplateDesignLit.get` groups design entries by calendar day, newest
 * days first.
 */
module TemplateAction {
  import opened Wrappers
  import opened Json
  import Text

  /** A stored listing template: its owner and its columns by name (`null` as `JNull`). */
  datatype TemplateRow = TemplateRow(user: nat, fields: map<string, Json>)

  // ---------------------------------------------------------------- TemplateList.get

  /** `str.lower()` on ASCII letters; no other character lowers to one of the letters of "custom" or "all". */
  function AsciiLower(s: string): (r: string)
    ensures |r| == |s|
    ensures forall k :: 0 <= k < |s| ==> r[k] == (if 'A' <= s[k] <= 'Z' then (s[k] as int + 32) as char else s[k])
  {
    if s == [] then []
    else [if 'A' <= s[0] <= 'Z' then (s[0] as int + 32) as char else s[0]] + AsciiLower(s[1..])
  }

  predicate IsCustom(t: TemplateRow)
  {
    "templateType" in t.fields && t.fields["templateType"] == JStr("custom")
  }

  /** Which rows `get` returns for the requester and the `templateType` query value. */
  predicate Selected(t: TemplateRow, user: nat, templateType: string)
  {
    && t.user == user
    && (AsciiLower(templateType) == "custom" ==> IsCustom(t))
    && (AsciiLower(templateType) != "custom" && AsciiLower(templateType) != "all" ==> !IsCustom(t))
  }

  /** `TemplateList.get`: the selected rows in table order. */
  function TemplateList(rows: seq<TemplateRow>, user: nat, templateType: string): (r: seq<TemplateRow>)
    ensures forall k :: 0 <= k < |r| ==> r[k] in rows && Selected(r[k], user, templateType)
    ensures forall t :: t in rows && Selected(t, user, templateType) ==> t in r
    ensures |r| <= |rows|
  {
    if rows == [] then []
    else
      var prev := TemplateList(rows[..|rows| - 1], user, templateType);
      assert forall t :: t in rows[..|rows| - 1] ==> t in rows;
      if Selected(rows[|rows| - 1], user, templateType) then prev + [rows[|rows| - 1]] else prev
  }

  /**
   * The three kinds: "custom" (in any case) gives the custom templates,
   * "all" every template of the user, anything else the others; a custom
   * template and a non-custom one are never in the same kind.
   */
  lemma TemplateKinds(rows: seq<TemplateRow>, user: nat, t: TemplateRow)
    requires t in rows && t.user == user
    ensures t in TemplateList(rows, user, "all")
    ensures t in TemplateList(rows, user, "CUSTOM") <==> IsCustom(t)
    ensures t in TemplateList(rows, user, "") <==> !IsCustom(t)
  {
    assert AsciiLower("CUSTOM") == "custom";
    assert AsciiLower("all") == "all";
    assert AsciiLower("") == "";
  }

  // ---------------------------------------------------------------- TemplateList.put

  /** What `put` writes before looking at the request. */
  const ClearedValues: map<string, Json> := map[
    "sizes" := JArr([]), "colors" := JArr([]),
    "option1" := JArr([]), "option2" := JArr([]), "option3" := JArr([]),
    "types" := JArr([]), "badWords" := JNull, "suffixTitle" := JNull, "size_chart" := JNull,
    "fixed_images" := JArr([]), "images_link_variant" := JArr([]), "attributes" := JArr([]),
    "fixed_image_urls" := JArr([]), "size_chart_url" := JNull]

  function Cleared(fields: map<string, Json>): (r: map<string, Json>)
    ensures r.Keys == fields.Keys + ClearedValues.Keys
    ensures forall k :: k in ClearedValues ==> r[k] == ClearedValues[k]
    ensures forall k :: k in fields && k !in ClearedValues ==> r[k] == fields[k]
  {
    fields + ClearedValues
  }

  /** `data.get(k, empty) == empty`: the key is absent or holds the empty value. */
  predicate AbsentOr(data: map<string, Json>, k: string, empty: Json)
  {
    k !in data || data[k] == empty
  }

  function NullIf(data: map<string, Json>, k: string, empty: Json): (r: map<string, Json>)
  {
    if AbsentOr(data, k, empty) then data[k := JNull] else data
  }

  /** The request after the eight adjustments, in the order the view makes them. */
  function Normalised(data: map<string, Json>): map<string, Json>
  {
    var d1 := NullIf(data, "suffixTitle", JStr(""));
    var d2 := NullIf(d1, "badWords", JArr([]));
    var d3 := NullIf(d2, "size_chart", JStr(""));
    var d4 := NullIf(d3, "fixed_images", JArr([]));
    var d5 := if "images_link_variant" in d4 && d4["images_link_variant"] == JNull then d4["images_link_variant" := JArr([])] else d4;
    var d6 := NullIf(d5, "attributes", JArr([]));
    var d7 := NullIf(d6, "fixed_image_urls", JArr([]));
    NullIf(d7, "size_chart_url", JStr(""))
  }

  /** The keys whose absent or empty value becomes `null`, with the empty value of each. */
  const NullWhenEmpty: map<string, Json> := map[
    "suffixTitle" := JStr(""), "badWords" := JArr([]), "size_chart" := JStr(""), "fixed_images" := JArr([]),
    "attributes" := JArr([]), "fixed_image_urls" := JArr([]), "size_chart_url" := JStr("")]

  /**
   * Each of the seven keys ends up `null` when it was absent or empty and
   * keeps its value otherwise; a `null` `images_link_variant` becomes `[]`
   * and any other is kept; no other key is added or changed.
   */
  lemma NormalisedAt(data: map<string, Json>, key: string)
    ensures key in NullWhenEmpty ==>
      && key in Normalised(data)
      && Normalised(data)[key] == if AbsentOr(data, key, NullWhenEmpty[key]) then JNull else data[key]
    ensures key == "images_link_variant" ==>
      && (key in Normalised(data) <==> key in data)
      && (key in data ==> Normalised(data)[key] == if data[key] == JNull then JArr([]) else data[key])
    ensures key !in NullWhenEmpty && key != "images_link_variant" ==>
      && (key in Normalised(data) <==> key in data)
      && (key in data ==> Normalised(data)[key] == data[key])
  {
    var d1 := NullIf(data, "suffixTitle", JStr(""));
    var d2 := NullIf(d1, "badWords", JArr([]));
    var d3 := NullIf(d2, "size_chart", JStr(""));
    var d4 := NullIf(d3, "fixed_images", JArr([]));
    var d5 := if "images_link_variant" in d4 && d4["images_link_variant"] == JNull then d4["images_link_variant" := JArr([])] else d4;
    var d6 := NullIf(d5, "attributes", JArr([]));
    var d7 := NullIf(d6, "fixed_image_urls", JArr([]));
    var d8 := NullIf(d7, "size_chart_url", JStr(""));
    assert Normalised(data) == d8;
    NullIfAt(data, "suffixTitle", JStr(""), key);
    NullIfAt(d1, "badWords", JArr([]), key);
    NullIfAt(d2, "size_chart", JStr(""), key);
    NullIfAt(d3, "fixed_images", JArr([]), key);
    NullIfAt(d5, "attributes", JArr([]), key);
    NullIfAt(d6, "fixed_image_urls", JArr([]), key);
    NullIfAt(d7, "size_chart_url", JStr(""), key);
  }

  lemma NullIfAt(data: map<string, Json>, k: string, empty: Json, key: string)
    ensures key in NullIf(data, k, empty) <==> key in data || key == k
    ensures key == k ==> NullIf(data, k, empty)[key] == if AbsentOr(data, k, empty) then JNull else data[k]
    ensures key != k && key in data ==> NullIf(data, k, empty)[key] == data[key]
  {
  }

  datatype PutReply = NotFound | Invalid | Saved(fields: map<string, Json>)

  class TemplateTable {
    var rows: map<nat, TemplateRow>

    constructor(rows: map<nat, TemplateRow>)
      ensures this.rows == rows
    {
      this.rows := rows;
    }

    /**
     * `TemplateList.put`. The cleared columns are saved before the request
     * is validated, so an invalid request leaves the template cleared.
     * `validate` is the serializer: the validated data, or `None`.
     */
    method Put(id: nat, data: map<string, Json>, validate: map<string, Json> -> Option<map<string, Json>>) returns (r: PutReply)
      modifies this
      ensures id !in old(rows) ==> r == NotFound && rows == old(rows)
      ensures id in old(rows) ==>
        var cleared := old(rows)[id].(fields := Cleared(old(rows)[id].fields));
        match validate(Normalised(data))
        case None => r == Invalid && rows == old(rows)[id := cleared]
        case Some(v) => r == Saved(cleared.fields + v) && rows == old(rows)[id := cleared.(fields := cleared.fields + v)]
    {
      if id !in rows {
        return NotFound;
      }
      var template := rows[id];
      template := template.(fields := Cleared(template.fields));
      rows := rows[id := template];
      var request := Normalised(data);
      var validated := validate(request);
      if validated.None? {
        return Invalid;
      }
      template := template.(fields := template.fields + validated.value);
      rows := rows[id := template];
      r := Saved(template.fields);
    }
  }

  /** A column the request does not set keeps its cleared value after a valid `put`. */
  lemma PutKeepsCleared(fields: map<string, Json>, v: map<string, Json>, k: string)
    requires k in ClearedValues && k !in v
    ensures k in Cleared(fields) + v && (Cleared(fields) + v)[k] == ClearedValues[k]
  {
  }

  // ---------------------------------------------------------------- TemplateDesignLit.get

  /** One `TemplateDesign.content`: its `time`, its `products` and the rest of it. */
  datatype DesignEntry = DesignEntry(time: string, products: seq<Json>, rest: Json)

  /** The `grouped_data` dict: the entry kept for each day and the days in insertion order. */
  datatype Grouping = Grouping(byDate: map<string, DesignEntry>, dates: seq<string>)

  predicate Distinct(s: seq<string>)
  {
    forall i, j :: 0 <= i < j < |s| ==> s[i] != s[j]
  }

  /**
   * The grouping loop; `dateOf` is `strptime(...).date()` formatted as
   * `%Y-%m-%d`, `None` where it raises.
   */
  function Group(items: seq<DesignEntry>, dateOf: string -> Option<string>): (r: Option<Grouping>)
    ensures r.Some? ==> Distinct(r.value.dates) && forall d :: d in r.value.dates <==> d in r.value.byDate
  {
    if items == [] then Some(Grouping(map[], []))
    else
      var item := items[|items| - 1];
      match Group(items[..|items| - 1], dateOf)
      case None => None
      case Some(g) =>
        match dateOf(item.time)
        case None => None
        case Some(d) =>
          if d in g.byDate then
            Some(Grouping(g.byDate[d := g.byDate[d].(products := g.byDate[d].products + item.products)], g.dates))
          else Some(Grouping(g.byDate[d := item], g.dates + [d]))
  }

  /** The first entry of day `d`. */
  function FirstOn(items: seq<DesignEntry>, dateOf: string -> Option<string>, d: string): Option<DesignEntry>
  {
    if items == [] then None
    else
      var prev := FirstOn(items[..|items| - 1], dateOf, d);
      if prev.Some? then prev
      else if dateOf(items[|items| - 1].time) == Some(d) then Some(items[|items| - 1])
      else None
  }

  /** The products of all entries of day `d`, in entry order. */
  function ProductsOn(items: seq<DesignEntry>, dateOf: string -> Option<string>, d: string): seq<Json>
  {
    if items == [] then []
    else
      var prev := ProductsOn(items[..|items| - 1], dateOf, d);
      if dateOf(items[|items| - 1].time) == Some(d) then prev + items[|items| - 1].products else prev
  }

  lemma {:induction false} NoFirstNoProducts(items: seq<DesignEntry>, dateOf: string -> Option<string>, d: string)
    requires FirstOn(items, dateOf, d).None?
    ensures ProductsOn(items, dateOf, d) == []
  {
    if items != [] {
      NoFirstNoProducts(items[..|items| - 1], dateOf, d);
    }
  }

  predicate AllDated(items: seq<DesignEntry>, dateOf: string -> Option<string>)
  {
    forall k :: 0 <= k < |items| ==> dateOf(items[k].time).Some?
  }

  /**
   * The grouping fails exactly when some entry's time does not parse;
   * otherwise each day with an entry is kept once, as its first entry
   * carrying the products of all the day's entries in order.
   */
  lemma {:induction false} GroupFacts(items: seq<DesignEntry>, dateOf: string -> Option<string>)
    ensures Group(items, dateOf).Some? <==> AllDated(items, dateOf)
    ensures Group(items, dateOf).Some? ==> forall d ::
      && (d in Group(items, dateOf).value.byDate <==> FirstOn(items, dateOf, d).Some?)
      && (d in Group(items, dateOf).value.byDate ==>
            Group(items, dateOf).value.byDate[d] == FirstOn(items, dateOf, d).value.(products := ProductsOn(items, dateOf, d)))
  {
    if items != [] {
      var init := items[..|items| - 1];
      var item := items[|items| - 1];
      GroupFacts(init, dateOf);
      assert forall k :: 0 <= k < |init| ==> init[k] == items[k];
      if Group(items, dateOf).Some? {
        var g := Group(init, dateOf).value;
        var d := dateOf(item.time).value;
        forall e
          ensures e in Group(items, dateOf).value.byDate <==> FirstOn(items, dateOf, e).Some?
          ensures e in Group(items, dateOf).value.byDate ==>
            Group(items, dateOf).value.byDate[e] == FirstOn(items, dateOf, e).value.(products := ProductsOn(items, dateOf, e))
        {
          assert Group(items, dateOf).value == if d in g.byDate
            then Grouping(g.byDate[d := g.byDate[d].(products := g.byDate[d].products + item.products)], g.dates)
            else Grouping(g.byDate[d := item], g.dates + [d]);
          if e in g.byDate {
            assert g.byDate[e] == FirstOn(init, dateOf, e).value.(products := ProductsOn(init, dateOf, e));
          } else {
            NoFirstNoProducts(init, dateOf, e);
          }
          assert FirstOn(items, dateOf, e) == if FirstOn(init, dateOf, e).Some? then FirstOn(init, dateOf, e)
            else if e == d then Some(item) else None;
          assert ProductsOn(items, dateOf, e) == ProductsOn(init, dateOf, e) + (if e == d then item.products else []);
        }
      }
    }
  }

  /** `lst[:n]` with Python's meaning for a negative `n`. */
  function SliceTo<T>(s: seq<T>, n: int): (r: seq<T>)
    ensures |r| == if n >= 0 then (if n < |s| then n else |s|) else (if |s| + n > 0 then |s| + n else 0)
    ensures r == s[..|r|]
  {
    if n >= 0 then (if n < |s| then s[..n] else s)
    else if |s| + n > 0 then s[..|s| + n]
    else []
  }

  function EntriesOf(byDate: map<string, DesignEntry>, ds: seq<string>): (r: seq<DesignEntry>)
    requires forall d :: d in ds ==> d in byDate
    ensures |r| == |ds| && forall k :: 0 <= k < |ds| ==> r[k] == byDate[ds[k]]
  {
    if ds == [] then [] else [byDate[ds[0]]] + EntriesOf(byDate, ds[1..])
  }

  /** The listed days: the grouping's days newest first, cut to `days`. */
  function ListedDates(dates: seq<string>, days: int): (r: seq<string>)
    ensures forall d :: d in r ==> d in dates
  {
    var sorted := Text.SortDescending(dates);
    assert forall d :: d in sorted ==> d in dates by {
      forall d | d in sorted ensures d in dates {
        assert d in multiset(sorted);
      }
    }
    var r := SliceTo(sorted, days);
    assert forall d :: d in r ==> d in sorted;
    r
  }

  function ListingSpec(items: seq<DesignEntry>, dateOf: string -> Option<string>, days: int): Option<seq<DesignEntry>>
  {
    match Group(items, dateOf)
    case None => None
    case Some(g) => Some(EntriesOf(g.byDate, ListedDates(g.dates, days)))
  }

  /**
   * The listed days run strictly newest first, there are `days` of them (or
   * all when fewer exist; Python's slice for a negative `days`), and every
   * day left out is older than every day listed.
   */
  lemma ListedNewest(dates: seq<string>, days: int)
    requires Distinct(dates)
    ensures Text.StrictlyDescending(ListedDates(dates, days))
    ensures |ListedDates(dates, days)| == if days >= 0 then (if days < |dates| then days else |dates|) else (if |dates| + days > 0 then |dates| + days else 0)
    ensures forall d, e :: d in dates && d !in ListedDates(dates, days) && e in ListedDates(dates, days) ==> Text.Less(d, e)
  {
    var sorted := Text.SortDescending(dates);
    var listed := ListedDates(dates, days);
    Text.SortDescendingFacts(dates);
    forall d, e | d in dates && d !in listed && e in listed ensures Text.Less(d, e) {
      assert d in multiset(sorted);
      var i :| 0 <= i < |sorted| && sorted[i] == d;
      var j :| 0 <= j < |listed| && listed[j] == e;
      assert sorted[j] == e;
      assert d !in sorted[..|listed|];
    }
  }

  /** The `grouped_data` loop: an entry for a new day is kept, a later one adds its products to it. */
  method GroupDesigns(items: seq<DesignEntry>, dateOf: string -> Option<string>) returns (r: Option<Grouping>)
    ensures r == Group(items, dateOf)
  {
    var byDate: map<string, DesignEntry> := map[];
    var dates: seq<string> := [];
    for i := 0 to |items|
      invariant Group(items[..i], dateOf) == Some(Grouping(byDate, dates))
    {
      assert items[..i + 1][..i] == items[..i];
      var item := items[i];
      var date := dateOf(item.time);
      if date.None? {
        GroupFacts(items, dateOf);
        return None;
      }
      var d := date.value;
      if d !in byDate {
        byDate := byDate[d := item];
        dates := dates + [d];
      } else {
        var kept := byDate[d];
        byDate := byDate[d := kept.(products := kept.products + item.products)];
      }
    }
    assert items[..|items|] == items;
    r := Some(Grouping(byDate, dates));
  }

  /** `TemplateDesignLit.get` after the query: `None` is the failure of an unparsable `time`. */
  method TemplateDesignLit(items: seq<DesignEntry>, dateOf: string -> Option<string>, days: int) returns (r: Option<seq<DesignEntry>>)
    ensures r == ListingSpec(items, dateOf, days)
  {
    var grouped := GroupDesigns(items, dateOf);
    if grouped.None? {
      return None;
    }
    var listed := ListedDates(grouped.value.dates, days);
    var out: seq<DesignEntry> := [];
    for k := 0 to |listed|
      invariant out == EntriesOf(grouped.value.byDate, listed[..k])
    {
      EntriesOfSnoc(grouped.value.byDate, listed[..k], listed[k]);
      assert listed[..k + 1] == listed[..k] + [listed[k]];
      out := out + [grouped.value.byDate[listed[k]]];
    }
    assert listed[..|listed|] == listed;
    r := Some(out);
  }

  lemma {:induction false} EntriesOfSnoc(byDate: map<string, DesignEntry>, ds: seq<string>, d: string)
    requires forall e :: e in ds ==> e in byDate
    requires d in byDate
    ensures EntriesOf(byDate, ds + [d]) == EntriesOf(byDate, ds) + [byDate[d]]
  {
    var a := EntriesOf(byDate, ds + [d]);
    var b := EntriesOf(byDate, ds) + [byDate[d]];
    assert |a| == |b|;
    forall k | 0 <= k < |a| ensures a[k] == b[k] {
      assert (ds + [d])[k] == if k < |ds| then ds[k] else d;
    }
  }
}
