/**
 * The statistics views. `StatisticsApi.get` tallies orders per UTC calendar
 * day: a status counter per day, and per day one entry per shop and one per
 * product, each list re-sorted by its `TOTAL` counter after every order.
 * `StatisticsFinanceApi` parses its payment-status filter and statement
 * window and guards each shop's statement fetch by its owner. Money sums are
 * floating point and are not part of this model; the calendar day of a
 * timestamp is an oracle.
 */
module FinanceStats {
  import opened Wrappers
  import Text

  const Total := "TOTAL"

  /** `d.get(k, 0)` on a counter dict. */
  function Get0(m: map<string, nat>, k: string): nat
  {
    if k in m then m[k] else 0
  }

  /** `d.setdefault(k, 0); d[k] += 1`. */
  function Bump(m: map<string, nat>, k: string): (r: map<string, nat>)
    ensures Get0(r, k) == Get0(m, k) + 1
    ensures forall j :: j != k ==> Get0(r, j) == Get0(m, j)
  {
    m[k := Get0(m, k) + 1]
  }

  /** The literal `{"TOTAL": 1, order_status: 1}` of a new entry. */
  function NewCounter(status: string): map<string, nat>
  {
    map[Total := 1][status := 1]
  }

  // ---------------------------------------------------------------- entries and their tallies

  /** A shop or product entry: its id, its labels (names, owner, image) and its status counters. */
  datatype Entry = Entry(id: string, labels: seq<string>, status: map<string, nat>)
  /** One thing counted into an entry list: an order for the shops, a line item for the products. */
  datatype Event = Event(id: string, labels: seq<string>, status: string)

  function TotalOf(e: Entry): nat
  {
    Get0(e.status, Total)
  }

  /** `next((p for p in entries if p["id"] == id), None)`, as a position. */
  function FindId(s: seq<Entry>, id: string): (r: Option<nat>)
    ensures r.Some? ==> r.value < |s| && s[r.value].id == id
    ensures r.None? ==> forall i :: 0 <= i < |s| ==> s[i].id != id
  {
    if s == [] then None
    else if s[0].id == id then Some(0)
    else match FindId(s[1..], id)
      case None => None
      case Some(k) => Some(k + 1)
  }

  /** Counting one event: a new id is appended with its first counters, a known one has `TOTAL` and its status bumped. */
  function Tally(s: seq<Entry>, ev: Event): seq<Entry>
  {
    match FindId(s, ev.id)
    case None => s + [Entry(ev.id, ev.labels, NewCounter(ev.status))]
    case Some(i) => s[i := s[i].(status := Bump(Bump(s[i].status, Total), ev.status))]
  }

  function TallyAll(s: seq<Entry>, evs: seq<Event>): seq<Entry>
  {
    if evs == [] then s else Tally(TallyAll(s, evs[..|evs| - 1]), evs[|evs| - 1])
  }

  // ---------------------------------------------------------------- sorted(..., key=TOTAL, reverse=True)

  /** Insert `x` before the first entry whose total is not larger, which keeps equal totals in their order. */
  function Insert(x: Entry, s: seq<Entry>): (r: seq<Entry>)
    ensures multiset(r) == multiset(s) + multiset{x}
  {
    if s == [] || TotalOf(x) >= TotalOf(s[0]) then [x] + s
    else
      assert s == [s[0]] + s[1..];
      [s[0]] + Insert(x, s[1..])
  }

  function SortByTotal(s: seq<Entry>): (r: seq<Entry>)
    ensures multiset(r) == multiset(s)
  {
    if s == [] then []
    else
      assert s == [s[0]] + s[1..];
      Insert(s[0], SortByTotal(s[1..]))
  }

  predicate SortedDesc(s: seq<Entry>)
  {
    forall i, j :: 0 <= i < j < |s| ==> TotalOf(s[i]) >= TotalOf(s[j])
  }

  predicate DistinctIds(s: seq<Entry>)
  {
    forall i, j :: 0 <= i < j < |s| ==> s[i].id != s[j].id
  }

  lemma {:induction false} InsertSorted(x: Entry, s: seq<Entry>)
    requires SortedDesc(s)
    ensures SortedDesc(Insert(x, s))
  {
    if s != [] && TotalOf(x) < TotalOf(s[0]) {
      var t := s[1..];
      assert SortedDesc(t) by {
        forall i, j | 0 <= i < j < |t| ensures TotalOf(t[i]) >= TotalOf(t[j]) {
          assert t[i] == s[i + 1] && t[j] == s[j + 1];
        }
      }
      InsertSorted(x, t);
      assert forall j :: 0 <= j < |t| ==> TotalOf(t[j]) <= TotalOf(s[0]) by {
        forall j | 0 <= j < |t| ensures TotalOf(t[j]) <= TotalOf(s[0]) {
          assert t[j] == s[j + 1];
        }
      }
      InsertBelow(x, t, TotalOf(s[0]));
      SortedCons(s[0], Insert(x, t));
    } else {
      SortedCons(x, s);
    }
  }

  /** Inserting below a bound keeps every total below it. */
  lemma {:induction false} InsertBelow(x: Entry, t: seq<Entry>, b: int)
    requires TotalOf(x) <= b && forall j :: 0 <= j < |t| ==> TotalOf(t[j]) <= b
    ensures forall j :: 0 <= j < |Insert(x, t)| ==> TotalOf(Insert(x, t)[j]) <= b
  {
    if t != [] && TotalOf(x) < TotalOf(t[0]) {
      var u := t[1..];
      assert forall j :: 0 <= j < |u| ==> TotalOf(u[j]) <= b by {
        forall j | 0 <= j < |u| ensures TotalOf(u[j]) <= b {
          assert u[j] == t[j + 1];
        }
      }
      InsertBelow(x, u, b);
      var r := Insert(x, t);
      assert r == [t[0]] + Insert(x, u);
      forall j | 0 <= j < |r| ensures TotalOf(r[j]) <= b {
        if j > 0 {
          assert r[j] == Insert(x, u)[j - 1];
        }
      }
    }
  }

  /** A sorted list stays sorted behind an entry at least as large as all of it. */
  lemma SortedCons(a: Entry, t: seq<Entry>)
    requires SortedDesc(t) && forall j :: 0 <= j < |t| ==> TotalOf(t[j]) <= TotalOf(a)
    ensures SortedDesc([a] + t)
  {
    var r := [a] + t;
    forall i, j | 0 <= i < j < |r| ensures TotalOf(r[i]) >= TotalOf(r[j]) {
      assert r[j] == t[j - 1];
      if i > 0 {
        assert r[i] == t[i - 1];
      }
    }
  }

  /** An entry's id occurs in the list. */
  predicate HasId(s: seq<Entry>, id: string)
  {
    exists i :: 0 <= i < |s| && s[i].id == id
  }

  lemma {:induction false} InsertDistinct(x: Entry, s: seq<Entry>)
    requires DistinctIds(s) && !HasId(s, x.id)
    ensures DistinctIds(Insert(x, s))
  {
    if s != [] && TotalOf(x) < TotalOf(s[0]) {
      assert !HasId(s[1..], x.id) by {
        forall i | 0 <= i < |s[1..]| ensures s[1..][i].id != x.id {
          assert s[1..][i] == s[i + 1];
        }
      }
      InsertDistinct(x, s[1..]);
      var r := Insert(x, s);
      forall j | 1 <= j < |r| ensures r[0].id != r[j].id {
        assert r[j] in multiset(Insert(x, s[1..]));
        if r[j] != x {
          var k :| 0 <= k < |s[1..]| && s[1..][k] == r[j];
          assert s[k + 1] == r[j];
        }
      }
    } else if s != [] {
      var r := Insert(x, s);
      forall i, j | 0 <= i < j < |r| ensures r[i].id != r[j].id {
        if i > 0 {
          assert r[i] == s[i - 1] && r[j] == s[j - 1];
        } else {
          assert r[j] == s[j - 1];
        }
      }
    }
  }

  /** The sort keeps every entry, once each, and orders them by descending `TOTAL`. */
  lemma {:induction false} SortByTotalFacts(s: seq<Entry>)
    requires DistinctIds(s)
    ensures SortedDesc(SortByTotal(s)) && DistinctIds(SortByTotal(s))
  {
    if s != [] {
      var t := s[1..];
      DistinctTail(s);
      SortByTotalFacts(t);
      InsertSorted(s[0], SortByTotal(t));
      HeadNotInSorted(s);
      InsertDistinct(s[0], SortByTotal(t));
    }
  }

  lemma DistinctTail(s: seq<Entry>)
    requires s != [] && DistinctIds(s)
    ensures DistinctIds(s[1..])
  {
    var t := s[1..];
    forall i, j | 0 <= i < j < |t| ensures t[i].id != t[j].id {
      assert t[i] == s[i + 1] && t[j] == s[j + 1];
    }
  }

  /** With unique ids, the first entry's id is not among the sorted rest. */
  lemma HeadNotInSorted(s: seq<Entry>)
    requires s != [] && DistinctIds(s)
    ensures !HasId(SortByTotal(s[1..]), s[0].id)
  {
    var t := s[1..];
    var r := SortByTotal(t);
    forall i | 0 <= i < |r| ensures r[i].id != s[0].id {
      assert r[i] in multiset(t);
      var k :| 0 <= k < |t| && t[k] == r[i];
      assert t[k] == s[k + 1];
    }
  }

  // ---------------------------------------------------------------- what an entry list counts

  function CountId(evs: seq<Event>, id: string): nat
  {
    if evs == [] then 0
    else CountId(evs[..|evs| - 1], id) + (if evs[|evs| - 1].id == id then 1 else 0)
  }

  function CountIdStatus(evs: seq<Event>, id: string, st: string): nat
  {
    if evs == [] then 0
    else CountIdStatus(evs[..|evs| - 1], id, st) + (if evs[|evs| - 1].id == id && evs[|evs| - 1].status == st then 1 else 0)
  }

  /** An entry's counters: `TOTAL` is the number of its events, every other key the number of its events with that status. */
  ghost predicate Counts(e: Entry, evs: seq<Event>)
  {
    && TotalOf(e) == CountId(evs, e.id)
    && TotalOf(e) > 0
    && forall st :: st != Total ==> Get0(e.status, st) == CountIdStatus(evs, e.id, st)
  }

  /** An entry list that counts `evs`: one entry per id met, each with the right counters. */
  ghost predicate Tallies(s: seq<Entry>, evs: seq<Event>)
  {
    && DistinctIds(s)
    && (forall i :: 0 <= i < |s| ==> Counts(s[i], evs))
    && (forall k :: 0 <= k < |evs| ==> HasId(s, evs[k].id))
  }

  /** No event carries the status `TOTAL`, which would be counted twice into `TOTAL`. */
  predicate NoTotalStatus(evs: seq<Event>)
  {
    forall k :: 0 <= k < |evs| ==> evs[k].status != Total
  }

  lemma CountsExtend(e: Entry, evs: seq<Event>, ev: Event)
    requires Counts(e, evs) && ev.id != e.id
    ensures Counts(e, evs + [ev])
  {
    assert (evs + [ev])[..|evs|] == evs;
  }

  lemma {:induction false} CountZero(evs: seq<Event>, id: string, st: string)
    requires forall k :: 0 <= k < |evs| ==> evs[k].id != id
    ensures CountId(evs, id) == 0 && CountIdStatus(evs, id, st) == 0
  {
    if evs != [] {
      CountZero(evs[..|evs| - 1], id, st);
    }
  }

  lemma TallyStep(s: seq<Entry>, evs: seq<Event>, ev: Event)
    requires Tallies(s, evs) && ev.status != Total
    ensures Tallies(Tally(s, ev), evs + [ev])
  {
    match FindId(s, ev.id)
    case None => TallyNew(s, evs, ev);
    case Some(i) => TallyKnown(s, evs, ev, i);
  }

  /** An event of an id not met yet appends an entry that counts it once. */
  lemma TallyNew(s: seq<Entry>, evs: seq<Event>, ev: Event)
    requires Tallies(s, evs) && ev.status != Total && FindId(s, ev.id).None?
    ensures Tallies(Tally(s, ev), evs + [ev])
  {
    var evs' := evs + [ev];
    var x := Entry(ev.id, ev.labels, NewCounter(ev.status));
    var r := s + [x];
    NotSeen(s, evs, ev.id);
    NewEntryCounts(evs, ev);
    forall i | 0 <= i < |r| ensures Counts(r[i], evs') {
      if i < |s| {
        assert r[i] == s[i];
        CountsExtend(s[i], evs, ev);
      }
    }
    AppendHasIds(s, x, evs, ev);
    assert Tally(s, ev) == r;
  }

  lemma NewEntryCounts(evs: seq<Event>, ev: Event)
    requires ev.status != Total && forall k :: 0 <= k < |evs| ==> evs[k].id != ev.id
    ensures Counts(Entry(ev.id, ev.labels, NewCounter(ev.status)), evs + [ev])
  {
    var evs' := evs + [ev];
    assert evs'[..|evs|] == evs;
    var x := Entry(ev.id, ev.labels, NewCounter(ev.status));
    forall st | st != Total ensures Get0(x.status, st) == CountIdStatus(evs', ev.id, st) {
      CountZero(evs, ev.id, st);
    }
    CountZero(evs, ev.id, Total);
  }

  /** An id no entry carries belongs to none of the events the entries count. */
  lemma NotSeen(s: seq<Entry>, evs: seq<Event>, id: string)
    requires forall k :: 0 <= k < |evs| ==> HasId(s, evs[k].id)
    requires forall i :: 0 <= i < |s| ==> s[i].id != id
    ensures forall k :: 0 <= k < |evs| ==> evs[k].id != id
  {
    forall k | 0 <= k < |evs| ensures evs[k].id != id {
      assert HasId(s, evs[k].id);
    }
  }

  lemma AppendHasIds(s: seq<Entry>, x: Entry, evs: seq<Event>, ev: Event)
    requires (forall k :: 0 <= k < |evs| ==> HasId(s, evs[k].id)) && x.id == ev.id
    ensures forall k :: 0 <= k < |evs| + 1 ==> HasId(s + [x], (evs + [ev])[k].id)
  {
    var r, evs' := s + [x], evs + [ev];
    forall k | 0 <= k < |evs'| ensures HasId(r, evs'[k].id) {
      if k < |evs| {
        var i :| 0 <= i < |s| && s[i].id == evs[k].id;
        assert r[i] == s[i];
      } else {
        assert r[|s|].id == ev.id;
      }
    }
  }

  /** An event of a known id bumps that entry's `TOTAL` and status counters. */
  lemma TallyKnown(s: seq<Entry>, evs: seq<Event>, ev: Event, i: nat)
    requires Tallies(s, evs) && ev.status != Total && FindId(s, ev.id) == Some(i)
    ensures Tallies(Tally(s, ev), evs + [ev])
  {
    var evs' := evs + [ev];
    assert evs'[..|evs|] == evs;
    var r := Tally(s, ev);
    forall j | 0 <= j < |r| ensures Counts(r[j], evs') {
      if j != i {
        assert r[j] == s[j];
        CountsExtend(s[j], evs, ev);
      }
    }
    forall k | 0 <= k < |evs'| ensures HasId(r, evs'[k].id) {
      if k < |evs| {
        var j :| 0 <= j < |s| && s[j].id == evs[k].id;
        assert r[j].id == s[j].id;
      } else {
        assert r[i].id == ev.id;
      }
    }
  }

  lemma {:induction false} TallyAllStep(s: seq<Entry>, evs: seq<Event>, more: seq<Event>)
    requires Tallies(s, evs) && NoTotalStatus(more)
    ensures Tallies(TallyAll(s, more), evs + more)
  {
    if more == [] {
      assert evs + more == evs;
    } else {
      var init := more[..|more| - 1];
      TallyAllStep(s, evs, init);
      assert evs + more == (evs + init) + [more[|more| - 1]];
      TallyStep(TallyAll(s, init), evs + init, more[|more| - 1]);
    }
  }

  /** Re-sorting keeps what an entry list counts. */
  lemma SortKeepsTallies(s: seq<Entry>, evs: seq<Event>)
    requires Tallies(s, evs)
    ensures Tallies(SortByTotal(s), evs) && SortedDesc(SortByTotal(s))
  {
    var r := SortByTotal(s);
    SortByTotalFacts(s);
    forall i | 0 <= i < |r| ensures Counts(r[i], evs) {
      assert r[i] in multiset(s);
      var j :| 0 <= j < |s| && s[j] == r[i];
    }
    forall k | 0 <= k < |evs| ensures HasId(r, evs[k].id) {
      var j :| 0 <= j < |s| && s[j].id == evs[k].id;
      assert s[j] in multiset(r);
      var i :| 0 <= i < |r| && r[i] == s[j];
    }
  }

  // ---------------------------------------------------------------- StatisticsApi.get

  datatype LineItem = LineItem(productId: string, productName: string, skuImage: string)
  /** The fields of an order the statistics read; names and ids already passed through `str()`. */
  datatype StatOrder = StatOrder(createTime: int, status: string, shopId: string, shopName: string,
                                 ownerId: string, ownerName: string, items: seq<LineItem>)

  datatype Day = Day(status: map<string, nat>, shops: seq<Entry>, products: seq<Entry>)

  function ShopEvent(o: StatOrder): Event
  {
    Event(o.shopId, [o.shopName, o.ownerId, o.ownerName], o.status)
  }

  function ItemEvents(o: StatOrder): (r: seq<Event>)
    ensures |r| == |o.items|
    ensures forall k :: 0 <= k < |r| ==> r[k].status == o.status && r[k].id == o.items[k].productId
  {
    seq(|o.items|, k requires 0 <= k < |o.items| => Event(o.items[k].productId, [o.items[k].productName, o.items[k].skuImage], o.status))
  }

  /** One order counted into its day: the status counters, the products of its line items, then its shop. */
  function AddToDay(d: Day, o: StatOrder): Day
  {
    Day(Bump(Bump(d.status, Total), o.status),
        SortByTotal(Tally(d.shops, ShopEvent(o))),
        SortByTotal(TallyAll(d.products, ItemEvents(o))))
  }

  const EmptyDay := Day(map[], [], [])

  /** The `stats` dict after the orders, keyed by `dayOf(create_time)`, the `%Y-%m-%d` UTC date. */
  function StatsSpec(orders: seq<StatOrder>, dayOf: int -> string): map<string, Day>
  {
    if orders == [] then map[]
    else
      Record(StatsSpec(orders[..|orders| - 1], dayOf), orders[|orders| - 1], dayOf)
  }

  /** `stats.setdefault(date, ...)` followed by the order's counting. */
  function Record(stats: map<string, Day>, o: StatOrder, dayOf: int -> string): map<string, Day>
  {
    var d := dayOf(o.createTime);
    stats[d := AddToDay(DayIn(stats, d), o)]
  }

  /** A day's statistics, empty when the day has none yet. */
  function DayIn(stats: map<string, Day>, d: string): Day
  {
    if d in stats then stats[d] else EmptyDay
  }

  lemma RecordAt(stats: map<string, Day>, o: StatOrder, dayOf: int -> string, d: string)
    ensures d in Record(stats, o, dayOf) <==> d in stats || d == dayOf(o.createTime)
    ensures DayIn(Record(stats, o, dayOf), d)
         == if d == dayOf(o.createTime) then AddToDay(DayIn(stats, d), o) else DayIn(stats, d)
  {
  }

  /** One order counted into its day's statistics. */
  method CountOrder(day: Day, o: StatOrder) returns (r: Day)
    ensures r == AddToDay(day, o)
  {
    var status := Bump(Bump(day.status, Total), o.status);
    var evs := ItemEvents(o);
    var products := day.products;
    for j := 0 to |evs|
      invariant products == TallyAll(day.products, evs[..j])
    {
      assert evs[..j + 1][..j] == evs[..j];
      products := Tally(products, evs[j]);
    }
    assert evs[..|evs|] == evs;
    var shops := Tally(day.shops, ShopEvent(o));
    r := Day(status, SortByTotal(shops), SortByTotal(products));
  }

  /** The loop of `StatisticsApi.get` over the orders. */
  method TallyOrders(orders: seq<StatOrder>, dayOf: int -> string) returns (stats: map<string, Day>, dates: seq<string>)
    ensures stats == StatsSpec(orders, dayOf)
    ensures dates == DatesOf(orders, dayOf)
  {
    stats := map[];
    dates := [];
    for k := 0 to |orders|
      invariant stats == StatsSpec(orders[..k], dayOf)
      invariant dates == DatesOf(orders[..k], dayOf)
    {
      assert orders[..k + 1][..k] == orders[..k];
      var o := orders[k];
      var d := dayOf(o.createTime);
      if d !in dates {
        dates := dates + [d];
      }
      var day := DayIn(stats, d);
      day := CountOrder(day, o);
      stats := stats[d := day];
    }
    assert orders[..|orders|] == orders;
  }

  /** The orders of one day, in order. */
  function OnDay(orders: seq<StatOrder>, dayOf: int -> string, d: string): seq<StatOrder>
  {
    if orders == [] then []
    else
      var prev := OnDay(orders[..|orders| - 1], dayOf, d);
      var o := orders[|orders| - 1];
      if dayOf(o.createTime) == d then prev + [o] else prev
  }

  function CountStatus(orders: seq<StatOrder>, st: string): nat
  {
    if orders == [] then 0
    else CountStatus(orders[..|orders| - 1], st) + (if orders[|orders| - 1].status == st then 1 else 0)
  }

  function ShopEvents(orders: seq<StatOrder>): seq<Event>
  {
    if orders == [] then [] else ShopEvents(orders[..|orders| - 1]) + [ShopEvent(orders[|orders| - 1])]
  }

  function AllItemEvents(orders: seq<StatOrder>): seq<Event>
  {
    if orders == [] then [] else AllItemEvents(orders[..|orders| - 1]) + ItemEvents(orders[|orders| - 1])
  }

  predicate NoTotalOrders(orders: seq<StatOrder>)
  {
    forall k :: 0 <= k < |orders| ==> orders[k].status != Total
  }

  /** What a day's statistics say about the orders of that day. */
  ghost predicate DayCounts(day: Day, os: seq<StatOrder>)
  {
    && Get0(day.status, Total) == |os|
    && (forall st :: st != Total ==> Get0(day.status, st) == CountStatus(os, st))
    && Tallies(day.shops, ShopEvents(os)) && SortedDesc(day.shops)
    && Tallies(day.products, AllItemEvents(os)) && SortedDesc(day.products)
  }

  lemma ShopEventsSnoc(os: seq<StatOrder>, o: StatOrder)
    ensures ShopEvents(os + [o]) == ShopEvents(os) + [ShopEvent(o)]
    ensures AllItemEvents(os + [o]) == AllItemEvents(os) + ItemEvents(o)
    ensures |os + [o]| == |os| + 1
    ensures forall st :: CountStatus(os + [o], st) == CountStatus(os, st) + (if o.status == st then 1 else 0)
  {
    assert (os + [o])[..|os|] == os;
  }

  lemma NoTotalItems(o: StatOrder)
    requires o.status != Total
    ensures NoTotalStatus(ItemEvents(o))
  {
  }

  lemma ShopsStep(shops: seq<Entry>, os: seq<StatOrder>, o: StatOrder)
    requires Tallies(shops, ShopEvents(os)) && o.status != Total
    ensures Tallies(SortByTotal(Tally(shops, ShopEvent(o))), ShopEvents(os + [o]))
    ensures SortedDesc(SortByTotal(Tally(shops, ShopEvent(o))))
  {
    ShopEventsSnoc(os, o);
    TallyStep(shops, ShopEvents(os), ShopEvent(o));
    SortKeepsTallies(Tally(shops, ShopEvent(o)), ShopEvents(os + [o]));
  }

  lemma ProductsStep(products: seq<Entry>, os: seq<StatOrder>, o: StatOrder)
    requires Tallies(products, AllItemEvents(os)) && o.status != Total
    ensures Tallies(SortByTotal(TallyAll(products, ItemEvents(o))), AllItemEvents(os + [o]))
    ensures SortedDesc(SortByTotal(TallyAll(products, ItemEvents(o))))
  {
    ShopEventsSnoc(os, o);
    NoTotalItems(o);
    TallyAllStep(products, AllItemEvents(os), ItemEvents(o));
    SortKeepsTallies(TallyAll(products, ItemEvents(o)), AllItemEvents(os + [o]));
  }

  lemma StatusStep(status: map<string, nat>, os: seq<StatOrder>, o: StatOrder)
    requires Get0(status, Total) == |os| && o.status != Total
    requires forall st :: st != Total ==> Get0(status, st) == CountStatus(os, st)
    ensures Get0(Bump(Bump(status, Total), o.status), Total) == |os + [o]|
    ensures forall st :: st != Total ==> Get0(Bump(Bump(status, Total), o.status), st) == CountStatus(os + [o], st)
  {
    ShopEventsSnoc(os, o);
  }

  lemma DayStep(day: Day, os: seq<StatOrder>, o: StatOrder)
    requires DayCounts(day, os) && o.status != Total
    ensures DayCounts(AddToDay(day, o), os + [o])
  {
    ShopsStep(day.shops, os, o);
    ProductsStep(day.products, os, o);
    StatusStep(day.status, os, o);
    var r := AddToDay(day, o);
    assert r.status == Bump(Bump(day.status, Total), o.status);
    assert r.shops == SortByTotal(Tally(day.shops, ShopEvent(o)));
    assert r.products == SortByTotal(TallyAll(day.products, ItemEvents(o)));
  }

  /**
   * For every day, with no order whose status is literally `TOTAL`: the
   * day's `TOTAL` is its number of orders and each status counter its number
   * of orders with that status, so `TOTAL` is the sum of the status
   * counters; there is one shop entry per shop and one product entry per
   * product id, each counting its orders or line items, and both lists are
   * sorted by descending `TOTAL`. A day has an entry exactly when it has an
   * order.
   */
  lemma {:induction false} StatsCount(orders: seq<StatOrder>, dayOf: int -> string, d: string)
    requires NoTotalOrders(orders)
    ensures d in StatsSpec(orders, dayOf) <==> OnDay(orders, dayOf, d) != []
    ensures DayCounts(DayIn(StatsSpec(orders, dayOf), d), OnDay(orders, dayOf, d))
  {
    if orders == [] {
      assert DayCounts(EmptyDay, []) by {
        forall st | st != Total ensures Get0(EmptyDay.status, st) == CountStatus([], st) { }
      }
    } else {
      var init := orders[..|orders| - 1];
      var o := orders[|orders| - 1];
      assert NoTotalOrders(init) by {
        forall k | 0 <= k < |init| ensures init[k].status != Total {
          assert init[k] == orders[k];
        }
      }
      StatsCount(init, dayOf, d);
      RecordAt(StatsSpec(init, dayOf), o, dayOf, d);
      if dayOf(o.createTime) == d {
        DayStep(DayIn(StatsSpec(init, dayOf), d), OnDay(init, dayOf, d), o);
      }
    }
  }

  // ---------------------------------------------------------------- TOTAL is the sum of the status counters

  /** The sum of a counter dict's values over the keys `sts`. */
  function StatusSum(m: map<string, nat>, sts: seq<string>): nat
  {
    if sts == [] then 0 else StatusSum(m, sts[..|sts| - 1]) + Get0(m, sts[|sts| - 1])
  }

  function CountSum(os: seq<StatOrder>, sts: seq<string>): nat
  {
    if sts == [] then 0 else CountSum(os, sts[..|sts| - 1]) + CountStatus(os, sts[|sts| - 1])
  }

  function Occurrences(sts: seq<string>, x: string): nat
  {
    if sts == [] then 0 else Occurrences(sts[..|sts| - 1], x) + (if sts[|sts| - 1] == x then 1 else 0)
  }

  predicate DistinctStrings(sts: seq<string>)
  {
    forall i, j :: 0 <= i < j < |sts| ==> sts[i] != sts[j]
  }

  lemma {:induction false} OccurrencesOnce(sts: seq<string>, x: string)
    requires DistinctStrings(sts) && x in sts
    ensures Occurrences(sts, x) == 1
  {
    var init := sts[..|sts| - 1];
    assert DistinctStrings(init) by {
      forall i, j | 0 <= i < j < |init| ensures init[i] != init[j] {
        assert init[i] == sts[i] && init[j] == sts[j];
      }
    }
    if sts[|sts| - 1] == x {
      OccurrencesNone(init, x);
    } else {
      assert sts == init + [sts[|sts| - 1]];
      OccurrencesOnce(init, x);
    }
  }

  lemma {:induction false} OccurrencesNone(sts: seq<string>, x: string)
    requires x !in sts
    ensures Occurrences(sts, x) == 0
  {
    if sts != [] {
      OccurrencesNone(sts[..|sts| - 1], x);
    }
  }

  lemma {:induction false} CountSumSnoc(os: seq<StatOrder>, o: StatOrder, sts: seq<string>)
    ensures CountSum(os + [o], sts) == CountSum(os, sts) + Occurrences(sts, o.status)
  {
    ShopEventsSnoc(os, o);
    if sts != [] {
      CountSumSnoc(os, o, sts[..|sts| - 1]);
    }
  }

  lemma {:induction false} CountSumIsLength(os: seq<StatOrder>, sts: seq<string>)
    requires DistinctStrings(sts)
    requires forall k :: 0 <= k < |os| ==> os[k].status in sts
    ensures CountSum(os, sts) == |os|
  {
    if os == [] {
      CountSumEmpty(sts);
    } else {
      var init := os[..|os| - 1];
      var o := os[|os| - 1];
      assert os == init + [o];
      CountSumIsLength(init, sts);
      CountSumSnoc(init, o, sts);
      OccurrencesOnce(sts, o.status);
    }
  }

  lemma {:induction false} CountSumEmpty(sts: seq<string>)
    ensures CountSum([], sts) == 0
  {
    if sts != [] {
      CountSumEmpty(sts[..|sts| - 1]);
    }
  }

  lemma {:induction false} StatusSumIsCountSum(m: map<string, nat>, os: seq<StatOrder>, sts: seq<string>)
    requires forall st :: st != Total ==> Get0(m, st) == CountStatus(os, st)
    requires Total !in sts
    ensures StatusSum(m, sts) == CountSum(os, sts)
  {
    if sts != [] {
      StatusSumIsCountSum(m, os, sts[..|sts| - 1]);
    }
  }

  /**
   * A day's `TOTAL` equals the sum of its status counters over any list of
   * distinct statuses that covers the day's orders.
   */
  lemma DayTotalIsSum(day: Day, os: seq<StatOrder>, sts: seq<string>)
    requires DayCounts(day, os)
    requires DistinctStrings(sts) && Total !in sts
    requires forall k :: 0 <= k < |os| ==> os[k].status in sts
    ensures Get0(day.status, Total) == StatusSum(day.status, sts)
  {
    StatusSumIsCountSum(day.status, os, sts);
    CountSumIsLength(os, sts);
  }

  // ---------------------------------------------------------------- the response's day order

  /** The dates of the `stats` dict, in insertion order: each day where it first occurs. */
  function DatesOf(orders: seq<StatOrder>, dayOf: int -> string): seq<string>
  {
    if orders == [] then []
    else
      var prev := DatesOf(orders[..|orders| - 1], dayOf);
      var d := dayOf(orders[|orders| - 1].createTime);
      if d in prev then prev else prev + [d]
  }

  lemma {:induction false} DatesOfKeys(orders: seq<StatOrder>, dayOf: int -> string)
    ensures forall i, j :: 0 <= i < j < |DatesOf(orders, dayOf)| ==> DatesOf(orders, dayOf)[i] != DatesOf(orders, dayOf)[j]
    ensures forall d :: d in DatesOf(orders, dayOf) <==> d in StatsSpec(orders, dayOf)
  {
    if orders != [] {
      DatesOfKeys(orders[..|orders| - 1], dayOf);
    }
  }

  /** `formatted_stats`: one `(date, day)` per date of `stats`, latest date first. */
  method FormatStats(stats: map<string, Day>, dates: seq<string>) returns (formatted: seq<(string, Day)>)
    requires forall d :: d in dates ==> d in stats
    ensures |formatted| == |dates|
    ensures forall k :: 0 <= k < |formatted| ==> formatted[k].0 in stats && formatted[k].1 == stats[formatted[k].0]
    ensures forall k :: 0 <= k < |formatted| ==> formatted[k].0 == Text.SortDescending(dates)[k]
  {
    var sorted := Text.SortDescending(dates);
    forall d | d in sorted ensures d in stats {
      assert d in multiset(dates);
    }
    formatted := [];
    for k := 0 to |sorted|
      invariant |formatted| == k
      invariant forall j :: 0 <= j < k ==> formatted[j] == (sorted[j], stats[sorted[j]])
    {
      formatted := formatted + [(sorted[k], stats[sorted[k]])];
    }
  }

  /**
   * `StatisticsApi.get` after the order query: the per-day statistics, one
   * row per day that has an order, latest day first.
   */
  method StatisticsGet(orders: seq<StatOrder>, dayOf: int -> string) returns (formatted: seq<(string, Day)>)
    ensures Text.StrictlyDescending(Firsts(formatted))
    ensures forall d :: d in Firsts(formatted) <==> d in StatsSpec(orders, dayOf)
    ensures forall k :: 0 <= k < |formatted| ==> formatted[k].0 in StatsSpec(orders, dayOf) && formatted[k].1 == StatsSpec(orders, dayOf)[formatted[k].0]
  {
    var stats, dates := TallyOrders(orders, dayOf);
    DatesOfKeys(orders, dayOf);
    formatted := FormatStats(stats, dates);
    Text.SortDescendingFacts(dates);
    assert Firsts(formatted) == Text.SortDescending(dates);
    forall d ensures d in Text.SortDescending(dates) <==> d in dates {
      assert d in multiset(Text.SortDescending(dates)) <==> d in multiset(dates);
    }
  }

  function Firsts(rows: seq<(string, Day)>): (r: seq<string>)
    ensures |r| == |rows| && forall k :: 0 <= k < |rows| ==> r[k] == rows[k].0
  {
    seq(|rows|, k requires 0 <= k < |rows| => rows[k].0)
  }

  // ---------------------------------------------------------------- StatisticsFinanceApi

  /** `tuple(set(value.split(",")))` when the `payment_status` `$in` value is non-empty, else the `PAID` code alone. */
  function PaymentStatuses(value: string, paid: string): (r: set<string>)
    ensures value == "" ==> r == {paid}
    ensures value != "" ==> forall s :: s in r <==> s in Text.Split(value, ',')
  {
    if value == "" then {paid}
    else set s | s in Text.Split(value, ',')
  }

  datatype StatementFilters = StatementFilters(timeGe: int, timeLt: int, sortField: string, pageSize: nat)

  const DayLength := 86400

  /**
   * The statement query: `statement_time` bounds passed through `int()`,
   * defaulting to the last day before `now`, sorted by statement time, 100
   * per page. A bound that is not an integer fails the request.
   */
  function StatementFiltersOf(ge: Option<string>, lt: Option<string>, now: int): (r: Option<StatementFilters>)
    ensures r.Some? <==> (ge.None? || Text.ParseInt(ge.value).Some?) && (lt.None? || Text.ParseInt(lt.value).Some?)
    ensures r.Some? && ge.None? ==> r.value.timeGe == now - DayLength
    ensures r.Some? && lt.None? ==> r.value.timeLt == now
    ensures r.Some? && ge.Some? ==> Some(r.value.timeGe) == Text.ParseInt(ge.value)
    ensures r.Some? && lt.Some? ==> Some(r.value.timeLt) == Text.ParseInt(lt.value)
    ensures r.Some? ==> r.value.sortField == "statement_time" && r.value.pageSize == 100
  {
    var g := if ge.None? then Some(now - DayLength) else Text.ParseInt(ge.value);
    var l := if lt.None? then Some(now) else Text.ParseInt(lt.value);
    if g.Some? && l.Some? then Some(StatementFilters(g.value, l.value, "statement_time", 100)) else None
  }

  /** What `fetch_statements` does for one shop. */
  datatype FetchDecision = Fetch | Skip | OwnerMissing

  /**
   * `owner` is the user of the shop's first `UserShop`, `None` when there is
   * none, and then `user.id` raises. A shop whose owner is not among the
   * visible users yields no statements.
   */
  function FetchStatementsGuard(owner: Option<nat>, userIds: set<nat>): (r: FetchDecision)
    ensures r == OwnerMissing <==> owner.None?
    ensures r == Skip <==> owner.Some? && owner.value !in userIds
    ensures r == Fetch <==> owner.Some? && owner.value in userIds
  {
    match owner
    case None => OwnerMissing
    case Some(id) => if id in userIds then Fetch else Skip
  }
}
