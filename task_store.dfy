/**
 * The `combine_label_tasks` table as the pipeline sees it: rows kept in the
 * model's default ordering (newest `created_at` first), created with the next
 * auto-increment id and updated in place by `save()`. `history` records every
 * row written, in order, so that callers can state what they wrote and when.
 */
module TaskStore {
  import opened Wrappers
  import opened Models

  /** `objects.get(id=id)` on `rows`, or `None` for `DoesNotExist`. */
  function Find(rows: seq<CombineLabelTask>, id: nat): (r: Option<CombineLabelTask>)
    ensures r.Some? ==> r.value in rows && r.value.id == id
    ensures r.None? ==> forall t :: t in rows ==> t.id != id
  {
    if rows == [] then None
    else if rows[0].id == id then Some(rows[0])
    else Find(rows[1..], id)
  }

  /** `rows` with the row keyed `t.id` replaced by `t`, in place. */
  function Replace(rows: seq<CombineLabelTask>, t: CombineLabelTask): (r: seq<CombineLabelTask>)
    ensures |r| == |rows|
    ensures forall i :: 0 <= i < |rows| ==> r[i] == (if rows[i].id == t.id then t else rows[i])
  {
    if rows == [] then []
    else [if rows[0].id == t.id then t else rows[0]] + Replace(rows[1..], t)
  }

  predicate DistinctIds(rows: seq<CombineLabelTask>)
  {
    forall i, j :: 0 <= i < j < |rows| ==> rows[i].id != rows[j].id
  }

  /** `filter(status='PENDING').exclude(id__in=claimed)`, in the table's ordering. */
  function PendingIds(rows: seq<CombineLabelTask>, claimed: set<nat>): (r: seq<nat>)
    ensures |r| <= |rows|
    ensures forall id :: id in r <==> exists i :: 0 <= i < |rows| && rows[i].id == id && rows[i].status == Pending && id !in claimed
  {
    if rows == [] then []
    else
      var rest := PendingIds(rows[1..], claimed);
      assert forall i :: 0 < i < |rows| ==> rows[1..][i - 1] == rows[i];
      if rows[0].status == Pending && rows[0].id !in claimed then [rows[0].id] + rest else rest
  }

  /** `filter(user=user)`: the rows a user owns, in the table's ordering. */
  function OwnedBy(rows: seq<CombineLabelTask>, user: nat): (r: seq<CombineLabelTask>)
    ensures |r| <= |rows|
    ensures forall t :: t in r <==> t in rows && t.user == user
  {
    if rows == [] then []
    else
      var rest := OwnedBy(rows[1..], user);
      assert forall t :: t in rows <==> t == rows[0] || t in rows[1..];
      if rows[0].user == user then [rows[0]] + rest else rest
  }

  class Store {
    var rows: seq<CombineLabelTask>
    var nextId: nat
    ghost var history: seq<CombineLabelTask>

    ghost predicate Valid()
      reads this
    {
      DistinctIds(rows) && NewestFirst(rows) && nextId >= 1
      && (forall i :: 0 <= i < |rows| ==> rows[i].id < nextId)
    }

    /** An empty table; the auto-increment key starts at 1. */
    constructor ()
      ensures Valid() && rows == [] && nextId == 1 && history == []
    {
      rows := [];
      nextId := 1;
      history := [];
    }

    function Get(id: nat): Option<CombineLabelTask>
      reads this
    {
      Find(rows, id)
    }

    /**
     * `objects.create(user=user, urls=urls, total_urls=len(urls), status='PENDING')`
     * at time `now`. The clock does not run backwards, so the new row is the newest.
     */
    method Create(user: nat, urls: seq<string>, now: nat) returns (t: CombineLabelTask)
      requires Valid()
      requires forall r :: r in rows ==> r.createdAt <= now
      modifies this
      ensures Valid()
      ensures t == DefaultTask(old(nextId), user, now).(urls := urls, totalUrls := |urls|)
      ensures rows == [t] + old(rows) && nextId == old(nextId) + 1
      ensures history == old(history) + [t]
    {
      t := DefaultTask(nextId, user, now).(urls := urls, totalUrls := |urls|);
      rows := [t] + rows;
      nextId := nextId + 1;
      history := history + [t];
    }

    /** `save()` of a row loaded from this table: its stored copy is replaced. */
    method Save(t: CombineLabelTask)
      requires Valid()
      requires Get(t.id).Some? && Get(t.id).value.createdAt == t.createdAt
      modifies this`rows, this`history
      ensures Valid()
      ensures rows == Replace(old(rows), t)
      ensures Get(t.id) == Some(t)
      ensures forall id :: id != t.id ==> Get(id) == old(Get(id))
      ensures history == old(history) + [t]
    {
      var before := rows;
      FindReplace(before, t);
      rows := Replace(before, t);
      history := history + [t];
      assert forall i :: 0 <= i < |rows| ==> rows[i].id == before[i].id;
    }
  }

  /** With unique keys, the lookup finds the row at any position under that row's key. */
  lemma {:induction false} FindAt(rows: seq<CombineLabelTask>, i: nat)
    requires DistinctIds(rows) && i < |rows|
    ensures Find(rows, rows[i].id) == Some(rows[i])
  {
    if i > 0 {
      assert rows[0].id != rows[i].id;
      assert rows[1..][i - 1] == rows[i];
      FindAt(rows[1..], i - 1);
    }
  }

  /** Replacing a stored row keeps every position's key and creation time. */
  lemma ReplaceKeepsKeys(rows: seq<CombineLabelTask>, t: CombineLabelTask, k: nat)
    requires DistinctIds(rows) && k < |rows| && rows[k].id == t.id && rows[k].createdAt == t.createdAt
    ensures forall i :: 0 <= i < |rows| ==> Replace(rows, t)[i].id == rows[i].id
    ensures forall i :: 0 <= i < |rows| ==> Replace(rows, t)[i].createdAt == rows[i].createdAt
    ensures Replace(rows, t)[k] == t
  {
    var r := Replace(rows, t);
    forall i | 0 <= i < |rows| ensures r[i].createdAt == rows[i].createdAt {
      if rows[i].id == t.id {
        assert i == k;
      }
    }
  }

  /** A key no row carries is not found. */
  lemma FindMissing(rows: seq<CombineLabelTask>, id: nat)
    requires forall i :: 0 <= i < |rows| ==> rows[i].id != id
    ensures Find(rows, id) == None
  {
  }

  /**
   * Saving a stored row keeps the keys unique and the order, makes the row
   * readable under its key, and leaves every other key's row as it was.
   */
  lemma FindReplace(rows: seq<CombineLabelTask>, t: CombineLabelTask)
    requires DistinctIds(rows) && NewestFirst(rows)
    requires Find(rows, t.id).Some? && Find(rows, t.id).value.createdAt == t.createdAt
    ensures forall i :: 0 <= i < |rows| ==> Replace(rows, t)[i].id == rows[i].id
    ensures DistinctIds(Replace(rows, t)) && NewestFirst(Replace(rows, t))
    ensures Find(Replace(rows, t), t.id) == Some(t)
    ensures forall id :: id != t.id ==> Find(Replace(rows, t), id) == Find(rows, id)
  {
    var k := FindIndex(rows, t.id);
    ReplaceValid(rows, t, k);
    FindAt(Replace(rows, t), k);
    forall id | id != t.id ensures Find(Replace(rows, t), id) == Find(rows, id) {
      ReplaceOther(rows, t, k, id);
    }
  }

  /** Where the lookup found its row. */
  lemma {:induction false} FindIndex(rows: seq<CombineLabelTask>, id: nat) returns (k: nat)
    requires Find(rows, id).Some?
    ensures k < |rows| && rows[k] == Find(rows, id).value
  {
    if rows[0].id == id {
      k := 0;
    } else {
      var j := FindIndex(rows[1..], id);
      k := j + 1;
    }
  }

  lemma ReplaceValid(rows: seq<CombineLabelTask>, t: CombineLabelTask, k: nat)
    requires DistinctIds(rows) && NewestFirst(rows)
    requires k < |rows| && rows[k].id == t.id && rows[k].createdAt == t.createdAt
    ensures forall i :: 0 <= i < |rows| ==> Replace(rows, t)[i].id == rows[i].id
    ensures DistinctIds(Replace(rows, t)) && NewestFirst(Replace(rows, t))
    ensures Replace(rows, t)[k] == t
  {
    ReplaceKeepsKeys(rows, t, k);
  }

  lemma ReplaceOther(rows: seq<CombineLabelTask>, t: CombineLabelTask, k: nat, id: nat)
    requires DistinctIds(rows) && k < |rows| && rows[k].id == t.id && rows[k].createdAt == t.createdAt
    requires id != t.id
    ensures Find(Replace(rows, t), id) == Find(rows, id)
  {
    var r := Replace(rows, t);
    ReplaceKeepsKeys(rows, t, k);
    assert DistinctIds(r);
    if Find(rows, id).Some? {
      var j := FindIndex(rows, id);
      assert r[j] == rows[j];
      FindAt(r, j);
      FindAt(rows, j);
    } else {
      FindMissing(r, id);
    }
  }

  /** The pending query lists each id at most once. */
  lemma {:induction false} PendingDistinct(rows: seq<CombineLabelTask>, claimed: set<nat>)
    requires DistinctIds(rows)
    ensures forall i, j :: 0 <= i < j < |PendingIds(rows, claimed)| ==> PendingIds(rows, claimed)[i] != PendingIds(rows, claimed)[j]
  {
    if rows != [] {
      PendingDistinct(rows[1..], claimed);
      var rest := PendingIds(rows[1..], claimed);
      forall x | x in rest ensures x != rows[0].id {
        var m :| 0 <= m < |rows[1..]| && rows[1..][m].id == x && rows[1..][m].status == Pending && x !in claimed;
        assert rows[m + 1] == rows[1..][m];
      }
    }
  }
}
