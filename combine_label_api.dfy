/**
 * `CombineLabelAPI`, the HTTP face of the label-combination pipeline: create
 * a task and hand it to the Celery queue, list and read one's own tasks, and
 * cancel a task that has not started. Every lookup is scoped to the
 * requesting user, so another user's task reads as missing.
 *
 * The Celery `delay` call is an oracle: `enqueueError` is the text of the
 * exception it raised, if it raised one.
 */
module CombineLabelApi {
  import opened Wrappers
  import opened Models
  import opened TaskStore
  import Text

  const Ok := 200
  const CreatedCode := 201
  const BadRequest := 400
  const NotFound := 404

  const NoUrlsMessage := "No URLs provided"
  const NotFoundMessage := "Task not found"
  const NotPendingMessage := "Can only cancel pending tasks"
  const CancelledMessage := "Task cancelled successfully"

  /** The status code, the `success` flag and the `message` of a response. */
  datatype Reply = Reply(code: int, success: bool, message: string)

  /** The `data` of a 201 response. */
  datatype CreatedData = CreatedData(taskId: nat, status: TaskStatus, totalUrls: int, createdAt: nat)

  /** The note left on a task whose enqueueing raised `e`. */
  function EnqueueNote(e: string): string
  {
    "Background task will be processed later. Error: " + e
  }

  function CreateMessage(n: nat): string
  {
    "Task created successfully. Processing " + Text.IntToString(n) + " URLs in background."
  }

  /** The row `create` leaves behind: a PENDING task, with a note when enqueueing failed. */
  function NewRow(id: nat, user: nat, urls: seq<string>, enqueueError: Option<string>, now: nat): CombineLabelTask
  {
    var t := DefaultTask(id, user, now).(urls := urls, totalUrls := |urls|);
    match enqueueError
    case None => t
    case Some(e) => t.(status := Pending, errorMessage := Some(EnqueueNote(e)))
  }

  /**
   * `create` on a table holding `rows`, whose next key is `nextId`: the
   * table afterwards, the reply and the reply's `data`.
   */
  function CreateSpec(rows: seq<CombineLabelTask>, nextId: nat, user: nat, urls: Option<seq<string>>,
                      enqueueError: Option<string>, now: nat)
    : (r: (seq<CombineLabelTask>, Reply, Option<CreatedData>))
    ensures r.2.Some? <==> urls.Some? && urls.value != []
    ensures r.1.success <==> r.2.Some?
    ensures r.2.None? ==> r.0 == rows && r.1 == Reply(BadRequest, false, NoUrlsMessage)
    ensures r.2.Some? ==>
      && r.1.code == CreatedCode && |r.0| == |rows| + 1 && r.0[1..] == rows
      && r.0[0].id == nextId == r.2.value.taskId && r.0[0].status == Pending == r.2.value.status
      && r.0[0].urls == urls.value && r.2.value.totalUrls == |urls.value|
  {
    if urls.None? || urls.value == [] then
      (rows, Reply(BadRequest, false, NoUrlsMessage), None)
    else
      var t := NewRow(nextId, user, urls.value, enqueueError, now);
      ([t] + rows, Reply(CreatedCode, true, CreateMessage(|urls.value|)),
       Some(CreatedData(t.id, t.status, t.totalUrls, t.createdAt)))
  }

  /** `objects.get(id=id, user=user)`: the first row with both, or `None` for `DoesNotExist`. */
  function FindOwned(rows: seq<CombineLabelTask>, id: nat, user: nat): (r: Option<CombineLabelTask>)
    ensures r.Some? ==> r.value in rows && r.value.id == id && r.value.user == user
    ensures r.None? <==> forall t :: t in rows ==> !(t.id == id && t.user == user)
  {
    if rows == [] then None
    else if rows[0].id == id && rows[0].user == user then Some(rows[0])
    else
      assert forall t :: t in rows <==> t == rows[0] || t in rows[1..];
      FindOwned(rows[1..], id, user)
  }

  /** The row a successful cancel saves. */
  function CancelledRow(t: CombineLabelTask, now: nat): CombineLabelTask
  {
    t.(status := Cancelled, completedAt := Some(now))
  }

  /** `cancel` by `user` of task `id` on a table holding `rows`: the table afterwards and the reply. */
  function CancelSpec(rows: seq<CombineLabelTask>, user: nat, id: nat, now: nat): (r: (seq<CombineLabelTask>, Reply))
    ensures |r.0| == |rows|
    ensures r.1.success <==> r.1.code == Ok
    ensures r.1.code == NotFound <==> FindOwned(rows, id, user).None?
    ensures r.1.code == Ok <==> FindOwned(rows, id, user).Some? && FindOwned(rows, id, user).value.status == Pending
    ensures r.1.code != Ok ==> r.0 == rows
    ensures forall i :: 0 <= i < |rows| && rows[i].id != id ==> r.0[i] == rows[i]
  {
    match FindOwned(rows, id, user)
    case None => (rows, Reply(NotFound, false, NotFoundMessage))
    case Some(t) =>
      if t.status != Pending then (rows, Reply(BadRequest, false, NotPendingMessage))
      else (Replace(rows, CancelledRow(t, now)), Reply(Ok, true, CancelledMessage))
  }

  /**
   * `POST /api/combine-label/`: `urls` is the request's `urls` entry, if it
   * has one. The clock does not run backwards, so `now` is no earlier than
   * any stored creation time.
   */
  method Create(store: Store, user: nat, urls: Option<seq<string>>, enqueueError: Option<string>, now: nat)
    returns (reply: Reply, data: Option<CreatedData>)
    requires store.Valid()
    requires forall r :: r in store.rows ==> r.createdAt <= now
    modifies store
    ensures store.Valid()
    ensures (store.rows, reply, data) == CreateSpec(old(store.rows), old(store.nextId), user, urls, enqueueError, now)
  {
    if urls.None? || urls.value == [] {
      return Reply(BadRequest, false, NoUrlsMessage), None;
    }
    var t := store.Create(user, urls.value, now);
    if enqueueError.Some? {
      var before := store.rows;
      t := t.(status := Pending, errorMessage := Some(EnqueueNote(enqueueError.value)));
      store.Save(t);
      ReplaceHead(before, t);
    }
    reply := Reply(CreatedCode, true, CreateMessage(|urls.value|));
    data := Some(CreatedData(t.id, t.status, t.totalUrls, t.createdAt));
  }

  /** Saving the newest row of a table with unique keys changes only the head. */
  lemma ReplaceHead(rows: seq<CombineLabelTask>, t: CombineLabelTask)
    requires DistinctIds(rows) && rows != [] && rows[0].id == t.id
    ensures Replace(rows, t) == [t] + rows[1..]
  {
    var r := Replace(rows, t);
    forall i | 0 < i < |rows| ensures r[i] == rows[i] {
      assert rows[i].id != rows[0].id;
    }
    assert r == [t] + rows[1..];
  }

  /** `GET /api/combine-label/`: the requester's tasks, newest first. */
  method List(store: Store, user: nat) returns (tasks: seq<CombineLabelTask>)
    requires store.Valid()
    ensures tasks == OwnedBy(store.rows, user)
    ensures forall t :: t in tasks <==> t in store.rows && t.user == user
    ensures NewestFirst(tasks)
  {
    tasks := OwnedBy(store.rows, user);
    OwnedNewestFirst(store.rows, user);
  }

  /** `GET /api/combine-label/{id}/`: 200 with the task, or 404 when it is missing or someone else's. */
  method Retrieve(store: Store, user: nat, id: nat) returns (reply: Reply, task: Option<CombineLabelTask>)
    ensures task == FindOwned(store.rows, id, user)
    ensures reply.code == Ok <==> exists t :: t in store.rows && t.id == id && t.user == user
    ensures reply.code == Ok ==> reply.success && task.Some?
    ensures reply.code != Ok ==> reply == Reply(NotFound, false, NotFoundMessage) && task.None?
  {
    task := FindOwned(store.rows, id, user);
    if task.None? {
      reply := Reply(NotFound, false, NotFoundMessage);
    } else {
      reply := Reply(Ok, true, "");
    }
  }

  /** `POST /api/combine-label/{id}/cancel/` at time `now`. */
  method Cancel(store: Store, user: nat, id: nat, now: nat) returns (reply: Reply)
    requires store.Valid()
    modifies store`rows, store`history
    ensures store.Valid()
    ensures (store.rows, reply) == CancelSpec(old(store.rows), user, id, now)
  {
    var t := FindOwned(store.rows, id, user);
    if t.None? {
      return Reply(NotFound, false, NotFoundMessage);
    }
    if t.value.status != Pending {
      return Reply(BadRequest, false, NotPendingMessage);
    }
    OwnedIsFound(store.rows, id, user);
    store.Save(CancelledRow(t.value, now));
    reply := Reply(Ok, true, CancelledMessage);
  }

  /** With unique keys, the owner-scoped lookup agrees with the plain one whenever it finds a row. */
  lemma OwnedIsFound(rows: seq<CombineLabelTask>, id: nat, user: nat)
    requires DistinctIds(rows) && FindOwned(rows, id, user).Some?
    ensures Find(rows, id) == FindOwned(rows, id, user)
  {
    var k :| 0 <= k < |rows| && rows[k] == FindOwned(rows, id, user).value;
    FindAt(rows, k);
  }

  /** The owner filter keeps the table's newest-first order. */
  lemma {:induction false} OwnedNewestFirst(rows: seq<CombineLabelTask>, user: nat)
    requires NewestFirst(rows)
    ensures NewestFirst(OwnedBy(rows, user))
  {
    if rows != [] {
      OwnedNewestFirst(rows[1..], user);
      var rest := OwnedBy(rows[1..], user);
      forall t | t in rest ensures rows[0].createdAt >= t.createdAt {
        var j :| 0 <= j < |rows[1..]| && rows[1..][j] == t;
        assert rows[j + 1] == t;
      }
    }
  }

  /**
   * `create` rejects a missing or empty URL list with 400 and no record;
   * otherwise it adds one PENDING row with the next key, the URLs and their
   * count, echoes it in a 201, and leaves a note exactly when enqueueing
   * failed. The table keeps unique keys and its order.
   */
  lemma CreateOutcome(rows: seq<CombineLabelTask>, nextId: nat, user: nat, urls: Option<seq<string>>,
                      enqueueError: Option<string>, now: nat)
    requires DistinctIds(rows) && NewestFirst(rows)
    requires forall i :: 0 <= i < |rows| ==> rows[i].id < nextId && rows[i].createdAt <= now
    ensures var (after, reply, data) := CreateSpec(rows, nextId, user, urls, enqueueError, now);
      && (reply.code == BadRequest <==> urls.None? || urls.value == [])
      && (reply.code == BadRequest ==> after == rows && data.None? && !reply.success && reply.message == NoUrlsMessage)
      && (reply.code != BadRequest ==>
            && reply.code == CreatedCode && reply.success
            && |after| == |rows| + 1 && after[1..] == rows
            && after[0].id == nextId && after[0].user == user && after[0].createdAt == now
            && after[0].status == Pending && after[0].urls == urls.value && after[0].totalUrls == |urls.value|
            && after[0].startedAt.None? && after[0].completedAt.None? && after[0].driveLink.None?
            && (after[0].errorMessage.Some? <==> enqueueError.Some?)
            && data == Some(CreatedData(nextId, Pending, |urls.value|, now)))
      && DistinctIds(after) && NewestFirst(after)
  {
  }

  /** A created task is the newest pending task the background worker sees, unless it already claimed the key. */
  lemma CreatedIsScheduled(rows: seq<CombineLabelTask>, nextId: nat, user: nat, urls: seq<string>,
                           enqueueError: Option<string>, now: nat, claimed: set<nat>)
    requires urls != [] && nextId !in claimed
    ensures var (after, _, _) := CreateSpec(rows, nextId, user, Some(urls), enqueueError, now);
      PendingIds(after, claimed) == [nextId] + PendingIds(rows, claimed)
  {
    var (after, _, _) := CreateSpec(rows, nextId, user, Some(urls), enqueueError, now);
    assert after[1..] == rows;
  }

  /**
   * `cancel` succeeds exactly on the requester's PENDING task; 404 means
   * the requester owns no task under that key. Only a success changes the
   * table, and then only that task's row: it becomes CANCELLED with the
   * completion time set, and the table keeps unique keys and its order.
   */
  lemma CancelOutcome(rows: seq<CombineLabelTask>, user: nat, id: nat, now: nat)
    requires DistinctIds(rows) && NewestFirst(rows)
    ensures var (after, reply) := CancelSpec(rows, user, id, now);
      && (reply.code == Ok <==> exists t :: t in rows && t.id == id && t.user == user && t.status == Pending)
      && (reply.code == NotFound <==> forall t :: t in rows ==> !(t.id == id && t.user == user))
      && (reply.code == BadRequest <==> exists t :: t in rows && t.id == id && t.user == user && t.status != Pending)
      && (reply.code != Ok ==> after == rows && !reply.success)
      && (reply.code == Ok ==>
            && Find(rows, id).Some?
            && Find(after, id) == Some(CancelledRow(Find(rows, id).value, now))
            && (forall other :: other != id ==> Find(after, other) == Find(rows, other))
            && DistinctIds(after) && NewestFirst(after))
  {
    var r := FindOwned(rows, id, user);
    if r.Some? {
      OwnedIsFound(rows, id, user);
      var k :| 0 <= k < |rows| && rows[k] == r.value;
      forall t | t in rows && t.id == id && t.user == user ensures t == r.value {
        var j :| 0 <= j < |rows| && rows[j] == t;
        assert j == k;
      }
      if r.value.status == Pending {
        FindReplace(rows, CancelledRow(r.value, now));
      }
    }
  }

  /** A cancelled task cannot be cancelled again: the second request gets 400 and changes nothing. */
  lemma CancelIsFinal(rows: seq<CombineLabelTask>, user: nat, id: nat, now: nat, later: nat)
    requires DistinctIds(rows) && NewestFirst(rows)
    requires CancelSpec(rows, user, id, now).1.code == Ok
    ensures var after := CancelSpec(rows, user, id, now).0;
      CancelSpec(after, user, id, later) == (after, Reply(BadRequest, false, NotPendingMessage))
  {
    CancelOutcome(rows, user, id, now);
    var after := CancelSpec(rows, user, id, now).0;
    var c := Find(after, id).value;
    assert c in after && c.user == user;
    OwnedIsFound(after, id, user);
  }

  /**
   * Once cancelled, a task is no longer pending for the background worker,
   * and every other task stays exactly as pending as it was.
   */
  lemma CancelledNotScheduled(rows: seq<CombineLabelTask>, user: nat, id: nat, now: nat, claimed: set<nat>)
    requires DistinctIds(rows) && NewestFirst(rows)
    requires CancelSpec(rows, user, id, now).1.code == Ok
    ensures var after := CancelSpec(rows, user, id, now).0;
      && id !in PendingIds(after, claimed)
      && forall x :: x != id ==> (x in PendingIds(after, claimed) <==> x in PendingIds(rows, claimed))
  {
    var t := FindOwned(rows, id, user).value;
    assert CancelSpec(rows, user, id, now).0 == Replace(rows, CancelledRow(t, now));
    ReplaceUnschedules(rows, CancelledRow(t, now), claimed);
  }

  /** Saving a row that is not PENDING takes its key off the pending list and leaves every other key as it was. */
  lemma ReplaceUnschedules(rows: seq<CombineLabelTask>, c: CombineLabelTask, claimed: set<nat>)
    requires c.status != Pending
    ensures c.id !in PendingIds(Replace(rows, c), claimed)
    ensures forall x :: x != c.id ==> (x in PendingIds(Replace(rows, c), claimed) <==> x in PendingIds(rows, claimed))
  {
    var after := Replace(rows, c);
    forall x | x != c.id ensures x in PendingIds(after, claimed) <==> x in PendingIds(rows, claimed) {
      assert forall i :: 0 <= i < |rows| && rows[i].id == x ==> after[i] == rows[i];
    }
  }
}
