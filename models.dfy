/**
 * The stored records the rest of the model reads and writes: the
 * label-combination task, the package status choices and the user-to-group
 * link with its role.
 */
module Models {
  import opened Wrappers
  import Constant

  /** The five values of `CombineLabelTask.status`. */
  datatype TaskStatus = Pending | Processing | Completed | Failed | Cancelled
  {
    /** The value stored in the database column. */
    function Code(): string
    {
      match this
      case Pending => "PENDING"
      case Processing => "PROCESSING"
      case Completed => "COMPLETED"
      case Failed => "FAILED"
      case Cancelled => "CANCELLED"
    }
  }

  /** Reads a stored status column; anything outside the five choices is rejected. */
  function StatusFromCode(code: string): (r: Option<TaskStatus>)
    ensures r.Some? ==> r.value.Code() == code
  {
    if code == "PENDING" then Some(Pending)
    else if code == "PROCESSING" then Some(Processing)
    else if code == "COMPLETED" then Some(Completed)
    else if code == "FAILED" then Some(Failed)
    else if code == "CANCELLED" then Some(Cancelled)
    else None
  }

  lemma StatusCodeRoundTrip(s: TaskStatus)
    ensures StatusFromCode(s.Code()) == Some(s)
  {
  }

  /** One entry of `failed_urls`: the URL and why it failed. */
  datatype FailedUrl = FailedUrl(url: string, error: string)

  /** A `CombineLabelTask` row. Timestamps are abstract instants. */
  datatype CombineLabelTask = CombineLabelTask(
    id: nat,
    user: nat,
    createdAt: nat,
    urls: seq<string>,
    totalUrls: int,
    status: TaskStatus,
    startedAt: Option<nat>,
    completedAt: Option<nat>,
    successfulCount: int,
    failedCount: int,
    successfulUrls: seq<string>,
    failedUrls: seq<FailedUrl>,
    driveLink: Option<string>,
    errorMessage: Option<string>,
    celeryTaskId: Option<string>)

  /** A row created with only its key, owner and creation time given: every other column takes its default. */
  function DefaultTask(id: nat, user: nat, createdAt: nat): (t: CombineLabelTask)
    ensures t.status == Pending && t.urls == [] && t.totalUrls == 0
    ensures t.successfulCount == 0 && t.failedCount == 0 && t.successfulUrls == [] && t.failedUrls == []
    ensures t.startedAt.None? && t.completedAt.None? && t.driveLink.None? && t.errorMessage.None? && t.celeryTaskId.None?
  {
    CombineLabelTask(id, user, createdAt, [], 0, Pending, None, None, 0, 0, [], [], None, None, None)
  }

  /** The table's default ordering, newest `created_at` first. */
  predicate NewestFirst(rows: seq<CombineLabelTask>)
  {
    forall i, j :: 0 <= i < j < |rows| ==> rows[i].createdAt >= rows[j].createdAt
  }

  /** `Package.PackageStatus`. */
  datatype PackageStatus =
    | Init | NoDesign | HasDesign | PrintPending | Printed | InProduction | ProductionDone
    | ShippingToUs | ShippedToUs | ShippingWithinUs | DeliveredToCustomer | PackageCancelled
    | CannotProduce | LackOfPet | WrongDesign | WrongMockup | ForwardedToSupify | SentToOnos
    | Fullfilled | ReforwardedToHall
  {
    function Value(): string
    {
      match this
      case Init => "init"
      case NoDesign => "no_design"
      case HasDesign => "has_design"
      case PrintPending => "print_pending"
      case Printed => "printed"
      case InProduction => "in_production"
      case ProductionDone => "production_done"
      case ShippingToUs => "shipping_to_us"
      case ShippedToUs => "shipped_to_us"
      case ShippingWithinUs => "shipping_within_us"
      case DeliveredToCustomer => "delivered_to_customer"
      case PackageCancelled => "cancelled"
      case CannotProduce => "can_not_produce"
      case LackOfPet => "lack_of_pet"
      case WrongDesign => "wrong_design"
      case WrongMockup => "wrong_mockkup"
      case ForwardedToSupify => "forwarded_to_supify"
      case SentToOnos => "sent_to_onos"
      case Fullfilled => "fullfilled"
      case ReforwardedToHall => "reforwarded_to_hall"
    }
  }

  const AllPackageStatuses: seq<PackageStatus> := [
    Init, NoDesign, HasDesign, PrintPending, Printed, InProduction, ProductionDone,
    ShippingToUs, ShippedToUs, ShippingWithinUs, DeliveredToCustomer, PackageCancelled,
    CannotProduce, LackOfPet, WrongDesign, WrongMockup, ForwardedToSupify, SentToOnos,
    Fullfilled, ReforwardedToHall]

  /** `Package.status` defaults to `'init'`. */
  const DefaultPackageStatus: PackageStatus := Init

  /** The stored value of a package status, if it is one of the choices. */
  function PackageStatusFromValue(v: string): (r: Option<PackageStatus>)
    ensures r.Some? ==> r.value.Value() == v
    ensures r.None? ==> forall p :: p in AllPackageStatuses ==> p.Value() != v
  {
    FindStatus(AllPackageStatuses, v)
  }

  function FindStatus(ps: seq<PackageStatus>, v: string): (r: Option<PackageStatus>)
    ensures r.Some? ==> r.value.Value() == v && r.value in ps
    ensures r.None? ==> forall p :: p in ps ==> p.Value() != v
  {
    if ps == [] then None else if ps[0].Value() == v then Some(ps[0]) else FindStatus(ps[1..], v)
  }

  lemma PackageStatusRoundTrip(p: PackageStatus)
    ensures PackageStatusFromValue(p.Value()) == Some(p)
  {
    assert p in AllPackageStatuses;
    var r := PackageStatusFromValue(p.Value());
    assert r.Some?;
    ValueInjective(r.value, p);
  }

  lemma ValueInjective(p: PackageStatus, q: PackageStatus)
    requires p.Value() == q.Value()
    ensures p == q
  {
  }

  /** A `UserGroup` row: a user's membership of a group with a role code. */
  datatype UserGroup = UserGroup(user: nat, groupCustom: nat, role: int)

  /** A membership created without a role takes `ROLE_USERGROUP_DEFAULT`. */
  function NewUserGroup(user: nat, groupCustom: nat): (g: UserGroup)
    ensures g.user == user && g.groupCustom == groupCustom
    ensures g.role == Constant.ROLE_USERGROUP_DEFAULT && Constant.RoleLabel(g.role).Some?
  {
    UserGroup(user, groupCustom, Constant.ROLE_USERGROUP_DEFAULT)
  }

  /** `unique_together = (user, group_custom)`. */
  predicate UniqueMemberships(rows: seq<UserGroup>)
  {
    forall i, j :: 0 <= i < j < |rows| ==> (rows[i].user, rows[i].groupCustom) != (rows[j].user, rows[j].groupCustom)
  }

  /** Inserting a membership keeps the pairs unique exactly when the pair is new. */
  lemma {:induction false} InsertMembership(rows: seq<UserGroup>, g: UserGroup)
    requires UniqueMemberships(rows)
    ensures UniqueMemberships(rows + [g]) <==> forall r :: r in rows ==> (r.user, r.groupCustom) != (g.user, g.groupCustom)
  {
    var s := rows + [g];
    if forall r :: r in rows ==> (r.user, r.groupCustom) != (g.user, g.groupCustom) {
      forall i, j | 0 <= i < j < |s|
        ensures (s[i].user, s[i].groupCustom) != (s[j].user, s[j].groupCustom)
      {
        if j == |rows| {
          assert s[i] in rows;
        }
      }
    } else {
      var r :| r in rows && (r.user, r.groupCustom) == (g.user, g.groupCustom);
      var i :| 0 <= i < |rows| && rows[i] == r;
      assert s[i] == r && s[|rows|] == g;
    }
  }
}
