/**
 * The member-management views: `PermissionRole.put` edits a member (account
 * fields, user code, group and shops), `AddUserToGroup.post` and
 * `AddUsertoGroup.post` let a manager add members, and `UserShopListAll.get`
 * lists a group's active members, newest first. The tables they touch are
 * the fields of a `Directory`.
 */
module PermissionAction {
  import opened Wrappers
  import Models
  import Constant
  import Text

  datatype Account = Account(username: string, email: string, firstName: string, lastName: string,
                             password: string, isActive: bool, dateJoined: int)

  datatype Link = Link(user: nat, shop: nat)

  datatype ShopRow = ShopRow(name: string, groupCustom: nat)

  // ---------------------------------------------------------------- PermissionRole.put, account fields

  datatype PutRequest = PutRequest(
    userId: nat,
    firstName: Option<string>, lastName: Option<string>, username: Option<string>, email: Option<string>,
    password: Option<string>,
    /** `user_code`: absent, or given (possibly `null`). */
    userCode: Option<Option<string>>,
    /** `group_custom_id`, `None` when absent; 0 is falsy and skips the group step. */
    groupCustomId: Option<int>,
    /** `shops`, `[]` when absent. */
    shops: seq<nat>,
    isActive: Option<bool>)

  /** The longest password `put` accepts. */
  const MaxPasswordLength := 60

  function OrKeep<T>(given: Option<T>, current: T): T
  {
    if given.Some? then given.value else current
  }

  predicate PasswordAccepted(p: Option<string>)
  {
    p.Some? && p.value != "" && |p.value| <= MaxPasswordLength
  }

  /** The first save of `put`: each given field replaces the stored one, the password only when non-empty and at most 60 characters. */
  function EditAccount(a: Account, req: PutRequest, hash: string -> string): (r: Account)
    ensures PasswordAccepted(req.password) ==> r.password == hash(req.password.value)
    ensures !PasswordAccepted(req.password) ==> r.password == a.password
    ensures req.username.None? ==> r.username == a.username
    ensures req.email.None? ==> r.email == a.email
    ensures r.isActive == a.isActive && r.dateJoined == a.dateJoined
  {
    a.(firstName := OrKeep(req.firstName, a.firstName),
       lastName := OrKeep(req.lastName, a.lastName),
       username := OrKeep(req.username, a.username),
       email := OrKeep(req.email, a.email),
       password := if PasswordAccepted(req.password) then hash(req.password.value) else a.password)
  }

  // ---------------------------------------------------------------- PermissionRole.put, the group

  /** The user's first membership row, if any. */
  function FirstMembership(rows: seq<Models.UserGroup>, u: nat): (r: Option<Models.UserGroup>)
    ensures r.Some? ==> r.value in rows && r.value.user == u
    ensures r.None? ==> forall k :: 0 <= k < |rows| ==> rows[k].user != u
  {
    if rows == [] then None
    else if rows[0].user == u then Some(rows[0])
    else FirstMembership(rows[1..], u)
  }

  /** As written: `existing_role or 2`, which also replaces role 0. */
  function RoleAfterEditAsWritten(rows: seq<Models.UserGroup>, u: nat): (role: int)
    ensures role != Constant.ROLE_ADMIN
    ensures FirstMembership(rows, u).Some? && FirstMembership(rows, u).value.role != Constant.ROLE_ADMIN ==>
      role == FirstMembership(rows, u).value.role
    ensures FirstMembership(rows, u).None? ==> role == Constant.ROLE_USERGROUP_DEFAULT
  {
    match FirstMembership(rows, u)
    case None => Constant.ROLE_USERGROUP_DEFAULT
    case Some(g) => if g.role != 0 then g.role else Constant.ROLE_USERGROUP_DEFAULT
  }

  /** Editing an administrator's group makes them a seller. */
  lemma AdminDemoted(u: nat, g: nat)
    ensures RoleAfterEditAsWritten([Models.UserGroup(u, g, Constant.ROLE_ADMIN)], u) == Constant.ROLE_SELLER
  {
  }

  /** The role kept across the group change: the existing one, the default only when there is none. */
  function RoleAfterEdit(rows: seq<Models.UserGroup>, u: nat): (role: int)
    ensures FirstMembership(rows, u).Some? ==> role == FirstMembership(rows, u).value.role
    ensures FirstMembership(rows, u).None? ==> role == Constant.ROLE_USERGROUP_DEFAULT
  {
    match FirstMembership(rows, u)
    case None => Constant.ROLE_USERGROUP_DEFAULT
    case Some(g) => g.role
  }

  /** The two agree on every role but the administrator's. */
  lemma RoleAfterEditAgrees(rows: seq<Models.UserGroup>, u: nat)
    requires FirstMembership(rows, u).None? || FirstMembership(rows, u).value.role != Constant.ROLE_ADMIN
    ensures RoleAfterEdit(rows, u) == RoleAfterEditAsWritten(rows, u)
  {
  }

  /** The membership rows of everyone but `u`, in order. */
  function OthersOf(rows: seq<Models.UserGroup>, u: nat): (r: seq<Models.UserGroup>)
    ensures forall k :: 0 <= k < |r| ==> r[k].user != u && r[k] in rows
  {
    if rows == [] then []
    else if rows[|rows| - 1].user == u then OthersOf(rows[..|rows| - 1], u)
    else OthersOf(rows[..|rows| - 1], u) + [rows[|rows| - 1]]
  }

  function MembershipsOf(rows: seq<Models.UserGroup>, u: nat): (r: seq<Models.UserGroup>)
  {
    if rows == [] then []
    else if rows[|rows| - 1].user == u then MembershipsOf(rows[..|rows| - 1], u) + [rows[|rows| - 1]]
    else MembershipsOf(rows[..|rows| - 1], u)
  }

  /** Delete the user's rows and create one in group `g` with the kept role. */
  function ReplaceGroup(rows: seq<Models.UserGroup>, u: nat, g: nat): seq<Models.UserGroup>
  {
    OthersOf(rows, u) + [Models.UserGroup(u, g, RoleAfterEdit(rows, u))]
  }

  lemma {:induction false} MembershipsOfNone(rows: seq<Models.UserGroup>, u: nat)
    requires forall k :: 0 <= k < |rows| ==> rows[k].user != u
    ensures MembershipsOf(rows, u) == []
  {
    if rows != [] {
      MembershipsOfNone(rows[..|rows| - 1], u);
    }
  }

  lemma {:induction false} MembershipsOfAppend(rows: seq<Models.UserGroup>, x: Models.UserGroup, u: nat)
    ensures MembershipsOf(rows + [x], u) == MembershipsOf(rows, u) + (if x.user == u then [x] else [])
  {
    assert (rows + [x])[..|rows|] == rows;
  }

  lemma {:induction false} OthersOfAppend(rows: seq<Models.UserGroup>, x: Models.UserGroup, v: nat)
    ensures OthersOf(rows + [x], v) == OthersOf(rows, v) + (if x.user == v then [] else [x])
  {
    assert (rows + [x])[..|rows|] == rows;
  }

  lemma {:induction false} OthersOfOther(rows: seq<Models.UserGroup>, u: nat, v: nat)
    requires u != v
    ensures MembershipsOf(OthersOf(rows, u), v) == MembershipsOf(rows, v)
  {
    if rows != [] {
      var init := rows[..|rows| - 1];
      var x := rows[|rows| - 1];
      OthersOfOther(init, u, v);
      if x.user != u {
        MembershipsOfAppend(OthersOf(init, u), x, v);
      }
    }
  }

  /**
   * After the group step the user has exactly one membership, in the new
   * group with the kept role, and every other user's memberships are as
   * they were.
   */
  lemma ReplaceGroupFacts(rows: seq<Models.UserGroup>, u: nat, g: nat)
    ensures MembershipsOf(ReplaceGroup(rows, u, g), u) == [Models.UserGroup(u, g, RoleAfterEdit(rows, u))]
    ensures forall v :: v != u ==> MembershipsOf(ReplaceGroup(rows, u, g), v) == MembershipsOf(rows, v)
  {
    var x := Models.UserGroup(u, g, RoleAfterEdit(rows, u));
    MembershipsOfNone(OthersOf(rows, u), u);
    MembershipsOfAppend(OthersOf(rows, u), x, u);
    forall v | v != u ensures MembershipsOf(ReplaceGroup(rows, u, g), v) == MembershipsOf(rows, v) {
      MembershipsOfAppend(OthersOf(rows, u), x, v);
      OthersOfOther(rows, u, v);
    }
  }

  // ---------------------------------------------------------------- PermissionRole.put, the shops

  function ShopsOf(links: seq<Link>, u: nat): (r: set<nat>)
    ensures forall s :: s in r <==> Link(u, s) in links
  {
    set k | 0 <= k < |links| && links[k].user == u :: links[k].shop
  }

  /** The creation loop: a link for every requested shop missing from `known`, the user's shops before the loop. */
  function AddMissing(links: seq<Link>, u: nat, stores: seq<nat>, known: set<nat>): seq<Link>
  {
    if stores == [] then links
    else
      var prev := AddMissing(links, u, stores[..|stores| - 1], known);
      if stores[|stores| - 1] in known then prev else prev + [Link(u, stores[|stores| - 1])]
  }

  /** `user_shops.exclude(shop_id__in=stores).delete()`: the user's links to shops not requested go. */
  function Prune(links: seq<Link>, u: nat, stores: seq<nat>): (r: seq<Link>)
    ensures forall k :: 0 <= k < |r| ==> r[k] in links
    ensures forall k :: 0 <= k < |r| ==> r[k].user == u ==> r[k].shop in stores
  {
    if links == [] then []
    else
      var prev := Prune(links[..|links| - 1], u, stores);
      var l := links[|links| - 1];
      if l.user == u && l.shop !in stores then prev else prev + [l]
  }

  function SyncShops(links: seq<Link>, u: nat, stores: seq<nat>): seq<Link>
  {
    Prune(AddMissing(links, u, stores, ShopsOf(links, u)), u, stores)
  }

  lemma {:induction false} AddMissingFacts(links: seq<Link>, u: nat, stores: seq<nat>, known: set<nat>)
    requires known == ShopsOf(links, u)
    ensures forall s :: s in stores ==> Link(u, s) in AddMissing(links, u, stores, known)
    ensures forall l :: l in AddMissing(links, u, stores, known) ==> l in links || (l.user == u && l.shop in stores)
    ensures forall l :: l in links ==> l in AddMissing(links, u, stores, known)
  {
    if stores != [] {
      AddMissingFacts(links, u, stores[..|stores| - 1], known);
      forall s | s in stores ensures Link(u, s) in AddMissing(links, u, stores, known) {
        if s != stores[|stores| - 1] {
          assert s in stores[..|stores| - 1];
        }
      }
    }
  }

  lemma {:induction false} PruneKeeps(links: seq<Link>, u: nat, stores: seq<nat>, l: Link)
    requires l in links && (l.user != u || l.shop in stores)
    ensures l in Prune(links, u, stores)
  {
    var init := links[..|links| - 1];
    if l != links[|links| - 1] {
      assert l in init;
      PruneKeeps(init, u, stores, l);
    }
  }

  /**
   * After the shop step the user is linked to exactly the requested shops,
   * and every other user keeps exactly their links.
   */
  lemma SyncShopsExact(links: seq<Link>, u: nat, stores: seq<nat>)
    ensures forall s :: Link(u, s) in SyncShops(links, u, stores) <==> s in stores
    ensures forall l: Link :: l.user != u ==> (l in SyncShops(links, u, stores) <==> l in links)
  {
    var added := AddMissing(links, u, stores, ShopsOf(links, u));
    AddMissingFacts(links, u, stores, ShopsOf(links, u));
    forall s | s in stores ensures Link(u, s) in SyncShops(links, u, stores) {
      PruneKeeps(added, u, stores, Link(u, s));
    }
    forall l: Link | l.user != u && l in links ensures l in SyncShops(links, u, stores) {
      PruneKeeps(added, u, stores, l);
    }
  }

  /** A shop requested twice that the user did not have gets two links. */
  lemma DuplicateRequestDuplicates(u: nat, s: nat)
    ensures AddMissing([], u, [s, s], ShopsOf([], u)) == [Link(u, s), Link(u, s)]
  {
    assert ShopsOf([], u) == {};
    assert [s, s][..1] == [s];
    assert [s][..0] == [];
    assert AddMissing([], u, [s], {}) == [Link(u, s)];
  }

  // ---------------------------------------------------------------- the tables

  /** `UserGroup.objects.get_or_create` of a row: added unless already present. */
  function Joined(rows: seq<Models.UserGroup>, row: Models.UserGroup): seq<Models.UserGroup>
  {
    if row in rows then rows else rows + [row]
  }

  /** The links after `UserShop.objects.get_or_create(user=u, shop_id=s)` for each `s` of `shopIds` in turn. */
  function LinkAll(links: seq<Link>, u: nat, shopIds: seq<nat>): seq<Link>
  {
    if shopIds == [] then links
    else
      var prev := LinkAll(links, u, shopIds[..|shopIds| - 1]);
      var l := Link(u, shopIds[|shopIds| - 1]);
      if l in prev then prev else prev + [l]
  }

  /**
   * Linking keeps every existing link in place, links `u` to every
   * requested shop, adds no link of another user or to another shop, and
   * never adds a link twice.
   */
  lemma {:induction false} LinkAllFacts(links: seq<Link>, u: nat, shopIds: seq<nat>)
    ensures links <= LinkAll(links, u, shopIds)
    ensures forall s :: s in shopIds ==> Link(u, s) in LinkAll(links, u, shopIds)
    ensures forall l :: l in LinkAll(links, u, shopIds) ==> l in links || (l.user == u && l.shop in shopIds)
    ensures forall i :: |links| <= i < |LinkAll(links, u, shopIds)| ==> LinkAll(links, u, shopIds)[i] !in LinkAll(links, u, shopIds)[..i]
  {
    if shopIds != [] {
      var init := shopIds[..|shopIds| - 1];
      LinkAllFacts(links, u, init);
      assert forall s :: s in shopIds ==> s in init || s == shopIds[|shopIds| - 1];
    }
  }

  /**
   * `SaveFailed`: the first `user.save()` raised `IntegrityError` (the new
   * username is another user's); nothing catches it, so Django answers 500.
   */
  datatype PutReply = UserNotFound | SaveFailed | GroupNotFound | Updated

  datatype AddReply = Created | Forbidden | ObjectMissing | ServerError(error: string)

  const Forbid := "you don't have permission to do this bro"
  const UsernameTaken := "IntegrityError: duplicate username"
  const CodeTaken := "IntegrityError: the user already has another user code"
  const MembershipTaken := "IntegrityError: the user already belongs to the group with another role"
  const NoGroup := "No GroupCustom matches the given query."
  const NoShop := "IntegrityError: the shop does not exist"
  /** `create_user` refuses a falsy username with this `ValueError` before anything is saved. */
  const NoUsername := "The given username must be set"

  /**
   * Django's `MultipleObjectsReturned` text for `UserGroup.objects.get`
   * matching `n` rows; `get` fetches at most 21 rows, so from 21 on the
   * count is "more than 20".
   */
  function MultipleMemberships(n: nat): string
  {
    "get() returned more than one UserGroup -- it returned " + (if n < 21 then Text.NatToString(n) else "more than 20") + "!"
  }

  /** The requester's `UserGroup.objects.get(user=...)`: none, one, or several rows. */
  function TheMembership(rows: seq<Models.UserGroup>, u: nat): Result<Option<Models.UserGroup>>
  {
    var mine := MembershipsOf(rows, u);
    if mine == [] then Ok(None)
    else if |mine| == 1 then Ok(Some(mine[0]))
    else Err(MultipleMemberships(|mine|))
  }

  /** Whether a requester may add members: exactly one membership, with the manager role. */
  function AddPermission(rows: seq<Models.UserGroup>, u: nat): (r: AddReply)
    ensures r == Created <==> |MembershipsOf(rows, u)| == 1 && MembershipsOf(rows, u)[0].role == Constant.ROLE_MANAGER
    ensures r == ObjectMissing <==> MembershipsOf(rows, u) == []
    ensures r.ServerError? <==> |MembershipsOf(rows, u)| > 1
    ensures r.ServerError? ==> r.error == MultipleMemberships(|MembershipsOf(rows, u)|)
  {
    match TheMembership(rows, u)
    case Err(e) => ServerError(e)
    case Ok(None) => ObjectMissing
    case Ok(Some(g)) => if g.role == Constant.ROLE_MANAGER then Created else Forbidden
  }

  /** The fields of an add-member request; a field the request leaves out is the empty text. */
  datatype NewMember = NewMember(username: string, password: string, firstName: string, lastName: string,
                                 email: string, userCode: string, shops: seq<nat>)

  /** One `UserShopListAll` entry. */
  datatype Member = Member(userId: nat, account: Account, userCode: Option<string>, shops: seq<(nat, string)>)

  /** Whether some user other than `u` has the username `name`. */
  predicate UsernameClash(users: map<nat, Account>, u: nat, name: string)
  {
    exists k :: k in users && k != u && users[k].username == name
  }

  /** The unique constraint on `auth_user.username`. */
  predicate UniqueUsernames(users: map<nat, Account>)
  {
    forall a, b :: a in users && b in users && users[a].username == users[b].username ==> a == b
  }

  /** Every user id is below the id counter. */
  predicate Allocated(users: map<nat, Account>, nextUserId: nat)
  {
    forall k :: k in users ==> k < nextUserId
  }

  /** Saving user `u` with a username no other user holds keeps the ids allocated and the usernames unique. */
  lemma SaveKeepsUnique(users: map<nat, Account>, nextUserId: nat, u: nat, a: Account)
    requires Allocated(users, nextUserId) && UniqueUsernames(users) && u in users && !UsernameClash(users, u, a.username)
    ensures Allocated(users[u := a], nextUserId) && UniqueUsernames(users[u := a])
  {
  }

  /** `CustomUserSendPrint.objects.get_or_create(user=u, user_code=code)` finds another code for `u`. */
  predicate CodeClash(codes: map<nat, Option<string>>, u: nat, code: string)
  {
    code != "" && u in codes && codes[u] != Some(code)
  }

  /** The user codes after a non-clashing get-or-create (skipped for an empty code). */
  function Coded(codes: map<nat, Option<string>>, u: nat, code: string): map<nat, Option<string>>
  {
    if code != "" then codes[u := Some(code)] else codes
  }

  /** `UserGroup.objects.get_or_create(user=u, group_custom=g, role=2)` finds a row of `u` in `g` with another role. */
  predicate MembershipClash(rows: seq<Models.UserGroup>, u: nat, g: nat)
  {
    && Models.UserGroup(u, g, Constant.ROLE_SELLER) !in rows
    && exists k :: 0 <= k < |rows| && rows[k].user == u && rows[k].groupCustom == g
  }

  /** The position of the first requested shop without a shop row; `|shopIds|` when all exist. */
  function FirstMissingShop(shopIds: seq<nat>, shops: map<nat, ShopRow>): (k: nat)
    ensures k <= |shopIds|
    ensures forall j :: 0 <= j < k ==> shopIds[j] in shops
    ensures k < |shopIds| ==> shopIds[k] !in shops
  {
    if shopIds == [] then 0
    else
      var k := FirstMissingShop(shopIds[..|shopIds| - 1], shops);
      if k < |shopIds| - 1 then k
      else if shopIds[|shopIds| - 1] in shops then |shopIds|
      else |shopIds| - 1
  }

  /** The reply and the three tables after the enrolment steps of `AddUserToGroup.post`. */
  datatype Enrolment = Enrolment(reply: AddReply, codes: map<nat, Option<string>>,
                                 memberships: seq<Models.UserGroup>, links: seq<Link>)

  /**
   * The enrolment of member `u` into group `g`: the user code, the seller
   * membership, then the shop links; each step that raises leaves the
   * writes of the steps before it.
   */
  function EnrolSpec(codes: map<nat, Option<string>>, memberships: seq<Models.UserGroup>, links: seq<Link>,
                     groups: map<nat, string>, shops: map<nat, ShopRow>, u: nat, m: NewMember, g: nat): Enrolment
  {
    if CodeClash(codes, u, m.userCode) then Enrolment(ServerError(CodeTaken), codes, memberships, links)
    else if g !in groups then Enrolment(ServerError(NoGroup), Coded(codes, u, m.userCode), memberships, links)
    else if MembershipClash(memberships, u, g) then
      Enrolment(ServerError(MembershipTaken), Coded(codes, u, m.userCode), memberships, links)
    else
      var k := FirstMissingShop(m.shops, shops);
      Enrolment(if k == |m.shops| then Created else ServerError(NoShop), Coded(codes, u, m.userCode),
                Joined(memberships, Models.UserGroup(u, g, Constant.ROLE_SELLER)), LinkAll(links, u, m.shops[..k]))
  }

  /**
   * What the enrolment promises: it succeeds exactly when no step clashes
   * and every shop exists, and then the member is a seller of `g` linked
   * to every requested shop; no outcome drops an existing membership or
   * link; a clash on the code writes nothing, a missing group or a clash
   * on the membership writes only the code, and a missing shop keeps the
   * links made for the shops before it.
   */
  lemma EnrolOutcomes(codes: map<nat, Option<string>>, memberships: seq<Models.UserGroup>, links: seq<Link>,
                      groups: map<nat, string>, shops: map<nat, ShopRow>, u: nat, m: NewMember, g: nat)
    ensures var e := EnrolSpec(codes, memberships, links, groups, shops, u, m, g);
      && (e.reply == Created || e.reply.ServerError?)
      && (e.reply == Created <==>
            && !CodeClash(codes, u, m.userCode) && g in groups && !MembershipClash(memberships, u, g)
            && forall j :: 0 <= j < |m.shops| ==> m.shops[j] in shops)
      && (e.reply == Created ==>
            && Models.UserGroup(u, g, Constant.ROLE_SELLER) in e.memberships
            && forall s :: s in m.shops ==> Link(u, s) in e.links)
      && memberships <= e.memberships && links <= e.links
      && (e.reply == ServerError(CodeTaken) ==> e.codes == codes && e.memberships == memberships && e.links == links)
      && (e.reply == ServerError(NoGroup) || e.reply == ServerError(MembershipTaken) ==>
            e.codes == Coded(codes, u, m.userCode) && e.memberships == memberships && e.links == links)
      && (e.reply == ServerError(NoShop) ==>
            exists k :: 0 <= k < |m.shops| && m.shops[k] !in shops && e.links == LinkAll(links, u, m.shops[..k]))
  {
    var k := FirstMissingShop(m.shops, shops);
    LinkAllFacts(links, u, m.shops[..k]);
    if k == |m.shops| {
      assert m.shops[..k] == m.shops;
    }
  }

  /**
   * The tables after `put` saved the edited account of `req.userId`: the
   * user code is set (or kept); a missing group stops there, otherwise the
   * user's memberships are replaced by one in the group, the links are
   * synchronised with the requested shops and `is_active` is set.
   */
  ghost predicate Saved(users0: map<nat, Account>, codes0: map<nat, Option<string>>, memberships0: seq<Models.UserGroup>,
                        links0: seq<Link>, groups: map<nat, string>, req: PutRequest, edited: Account, r: PutReply,
                        users: map<nat, Account>, codes: map<nat, Option<string>>, memberships: seq<Models.UserGroup>,
                        links: seq<Link>)
    requires req.userId in users0
  {
    && codes == codes0[req.userId := OrKeep(req.userCode, if req.userId in codes0 then codes0[req.userId] else None)]
    && var groupId := OrKeep(req.groupCustomId, 1);
       if groupId != 0 && groupId !in groups then
         r == GroupNotFound && users == users0[req.userId := edited] && memberships == memberships0 && links == links0
       else
         && r == Updated
         && users == users0[req.userId := edited.(isActive := OrKeep(req.isActive, true))]
         && memberships == (if groupId != 0 then ReplaceGroup(memberships0, req.userId, groupId as nat) else memberships0)
         && links == SyncShops(links0, req.userId, req.shops)
  }

  class Directory {
    var users: map<nat, Account>
    var nextUserId: nat
    var groups: map<nat, string>
    var shops: map<nat, ShopRow>
    var memberships: seq<Models.UserGroup>
    var links: seq<Link>
    var codes: map<nat, Option<string>>

    /** User ids are allocated by a counter above every id in use, and usernames are unique. */
    ghost predicate Valid()
      reads this`users, this`nextUserId
    {
      && Allocated(users, nextUserId)
      && UniqueUsernames(users)
    }

    constructor(groups: map<nat, string>, shops: map<nat, ShopRow>)
      ensures Valid() && this.groups == groups && this.shops == shops
      ensures users == map[] && memberships == [] && links == [] && codes == map[]
    {
      this.users := map[];
      this.nextUserId := 1;
      this.groups := groups;
      this.shops := shops;
      this.memberships := [];
      this.links := [];
      this.codes := map[];
    }

    /** The group step of `put`: the user's memberships are deleted and one is created in group `g`. */
    method MoveToGroup(u: nat, g: nat)
      modifies this`memberships
      ensures memberships == ReplaceGroup(old(memberships), u, g)
    {
      memberships := ReplaceGroup(memberships, u, g);
    }

    /** The shop loop of `put`: create the missing links, then delete the unrequested ones. */
    method SyncUserShops(u: nat, stores: seq<nat>)
      modifies this`links
      ensures links == SyncShops(old(links), u, stores)
    {
      var known := ShopsOf(links, u);
      ghost var before := links;
      for i := 0 to |stores|
        invariant links == AddMissing(before, u, stores[..i], known)
      {
        assert stores[..i + 1][..i] == stores[..i];
        if stores[i] !in known {
          links := links + [Link(u, stores[i])];
        }
      }
      assert stores[..|stores|] == stores;
      links := Prune(links, u, stores);
    }

    /**
     * `PermissionRole.put`. The account and the user code are saved before
     * the group is looked up, so a missing group leaves them changed; a new
     * username that another user holds makes the first save raise, before
     * anything is written.
     */
    method Put(req: PutRequest, hash: string -> string) returns (r: PutReply)
      requires Valid()
      modifies this
      ensures Valid()
      ensures req.userId !in old(users) ==> r == UserNotFound && unchanged(this)
      ensures nextUserId == old(nextUserId) && groups == old(groups) && shops == old(shops)
      ensures req.userId in old(users) ==>
        (r == SaveFailed <==> UsernameClash(old(users), req.userId, EditAccount(old(users)[req.userId], req, hash).username))
      ensures r == SaveFailed ==> unchanged(this)
      ensures req.userId in old(users) && r != SaveFailed ==>
        Saved(old(users), old(codes), old(memberships), old(links), groups, req, EditAccount(old(users)[req.userId], req, hash),
              r, users, codes, memberships, links)
    {
      var u := req.userId;
      if u !in users {
        return UserNotFound;
      }
      var edited := EditAccount(users[u], req, hash);
      if exists k :: k in users && k != u && users[k].username == edited.username {
        return SaveFailed;
      }
      r := SaveAndSync(req, edited);
      SaveKeepsUnique(old(users), nextUserId, u, users[u]);
    }

    /**
     * The steps of `put` after the account edit: the save, the user code,
     * the group, the shops and `is_active`.
     */
    method SaveAndSync(req: PutRequest, edited: Account) returns (r: PutReply)
      requires req.userId in users
      modifies this`users, this`codes, this`memberships, this`links
      ensures Saved(old(users), old(codes), old(memberships), old(links), groups, req, edited, r, users, codes, memberships, links)
    {
      var u := req.userId;
      users := users[u := edited];
      var code := if u in codes then codes[u] else None;
      codes := codes[u := OrKeep(req.userCode, code)];
      var groupId := OrKeep(req.groupCustomId, 1);
      if groupId != 0 {
        if groupId !in groups {
          return GroupNotFound;
        }
        MoveToGroup(u, groupId as nat);
      }
      SyncUserShops(u, req.shops);
      users := users[u := edited.(isActive := OrKeep(req.isActive, true))];
      r := Updated;
    }

    /** `User.objects.get_or_create` on all the given fields; a new user with a taken username breaks the unique username. */
    method GetOrCreateUser(m: NewMember, joined: int) returns (r: Result<nat>)
      requires Valid()
      modifies this
      ensures Valid()
      ensures groups == old(groups) && shops == old(shops) && memberships == old(memberships)
      ensures links == old(links) && codes == old(codes)
      ensures r.Ok? ==> r.value in users && users[r.value].username == m.username
      ensures r.Ok? && r.value !in old(users) ==>
        && r.value == old(nextUserId)
        && users == old(users)[r.value := Account(m.username, m.email, m.firstName, m.lastName, m.password, true, joined)]
      ensures r.Ok? && r.value in old(users) ==> users == old(users)
      ensures r.Err? ==> r.error == UsernameTaken && unchanged(this)
      ensures r.Err? ==> exists k :: k in old(users) && old(users)[k].username == m.username
    {
      var found: Option<nat> := None;
      var taken := false;
      var ids := users.Keys;
      while ids != {}
        invariant ids <= users.Keys
        invariant found.Some? ==> found.value in users && users[found.value].username == m.username
        invariant taken ==> exists k :: k in users && users[k].username == m.username
        invariant !taken ==> forall k :: k in users && k !in ids ==> users[k].username != m.username
        decreases |ids|
      {
        var k :| k in ids;
        var a := users[k];
        if a.username == m.username {
          taken := true;
          if a.password == m.password && a.firstName == m.firstName && a.email == m.email && a.lastName == m.lastName {
            found := Some(k);
          }
        }
        ids := ids - {k};
      }
      if found.Some? {
        return Ok(found.value);
      }
      if taken {
        return Err(UsernameTaken);
      }
      var id := nextUserId;
      users := users[id := Account(m.username, m.email, m.firstName, m.lastName, m.password, true, joined)];
      nextUserId := nextUserId + 1;
      r := Ok(id);
    }

    /**
     * `AddUserToGroup.post`: only a requester whose single membership has
     * the manager role may add; the member is fetched or created, then
     * enrolled (`EnrolSpec`) in the group (1 when not given). `Http404` from
     * the group lookup is not an `ObjectDoesNotExist`, so a missing group is
     * a server error. Nothing is rolled back: a step that raises keeps the
     * writes before it.
     */
    method AddUserToGroup(requester: nat, m: NewMember, groupCustomId: Option<nat>, joined: int) returns (r: AddReply)
      requires Valid()
      modifies this
      ensures Valid()
      ensures AddPermission(old(memberships), requester) != Created ==> r == AddPermission(old(memberships), requester) && unchanged(this)
      ensures AddPermission(old(memberships), requester) == Created ==>
        || (&& r == ServerError(UsernameTaken) && unchanged(this)
            && exists k :: k in old(users) && old(users)[k].username == m.username)
        || exists u ::
             && (u in old(users) ==> users == old(users) && old(users)[u].username == m.username)
             && (u !in old(users) ==>
                   u == old(nextUserId)
                   && users == old(users)[u := Account(m.username, m.email, m.firstName, m.lastName, m.password, true, joined)])
             && var e := EnrolSpec(old(codes), old(memberships), old(links), groups, shops, u, m, OrKeep(groupCustomId, 1));
                r == e.reply && codes == e.codes && memberships == e.memberships && links == e.links
      ensures r == Created ==> AddPermission(old(memberships), requester) == Created
      ensures r == Created ==> OrKeep(groupCustomId, 1) in groups
      ensures r == Created ==>
        exists u ::
          && u in users && users[u].username == m.username
          && Models.UserGroup(u, OrKeep(groupCustomId, 1), Constant.ROLE_SELLER) in memberships
          && forall s :: s in m.shops ==> Link(u, s) in links
      ensures r == Created ==>
        exists u ::
          && (u in old(users) ==> users == old(users))
          && (u !in old(users) ==>
                u == old(nextUserId)
                && users == old(users)[u := Account(m.username, m.email, m.firstName, m.lastName, m.password, true, joined)])
          && codes == Coded(old(codes), u, m.userCode)
          && memberships == Joined(old(memberships), Models.UserGroup(u, OrKeep(groupCustomId, 1), Constant.ROLE_SELLER))
          && links == LinkAll(old(links), u, m.shops)
      ensures groups == old(groups) && shops == old(shops)
    {
      var permission := AddPermission(memberships, requester);
      if permission != Created {
        return permission;
      }
      var created := GetOrCreateUser(m, joined);
      if created.Err? {
        return ServerError(created.error);
      }
      var u := created.value;
      r := Enrol(u, m, OrKeep(groupCustomId, 1));
      EnrolOutcomes(old(codes), old(memberships), old(links), groups, shops, u, m, OrKeep(groupCustomId, 1));
      if r == Created {
        assert m.shops[..|m.shops|] == m.shops;
      }
    }

    /**
     * The rest of `post` once the member `u` exists: the user code, the
     * seller membership of group `g`, then the shop links.
     */
    method Enrol(u: nat, m: NewMember, g: nat) returns (r: AddReply)
      modifies this`codes, this`memberships, this`links
      ensures var e := EnrolSpec(old(codes), old(memberships), old(links), groups, shops, u, m, g);
        r == e.reply && codes == e.codes && memberships == e.memberships && links == e.links
    {
      if m.userCode != "" {
        if u in codes && codes[u] != Some(m.userCode) {
          return ServerError(CodeTaken);
        }
        codes := codes[u := Some(m.userCode)];
      }
      if g !in groups {
        return ServerError(NoGroup);
      }
      var row := Models.UserGroup(u, g, Constant.ROLE_SELLER);
      if row !in memberships {
        if exists k :: 0 <= k < |memberships| && memberships[k].user == u && memberships[k].groupCustom == g {
          return ServerError(MembershipTaken);
        }
        memberships := memberships + [row];
      }
      var linked := LinkShops(u, m.shops);
      if !linked {
        return ServerError(NoShop);
      }
      r := Created;
    }

    /**
     * The shop loop of `post`: each shop is looked up and linked to the
     * member unless already linked; a missing shop stops the loop, keeping
     * the links made before it.
     */
    method LinkShops(u: nat, shopIds: seq<nat>) returns (linked: bool)
      modifies this`links
      ensures linked <==> forall j :: 0 <= j < |shopIds| ==> shopIds[j] in shops
      ensures links == LinkAll(old(links), u, shopIds[..FirstMissingShop(shopIds, shops)])
    {
      var stop := FirstMissingShop(shopIds, shops);
      for i := 0 to |shopIds|
        invariant i <= stop
        invariant links == LinkAll(old(links), u, shopIds[..i])
      {
        assert shopIds[..i + 1][..i] == shopIds[..i];
        if shopIds[i] !in shops {
          return false;
        }
        if Link(u, shopIds[i]) !in links {
          links := links + [Link(u, shopIds[i])];
        }
      }
      assert shopIds[..|shopIds|] == shopIds;
      return true;
    }

    /**
     * `AddUsertoGroup.post`, the older endpoint: the member is always
     * created (with a hashed password) and joins the requester's own group
     * as a seller.
     */
    method AddUsertoGroup(requester: nat, m: NewMember, joined: int, hash: string -> string) returns (r: AddReply)
      requires Valid()
      modifies this
      ensures Valid()
      ensures AddPermission(old(memberships), requester) != Created ==> r == AddPermission(old(memberships), requester) && unchanged(this)
      ensures r == Created ==>
        && AddPermission(old(memberships), requester) == Created
        && nextUserId == old(nextUserId) + 1
        && users == old(users)[old(nextUserId) := Account(m.username, m.email, m.firstName, m.lastName, hash(m.password), true, joined)]
        && memberships == old(memberships) + [Models.UserGroup(old(nextUserId), MembershipsOf(old(memberships), requester)[0].groupCustom, Constant.ROLE_SELLER)]
        && links == old(links) + seq(|m.shops|, k requires 0 <= k < |m.shops| => Link(old(nextUserId), m.shops[k]))
      ensures AddPermission(old(memberships), requester) == Created ==>
        (r == ServerError(NoUsername) <==> m.username == "")
      ensures AddPermission(old(memberships), requester) == Created ==>
        (r == ServerError(UsernameTaken) <==>
           m.username != "" && exists k :: k in old(users) && old(users)[k].username == m.username)
      ensures r == Created ==> m.username != ""
      ensures r.ServerError? ==> unchanged(this)
    {
      var permission := AddPermission(memberships, requester);
      if permission != Created {
        return permission;
      }
      if m.username == "" {
        return ServerError(NoUsername);
      }
      if exists k :: k in users && users[k].username == m.username {
        return ServerError(UsernameTaken);
      }
      var g := MembershipsOf(memberships, requester)[0].groupCustom;
      var u := nextUserId;
      users := users[u := Account(m.username, m.email, m.firstName, m.lastName, hash(m.password), true, joined)];
      nextUserId := nextUserId + 1;
      memberships := memberships + [Models.UserGroup(u, g, Constant.ROLE_SELLER)];
      ghost var before := links;
      for i := 0 to |m.shops|
        invariant links == before + seq(i, k requires 0 <= k < i => Link(u, m.shops[k]))
        invariant users == old(users)[u := Account(m.username, m.email, m.firstName, m.lastName, hash(m.password), true, joined)]
        invariant nextUserId == u + 1 && memberships == old(memberships) + [Models.UserGroup(u, g, Constant.ROLE_SELLER)]
        invariant Valid()
      {
        links := links + [Link(u, m.shops[i])];
      }
      r := Created;
    }
  }

  // ---------------------------------------------------------------- UserShopListAll.get

  /** The shops of `u` that belong to group `g`, as `(id, name)`. */
  function GroupShops(links: seq<Link>, shops: map<nat, ShopRow>, u: nat, g: nat): seq<(nat, string)>
  {
    if links == [] then []
    else
      var prev := GroupShops(links[..|links| - 1], shops, u, g);
      var l := links[|links| - 1];
      if l.user == u && l.shop in shops && shops[l.shop].groupCustom == g then prev + [(l.shop, shops[l.shop].name)] else prev
  }

  /** One entry per membership of group `g` with role 1 or 2, in membership order. */
  function MemberEntries(rows: seq<Models.UserGroup>, users: map<nat, Account>, codes: map<nat, Option<string>>,
                         links: seq<Link>, shops: map<nat, ShopRow>, g: nat): (r: seq<Member>)
    ensures forall k :: 0 <= k < |r| ==> r[k].userId in users && r[k].account == users[r[k].userId]
  {
    if rows == [] then []
    else
      var prev := MemberEntries(rows[..|rows| - 1], users, codes, links, shops, g);
      var row := rows[|rows| - 1];
      if row.groupCustom == g && (row.role == 1 || row.role == 2) && row.user in users then
        prev + [Member(row.user, users[row.user], if row.user in codes then codes[row.user] else None,
                       GroupShops(links, shops, row.user, g))]
      else prev
  }

  function ActiveOnly(ms: seq<Member>): (r: seq<Member>)
    ensures forall k :: 0 <= k < |r| ==> r[k].account.isActive && r[k] in ms
    ensures forall m :: m in ms && m.account.isActive ==> m in r
  {
    if ms == [] then []
    else
      var prev := ActiveOnly(ms[..|ms| - 1]);
      assert forall m :: m in ms[..|ms| - 1] ==> m in ms;
      if ms[|ms| - 1].account.isActive then prev + [ms[|ms| - 1]] else prev
  }

  /** Insert before the first member who joined no later, keeping equal dates in their order. */
  function InsertByJoined(x: Member, s: seq<Member>): (r: seq<Member>)
    ensures multiset(r) == multiset(s) + multiset{x}
  {
    if s == [] || x.account.dateJoined >= s[0].account.dateJoined then [x] + s
    else
      assert s == [s[0]] + s[1..];
      [s[0]] + InsertByJoined(x, s[1..])
  }

  /** `sort(key=date_joined, reverse=True)`, stable. */
  function SortByJoined(s: seq<Member>): (r: seq<Member>)
    ensures multiset(r) == multiset(s)
  {
    if s == [] then []
    else
      assert s == [s[0]] + s[1..];
      InsertByJoined(s[0], SortByJoined(s[1..]))
  }

  predicate NewestFirst(s: seq<Member>)
  {
    forall i, j :: 0 <= i < j < |s| ==> s[i].account.dateJoined >= s[j].account.dateJoined
  }

  lemma {:induction false} InsertByJoinedSorted(x: Member, s: seq<Member>)
    requires NewestFirst(s)
    ensures NewestFirst(InsertByJoined(x, s))
  {
    if s != [] && x.account.dateJoined < s[0].account.dateJoined {
      InsertByJoinedSorted(x, s[1..]);
      var r := InsertByJoined(x, s);
      forall j | 1 <= j < |r| ensures r[0].account.dateJoined >= r[j].account.dateJoined {
        assert r[j] in multiset(InsertByJoined(x, s[1..]));
        if r[j] != x {
          assert r[j] in s[1..];
        }
      }
    }
  }

  lemma {:induction false} SortByJoinedSorted(s: seq<Member>)
    ensures NewestFirst(SortByJoined(s))
  {
    if s != [] {
      SortByJoinedSorted(s[1..]);
      InsertByJoinedSorted(s[0], SortByJoined(s[1..]));
    }
  }

  datatype GroupListing = GroupListing(groupId: nat, groupName: string, users: seq<Member>)

  function ListingSpec(d: map<nat, string>, rows: seq<Models.UserGroup>, users: map<nat, Account>,
                       codes: map<nat, Option<string>>, links: seq<Link>, shops: map<nat, ShopRow>, g: nat): Option<GroupListing>
  {
    if g !in d then None
    else Some(GroupListing(g, d[g], SortByJoined(ActiveOnly(MemberEntries(rows, users, codes, links, shops, g)))))
  }

  /** The entries as built by the view's loop over the memberships. */
  method BuildEntries(rows: seq<Models.UserGroup>, users: map<nat, Account>, codes: map<nat, Option<string>>,
                      links: seq<Link>, shops: map<nat, ShopRow>, g: nat) returns (entries: seq<Member>)
    ensures entries == MemberEntries(rows, users, codes, links, shops, g)
  {
    entries := [];
    for i := 0 to |rows|
      invariant entries == MemberEntries(rows[..i], users, codes, links, shops, g)
    {
      assert rows[..i + 1][..i] == rows[..i];
      var row := rows[i];
      if row.groupCustom == g && (row.role == 1 || row.role == 2) && row.user in users {
        var code := if row.user in codes then codes[row.user] else None;
        entries := entries + [Member(row.user, users[row.user], code, GroupShops(links, shops, row.user, g))];
      }
    }
    assert rows[..|rows|] == rows;
  }

  /** `UserShopListAll.get`: 404 for an unknown group, else its active managers and sellers, newest first. */
  method UserShopListAll(d: Directory, g: nat) returns (r: Option<GroupListing>)
    ensures r == ListingSpec(d.groups, d.memberships, d.users, d.codes, d.links, d.shops, g)
  {
    if g !in d.groups {
      return None;
    }
    var entries := BuildEntries(d.memberships, d.users, d.codes, d.links, d.shops, g);
    var active: seq<Member> := [];
    for i := 0 to |entries|
      invariant active == ActiveOnly(entries[..i])
    {
      assert entries[..i + 1][..i] == entries[..i];
      if entries[i].account.isActive {
        active := active + [entries[i]];
      }
    }
    assert entries[..|entries|] == entries;
    r := Some(GroupListing(g, d.groups[g], SortByJoined(active)));
  }

  lemma {:induction false} MemberEntriesFrom(rows: seq<Models.UserGroup>, users: map<nat, Account>, codes: map<nat, Option<string>>,
                                             links: seq<Link>, shops: map<nat, ShopRow>, g: nat, m: Member)
    requires m in MemberEntries(rows, users, codes, links, shops, g)
    ensures Models.UserGroup(m.userId, g, 1) in rows || Models.UserGroup(m.userId, g, 2) in rows
  {
    var init := rows[..|rows| - 1];
    if m in MemberEntries(init, users, codes, links, shops, g) {
      MemberEntriesFrom(init, users, codes, links, shops, g, m);
      assert forall x :: x in init ==> x in rows;
    }
  }

  lemma {:induction false} MemberEntriesHas(rows: seq<Models.UserGroup>, users: map<nat, Account>, codes: map<nat, Option<string>>,
                                            links: seq<Link>, shops: map<nat, ShopRow>, g: nat, k: nat)
    requires k < |rows| && rows[k].groupCustom == g && (rows[k].role == 1 || rows[k].role == 2) && rows[k].user in users
    ensures exists m :: m in MemberEntries(rows, users, codes, links, shops, g) && m.userId == rows[k].user
  {
    var init := rows[..|rows| - 1];
    if k < |init| {
      assert init[k] == rows[k];
      MemberEntriesHas(init, users, codes, links, shops, g, k);
      var m :| m in MemberEntries(init, users, codes, links, shops, g) && m.userId == rows[k].user;
      assert m in MemberEntries(rows, users, codes, links, shops, g);
    } else {
      var entries := MemberEntries(rows, users, codes, links, shops, g);
      assert entries[|entries| - 1].userId == rows[k].user;
    }
  }

  /** Every listed user is active, has a manager or seller membership of the group, and the list is newest `date_joined` first. */
  lemma ListingSound(d: map<nat, string>, rows: seq<Models.UserGroup>, users: map<nat, Account>,
                     codes: map<nat, Option<string>>, links: seq<Link>, shops: map<nat, ShopRow>, g: nat)
    requires g in d
    ensures var l := ListingSpec(d, rows, users, codes, links, shops, g).value;
      && NewestFirst(l.users)
      && (forall k :: 0 <= k < |l.users| ==>
            && l.users[k].account.isActive && l.users[k].userId in users
            && (Models.UserGroup(l.users[k].userId, g, 1) in rows || Models.UserGroup(l.users[k].userId, g, 2) in rows))
  {
    var entries := MemberEntries(rows, users, codes, links, shops, g);
    var active := ActiveOnly(entries);
    var sorted := SortByJoined(active);
    SortByJoinedSorted(active);
    forall k | 0 <= k < |sorted|
      ensures sorted[k].account.isActive && sorted[k].userId in users
      ensures Models.UserGroup(sorted[k].userId, g, 1) in rows || Models.UserGroup(sorted[k].userId, g, 2) in rows
    {
      assert sorted[k] in multiset(active);
      assert sorted[k] in active;
      MemberEntriesFrom(rows, users, codes, links, shops, g, sorted[k]);
    }
  }

  /** Every active user with a manager or seller membership of the group is listed. */
  lemma ListingComplete(d: map<nat, string>, rows: seq<Models.UserGroup>, users: map<nat, Account>,
                        codes: map<nat, Option<string>>, links: seq<Link>, shops: map<nat, ShopRow>, g: nat, k: nat)
    requires g in d
    requires k < |rows| && rows[k].groupCustom == g && (rows[k].role == 1 || rows[k].role == 2)
    requires rows[k].user in users && users[rows[k].user].isActive
    ensures exists m :: m in ListingSpec(d, rows, users, codes, links, shops, g).value.users && m.userId == rows[k].user
  {
    var entries := MemberEntries(rows, users, codes, links, shops, g);
    var sorted := SortByJoined(ActiveOnly(entries));
    MemberEntriesHas(rows, users, codes, links, shops, g, k);
    var m :| m in entries && m.userId == rows[k].user;
    assert m in ActiveOnly(entries);
    assert m in multiset(sorted);
    assert m in sorted;
  }
}
