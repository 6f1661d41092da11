/**
 * The request serializers with logic of their own: sign-up and e-mail
 * verification, the package status and fulfillment-name validators, the
 * label-combination task serializer (its duration and its read-only fields)
 * and the package serializer, which creates one product row per entry.
 */
module Serializers {
  import opened Wrappers
  import opened Json
  import Text
  import Models
  import Helpers

  const PasswordMismatch := "Password does not match"
  const InvalidActivation := "Activation link is invalid!"
  const UserMissing := "User matching query does not exist."
  const InvalidStatus := "Trạng thái không hợp lệ."
  const EmptyFulfillmentName := "Fulfillment name không được để trống."
  const LongFulfillmentName := "Fulfillment name không được dài quá 500 ký tự."
  const MaxFulfillmentName := 500

  /** The fields a sign-up request carries; each may be absent. */
  datatype SignUpData = SignUpData(
    username: Option<string>, email: Option<string>, password1: Option<string>, password2: Option<string>,
    firstName: Option<string>, lastName: Option<string>)

  /** The `User` columns the model reads and writes. */
  datatype User = User(
    id: nat, username: string, email: string, password: string,
    firstName: string, lastName: string, isActive: bool, verifyToken: string)

  /**
   * The validators the sign-up fields call that are not modelled: Django's
   * `EmailValidator` and `validate_password` (called without a user, so
   * with the length, common-password and numeric checks only), which gives
   * its messages, none for a password it accepts.
   */
  datatype Validators = Validators(isEmail: string -> bool, passwordErrors: string -> seq<string>)

  /** The field limits of `SignUpSerializers` and of the `User` name columns. */
  const MaxUsername := 30
  const MaxEmail := 100
  const MaxPassword := 255
  const MaxName := 150

  /** The messages of Django REST framework's field checks. */
  const Required := "This field is required."
  const Blank := "This field may not be blank."
  const NotUnique := "This field must be unique."
  const NullCharacters := "Null characters are not allowed."
  const InvalidEmail := "Enter a valid email address."

  function TooLong(maxLength: nat): string
  {
    "Ensure this field has no more than " + Text.NatToString(maxLength) + " characters."
  }

  /** Every `CharField` trims surrounding whitespace before validating. */
  function Clean(d: SignUpData): SignUpData
  {
    SignUpData(StripGiven(d.username), StripGiven(d.email), StripGiven(d.password1), StripGiven(d.password2),
               StripGiven(d.firstName), StripGiven(d.lastName))
  }

  function StripGiven(v: Option<string>): Option<string>
  {
    if v.Some? then Some(Text.Strip(v.value)) else None
  }

  predicate UsernameTaken(users: map<nat, User>, name: string)
  {
    exists id :: id in users && users[id].username == name
  }

  predicate EmailTaken(users: map<nat, User>, email: string)
  {
    exists id :: id in users && users[id].email == email
  }

  /**
   * The validators every `CharField` appends after its own: the length
   * limit, then the null-character check (the surrogate check cannot fail
   * on a Dafny string).
   */
  function LengthAndNull(s: string, maxLength: nat): seq<string>
  {
    (if |s| > maxLength then [TooLong(maxLength)] else []) + (if '\0' in s then [NullCharacters] else [])
  }

  /** `username`: required, not blank, then `UniqueValidator`, the length and the null characters. */
  function UsernameMessages(users: map<nat, User>, v: Option<string>): seq<string>
  {
    if v.None? then [Required]
    else if v.value == "" then [Blank]
    else (if UsernameTaken(users, v.value) then [NotUnique] else []) + LengthAndNull(v.value, MaxUsername)
  }

  /** `email`: as the username, then `EmailValidator`. */
  function EmailMessages(users: map<nat, User>, v: Option<string>, checks: Validators): seq<string>
  {
    if v.None? then [Required]
    else if v.value == "" then [Blank]
    else
      (if EmailTaken(users, v.value) then [NotUnique] else []) + LengthAndNull(v.value, MaxEmail)
      + (if checks.isEmail(v.value) then [] else [InvalidEmail])
  }

  /** `password1`: required, not blank, then `validate_password`, the length and the null characters. */
  function Password1Messages(v: Option<string>, checks: Validators): seq<string>
  {
    if v.None? then [Required]
    else if v.value == "" then [Blank]
    else checks.passwordErrors(v.value) + LengthAndNull(v.value, MaxPassword)
  }

  function Password2Messages(v: Option<string>): seq<string>
  {
    if v.None? then [Required]
    else if v.value == "" then [Blank]
    else LengthAndNull(v.value, MaxPassword)
  }

  /** `first_name` and `last_name`, built from the model: optional, blank allowed, at most 150 characters. */
  function NameMessages(v: Option<string>): seq<string>
  {
    if v.None? || v.value == "" then [] else LengthAndNull(v.value, MaxName)
  }

  /** The keys of `serializer.errors`: the sign-up fields, and the key of the errors `validate` raises. */
  datatype ErrorKey = Username | Email | Password1 | Password2 | FirstName | LastName | NonField
  {
    /** The key as it appears in the reply. */
    function Name(): string
    {
      match this
      case Username => "username"
      case Email => "email"
      case Password1 => "password1"
      case Password2 => "password2"
      case FirstName => "first_name"
      case LastName => "last_name"
      case NonField => "non_field_errors"
    }
  }

  /** The messages of field `f` on the cleaned data `c`. */
  function Messages(users: map<nat, User>, c: SignUpData, v: Validators, f: ErrorKey): seq<string>
  {
    match f
    case Username => UsernameMessages(users, c.username)
    case Email => EmailMessages(users, c.email, v)
    case Password1 => Password1Messages(c.password1, v)
    case Password2 => Password2Messages(c.password2)
    case FirstName => NameMessages(c.firstName)
    case LastName => NameMessages(c.lastName)
    case NonField => []
  }

  /** `serializer.errors` after the field validation of `c`: each failed field with its messages. */
  function FieldErrors(users: map<nat, User>, c: SignUpData, v: Validators): map<ErrorKey, seq<string>>
  {
    map f: ErrorKey | !f.NonField? && Messages(users, c, v, f) != [] :: Messages(users, c, v, f)
  }

  /** Whether each field passes its checks, stated directly. */
  predicate UsernameValid(users: map<nat, User>, v: Option<string>)
  {
    v.Some? && v.value != "" && |v.value| <= MaxUsername && '\0' !in v.value && !UsernameTaken(users, v.value)
  }

  predicate EmailValid(users: map<nat, User>, v: Option<string>, checks: Validators)
  {
    v.Some? && v.value != "" && |v.value| <= MaxEmail && '\0' !in v.value && checks.isEmail(v.value)
    && !EmailTaken(users, v.value)
  }

  predicate Password1Valid(v: Option<string>, checks: Validators)
  {
    v.Some? && v.value != "" && |v.value| <= MaxPassword && '\0' !in v.value && checks.passwordErrors(v.value) == []
  }

  predicate Password2Valid(v: Option<string>)
  {
    v.Some? && v.value != "" && |v.value| <= MaxPassword && '\0' !in v.value
  }

  predicate NameValid(v: Option<string>)
  {
    v.None? || (|v.value| <= MaxName && '\0' !in v.value)
  }

  lemma LengthAndNullEmpty(s: string, maxLength: nat)
    ensures LengthAndNull(s, maxLength) == [] <==> |s| <= maxLength && '\0' !in s
  {
  }

  /** Whether field `f` passes its checks. */
  predicate FieldValid(users: map<nat, User>, c: SignUpData, v: Validators, f: ErrorKey)
  {
    match f
    case Username => UsernameValid(users, c.username)
    case Email => EmailValid(users, c.email, v)
    case Password1 => Password1Valid(c.password1, v)
    case Password2 => Password2Valid(c.password2)
    case FirstName => NameValid(c.firstName)
    case LastName => NameValid(c.lastName)
    case NonField => true
  }

  /** A field has messages exactly when it fails its checks. */
  lemma MessagesExact(users: map<nat, User>, c: SignUpData, v: Validators, f: ErrorKey)
    ensures Messages(users, c, v, f) == [] <==> FieldValid(users, c, v, f)
  {
    match f
    case Username => if c.username.Some? { LengthAndNullEmpty(c.username.value, MaxUsername); }
    case Email => if c.email.Some? { LengthAndNullEmpty(c.email.value, MaxEmail); }
    case Password1 => if c.password1.Some? { LengthAndNullEmpty(c.password1.value, MaxPassword); }
    case Password2 => if c.password2.Some? { LengthAndNullEmpty(c.password2.value, MaxPassword); }
    case FirstName => if c.firstName.Some? { LengthAndNullEmpty(c.firstName.value, MaxName); }
    case LastName => if c.lastName.Some? { LengthAndNullEmpty(c.lastName.value, MaxName); }
    case NonField =>
  }

  /**
   * A field is reported exactly when it fails its checks, with the
   * messages of its checks.
   */
  lemma FieldErrorsExact(users: map<nat, User>, c: SignUpData, v: Validators)
    ensures var e := FieldErrors(users, c, v);
      forall f :: f in e <==> !f.NonField? && !FieldValid(users, c, v, f)
    ensures var e := FieldErrors(users, c, v);
      forall f :: f in e ==> e[f] == Messages(users, c, v, f)
  {
    forall f: ErrorKey ensures Messages(users, c, v, f) == [] <==> FieldValid(users, c, v, f) {
      MessagesExact(users, c, v, f);
    }
  }

  /** The outcome of `is_valid()`: the field errors, the password mismatch of `validate`, or the cleaned data. */
  datatype SignUpCheck = FieldsRejected(errors: map<ErrorKey, seq<string>>) | PasswordsDiffer | Accepted(data: SignUpData)

  /**
   * `SignUpSerializers.is_valid()` on the trimmed data `c`: the field
   * validators run first, and `validate` compares the passwords only when
   * every field passed.
   */
  function ValidateSignUp(users: map<nat, User>, c: SignUpData, v: Validators): (r: SignUpCheck)
    ensures r.Accepted? <==>
      && UsernameValid(users, c.username) && EmailValid(users, c.email, v)
      && Password1Valid(c.password1, v) && Password2Valid(c.password2)
      && NameValid(c.firstName) && NameValid(c.lastName)
      && c.password1 == c.password2
    ensures r.Accepted? ==> r.data == c
    ensures r.FieldsRejected? ==> r.errors != map[] && r.errors == FieldErrors(users, c, v)
    ensures r.PasswordsDiffer? ==> FieldErrors(users, c, v) == map[] && c.password1 != c.password2
  {
    FieldErrorsExact(users, c, v);
    var errors := FieldErrors(users, c, v);
    assert errors == map[] <==>
      Username !in errors && Email !in errors && Password1 !in errors && Password2 !in errors
      && FirstName !in errors && LastName !in errors;
    if errors != map[] then FieldsRejected(errors)
    else if c.password1 != c.password2 then PasswordsDiffer
    else Accepted(c)
  }

  /** The body of the 400 reply: `serializer.errors`, the mismatch under `non_field_errors`. */
  function Rejection(r: SignUpCheck): map<ErrorKey, seq<string>>
  {
    match r
    case PasswordsDiffer => map[NonField := [PasswordMismatch]]
    case FieldsRejected(errors) => errors
    case Accepted(_) => map[]
  }

  /** The row `create_user(..., is_active=False)` writes for the cleaned data `c`; the password is stored hashed. */
  function NewUser(id: nat, c: SignUpData, token: string, hash: string -> string): User
    requires c.username.Some? && c.email.Some? && c.password1.Some? && c.firstName.Some? && c.lastName.Some?
  {
    User(id, c.username.value, c.email.value, hash(c.password1.value), c.firstName.value, c.lastName.value, false, token)
  }

  /** The outcomes of a sign-up: created, rejected with `serializer.errors`, or a `KeyError` (str of the key) from `create`. */
  datatype SignUpReply = Created(user: User) | Rejected(errors: map<ErrorKey, seq<string>>) | Crashed(error: string)

  /**
   * `create` reads `validated_data["first_name"]` then `["last_name"]`; a
   * name the request left out is not in the validated data, so the read
   * raises `KeyError` before `create_user` runs.
   */
  function MissingName(c: SignUpData): Option<string>
  {
    if c.firstName.None? then Some("'first_name'")
    else if c.lastName.None? then Some("'last_name'")
    else None
  }

  /** A username already in the table is rejected, whatever the rest of the request. */
  lemma TakenUsernameRejected(users: map<nat, User>, c: SignUpData, v: Validators, id: nat)
    requires id in users && c.username == Some(users[id].username) && users[id].username != ""
    ensures ValidateSignUp(users, c, v).FieldsRejected?
    ensures NotUnique in ValidateSignUp(users, c, v).errors[Username]
  {
    assert UsernameTaken(users, c.username.value);
    FieldErrorsExact(users, c, v);
    assert Username in FieldErrors(users, c, v);
  }

  /** Sending the same accepted sign-up twice: the second request is rejected on the username and the e-mail. */
  lemma SignUpTwiceRejected(users: map<nat, User>, c: SignUpData, v: Validators, id: nat, token: string,
                            hash: string -> string)
    requires ValidateSignUp(users, c, v).Accepted? && MissingName(c).None?
    ensures ValidateSignUp(users[id := NewUser(id, c, token, hash)], c, v).FieldsRejected?
    ensures NotUnique in ValidateSignUp(users[id := NewUser(id, c, token, hash)], c, v).errors[Username]
    ensures NotUnique in ValidateSignUp(users[id := NewUser(id, c, token, hash)], c, v).errors[Email]
  {
    var after := users[id := NewUser(id, c, token, hash)];
    assert after[id].username == c.username.value && after[id].email == c.email.value;
    assert UsernameTaken(after, c.username.value) && EmailTaken(after, c.email.value);
    FieldErrorsExact(after, c, v);
  }

  /** `VerifySerializers.validate` for user `pk`, over the stored users. */
  function ValidateVerify(users: map<nat, User>, pk: nat, token: string): (r: Result<nat>)
    ensures r.Ok? <==> pk in users && Helpers.CheckToken(users[pk].verifyToken, token)
    ensures r.Ok? ==> r.value == pk
    ensures r.Err? && pk in users ==> r.error == InvalidActivation
  {
    if pk !in users then Err(UserMissing)
    else if !Helpers.CheckToken(users[pk].verifyToken, token) then Err(InvalidActivation)
    else Ok(pk)
  }

  /** The users table and the two serializers that write it. */
  class Users {
    var users: map<nat, User>
    var nextId: nat

    ghost predicate Valid()
      reads this
    {
      forall id :: id in users ==> users[id].id == id && id < nextId
    }

    constructor ()
      ensures Valid() && users == map[] && nextId == 1
    {
      users := map[];
      nextId := 1;
    }

    /**
     * `SignUpSerializers`: trim and validate, then `create_user(...,
     * is_active=False)` with the given verification token and the password
     * hashed by `hash`. A rejected or crashed request writes nothing.
     */
    method SignUp(d: SignUpData, token: string, v: Validators, hash: string -> string) returns (r: SignUpReply)
      requires Valid()
      modifies this
      ensures Valid()
      ensures r.Rejected? <==> !ValidateSignUp(old(users), Clean(d), v).Accepted?
      ensures r.Rejected? ==> r.errors == Rejection(ValidateSignUp(old(users), Clean(d), v))
      ensures r.Crashed? <==> ValidateSignUp(old(users), Clean(d), v).Accepted? && MissingName(Clean(d)).Some?
      ensures r.Crashed? ==> r.error == MissingName(Clean(d)).value
      ensures !r.Created? ==> users == old(users) && nextId == old(nextId)
      ensures r.Created? ==>
        && r.user == NewUser(old(nextId), Clean(d), token, hash)
        && users == old(users)[old(nextId) := r.user] && nextId == old(nextId) + 1
    {
      r := Register(Clean(d), token, v, hash);
    }

    /** `is_valid()` and `save()` on the trimmed data `c`. */
    method Register(c: SignUpData, token: string, v: Validators, hash: string -> string) returns (r: SignUpReply)
      requires Valid()
      modifies this
      ensures Valid()
      ensures r.Rejected? <==> !ValidateSignUp(old(users), c, v).Accepted?
      ensures r.Rejected? ==> r.errors == Rejection(ValidateSignUp(old(users), c, v))
      ensures r.Crashed? <==> ValidateSignUp(old(users), c, v).Accepted? && MissingName(c).Some?
      ensures r.Crashed? ==> r.error == MissingName(c).value
      ensures !r.Created? ==> users == old(users) && nextId == old(nextId)
      ensures r.Created? ==>
        && r.user == NewUser(old(nextId), c, token, hash)
        && users == old(users)[old(nextId) := r.user] && nextId == old(nextId) + 1
    {
      var checked := ValidateSignUp(users, c, v);
      if !checked.Accepted? {
        return Rejected(Rejection(checked));
      }
      var missing := MissingName(c);
      if missing.Some? {
        return Crashed(missing.value);
      }
      var u := NewUser(nextId, c, token, hash);
      users := users[nextId := u];
      nextId := nextId + 1;
      r := Created(u);
    }

    /** `VerifySerializers`: validate the token, then `update` sets `is_active`. */
    method Verify(pk: nat, token: string) returns (r: Result<nat>)
      requires Valid()
      modifies this`users
      ensures Valid()
      ensures r == ValidateVerify(old(users), pk, token)
      ensures r.Ok? ==> users == old(users)[pk := old(users)[pk].(isActive := true)]
      ensures r.Err? ==> users == old(users)
    {
      r := ValidateVerify(users, pk, token);
      if r.Ok? {
        users := users[pk := users[pk].(isActive := true)];
      }
    }
  }

  /** A user is activated only by presenting the stored token. */
  lemma ActivationNeedsToken(users: map<nat, User>, pk: nat, token: string)
    requires pk in users && token != users[pk].verifyToken
    ensures ValidateVerify(users, pk, token) == Err(InvalidActivation)
  {
  }

  /** `PackageStatusUpdateSerializer.validate_status`: only a `PackageStatus` value passes. */
  function ValidateStatus(v: string): (r: Result<string>)
    ensures r.Ok? <==> exists p :: p in Models.AllPackageStatuses && p.Value() == v
    ensures r.Ok? ==> r.value == v
    ensures r.Err? ==> r.error == InvalidStatus
  {
    if Models.PackageStatusFromValue(v).Some? then Ok(v) else Err(InvalidStatus)
  }

  /** Every status value is accepted. */
  lemma EveryStatusAccepted(p: Models.PackageStatus)
    ensures ValidateStatus(p.Value()) == Ok(p.Value())
  {
    Models.PackageStatusRoundTrip(p);
  }

  /**
   * `validate_fulfillment_name`: `None`, empty and blank names are rejected
   * first, then names of more than 500 characters.
   */
  function ValidateFulfillmentName(v: Option<string>): (r: Result<string>)
    ensures r.Ok? <==> v.Some? && Text.Strip(v.value) != "" && |v.value| <= MaxFulfillmentName
    ensures r.Ok? ==> r.value == v.value
    ensures r.Err? && (v.None? || Text.Strip(v.value) == "") ==> r.error == EmptyFulfillmentName
    ensures r.Err? && v.Some? && Text.Strip(v.value) != "" ==> r.error == LongFulfillmentName
  {
    if v.None? || v.value == "" || |Text.Strip(v.value)| == 0 then Err(EmptyFulfillmentName)
    else if |v.value| > MaxFulfillmentName then Err(LongFulfillmentName)
    else Ok(v.value)
  }

  /** A long name made only of spaces reports the blank-name error, not the length error. */
  lemma BlankCheckedBeforeLength()
    ensures var blank := seq(501, i => ' ');
      ValidateFulfillmentName(Some(blank)) == Err(EmptyFulfillmentName)
  {
    var blank := seq(501, i => ' ');
    BlankStrip(blank);
  }

  lemma {:induction false} BlankStrip(s: string)
    requires forall i :: 0 <= i < |s| ==> s[i] == ' '
    ensures Text.Strip(s) == ""
  {
    assert Text.IsSpace(' ');
    Text.StripEnds(s);
  }

  /**
   * `get_duration` in seconds, with timestamps as whole seconds: finished
   * tasks measure start to finish, running tasks start to `now`, tasks not
   * started have none.
   */
  function Duration(startedAt: Option<int>, completedAt: Option<int>, now: int): (r: Option<int>)
    ensures r.Some? <==> startedAt.Some?
  {
    if startedAt.Some? && completedAt.Some? then Some(completedAt.value - startedAt.value)
    else if startedAt.Some? then Some(now - startedAt.value)
    else None
  }

  /** Once a task has finished, its duration no longer depends on the clock. */
  lemma DurationFrozenOnceCompleted(s: int, c: int, now1: int, now2: int)
    ensures Duration(Some(s), Some(c), now1) == Duration(Some(s), Some(c), now2) == Some(c - s)
  {
  }

  /** While a task runs, its duration grows with the clock and reads as if it finished now. */
  lemma DurationGrowsWhileRunning(s: int, now1: int, now2: int)
    requires now1 <= now2
    ensures Duration(Some(s), None, now1).value <= Duration(Some(s), None, now2).value
    ensures Duration(Some(s), None, now2) == Duration(Some(s), Some(now2), now1)
  {
  }

  /** The fields the task serializer declares. */
  datatype TaskField =
    | Id | UserField | CreatedAt | UpdatedAt | StartedAt | CompletedAt | Urls | TotalUrls
    | Status | StatusDisplay | SuccessfulCount | FailedCount | SuccessfulUrls | FailedUrls
    | DriveLink | ErrorMessage | DurationField

  const TaskFields: seq<TaskField> := [
    Id, UserField, CreatedAt, UpdatedAt, StartedAt, CompletedAt, Urls, TotalUrls, Status,
    StatusDisplay, SuccessfulCount, FailedCount, SuccessfulUrls, FailedUrls, DriveLink,
    ErrorMessage, DurationField]
  const TaskReadOnlyFields: seq<TaskField> := [
    Id, UserField, CreatedAt, UpdatedAt, StartedAt, CompletedAt, Status, SuccessfulCount,
    FailedCount, SuccessfulUrls, FailedUrls, DriveLink, ErrorMessage]
  /** `status_display` and `duration` are computed fields, read-only by declaration. */
  const TaskComputedFields: seq<TaskField> := [StatusDisplay, DurationField]

  /** Listed as read-only, or computed. */
  predicate ReadOnly(f: TaskField)
  {
    !(f.Urls? || f.TotalUrls?)
  }

  /**
   * `ReadOnly` is exactly the two declarations above, so of the declared
   * fields only `urls` and `total_urls` are writable.
   */
  lemma ReadOnlyAsDeclared(f: TaskField)
    ensures f in TaskFields
    ensures ReadOnly(f) <==> f in TaskReadOnlyFields || f in TaskComputedFields
  {
  }

  /** A write to the task serializer: any field may be sent. */
  datatype TaskPatch = TaskPatch(
    urls: Option<seq<string>>, totalUrls: Option<nat>, status: Option<Models.TaskStatus>,
    successfulCount: Option<nat>, failedCount: Option<nat>, driveLink: Option<string>,
    errorMessage: Option<string>)

  /** Saving a patch through the serializer: only `urls` and `total_urls` are taken. */
  function ApplyPatch(t: Models.CombineLabelTask, p: TaskPatch): (r: Models.CombineLabelTask)
    ensures r.urls == (if p.urls.Some? then p.urls.value else t.urls)
    ensures r.totalUrls == (if p.totalUrls.Some? then p.totalUrls.value else t.totalUrls)
    ensures r.(urls := t.urls, totalUrls := t.totalUrls) == t
  {
    var urls := if p.urls.Some? then p.urls.value else t.urls;
    var total := if p.totalUrls.Some? then p.totalUrls.value else t.totalUrls;
    t.(urls := urls, totalUrls := total)
  }

  /** Whatever a client sends, the status and the results stay as the worker wrote them. */
  lemma PatchKeepsResults(t: Models.CombineLabelTask, p: TaskPatch)
    ensures var r := ApplyPatch(t, p);
      r.status == t.status && r.successfulCount == t.successfulCount && r.failedCount == t.failedCount
      && r.successfulUrls == t.successfulUrls && r.failedUrls == t.failedUrls
      && r.driveLink == t.driveLink && r.errorMessage == t.errorMessage
  {
    var r := ApplyPatch(t, p);
    assert r.(urls := t.urls, totalUrls := t.totalUrls) == t;
  }

  /** A stored package and a stored product line. */
  datatype Package = Package(id: nat, fields: seq<(string, Json)>)
  datatype ProductPackage = ProductPackage(id: nat, package: nat, fields: seq<(string, Json)>)

  /** The product lines `create` writes for package `pkg`, ids counted up from `first`. */
  function LinkedProducts(pkg: nat, first: nat, products: seq<seq<(string, Json)>>): (r: seq<ProductPackage>)
    ensures |r| == |products|
    ensures forall i :: 0 <= i < |r| ==> r[i] == ProductPackage(first + i, pkg, products[i])
  {
    seq(|products|, i requires 0 <= i < |products| => ProductPackage(first + i, pkg, products[i]))
  }

  /** The packages table and the product lines linked to them. */
  class Packages {
    var packages: seq<Package>
    var products: seq<ProductPackage>
    var nextPackageId: nat
    var nextProductId: nat

    ghost predicate Valid()
      reads this
    {
      (forall i :: 0 <= i < |packages| ==> packages[i].id < nextPackageId)
      && (forall i :: 0 <= i < |products| ==> products[i].id < nextProductId)
    }

    constructor ()
      ensures Valid() && packages == [] && products == []
    {
      packages, products := [], [];
      nextPackageId, nextProductId := 1, 1;
    }

    /**
     * `PackageSerializer.create`: the `products` entry is taken out, the
     * package is created from the rest, then one product line per entry.
     */
    method Create(fields: seq<(string, Json)>, productData: seq<seq<(string, Json)>>) returns (pkg: Package)
      requires Valid()
      modifies this
      ensures Valid()
      ensures pkg == Package(old(nextPackageId), fields)
      ensures packages == old(packages) + [pkg] && nextPackageId == old(nextPackageId) + 1
      ensures products == old(products) + LinkedProducts(pkg.id, old(nextProductId), productData)
      ensures nextProductId == old(nextProductId) + |productData|
    {
      pkg := Package(nextPackageId, fields);
      packages := packages + [pkg];
      nextPackageId := nextPackageId + 1;
      var added := AddProducts(pkg.id, nextProductId, productData);
      products := products + added;
      nextProductId := nextProductId + |productData|;
    }
  }

  /** The product-line loop of `create`, one `ProductPackage.objects.create` per entry. */
  method AddProducts(pkg: nat, first: nat, productData: seq<seq<(string, Json)>>) returns (added: seq<ProductPackage>)
    ensures added == LinkedProducts(pkg, first, productData)
  {
    added := [];
    var next := first;
    for i := 0 to |productData|
      invariant next == first + i
      invariant added == LinkedProducts(pkg, first, productData[..i])
    {
      added := added + [ProductPackage(next, pkg, productData[i])];
      next := next + 1;
    }
    assert productData[..|productData|] == productData;
  }

  /** Every line `create` writes belongs to the new package, one per entry, in order. */
  lemma LinkedToPackage(pkg: nat, first: nat, productData: seq<seq<(string, Json)>>)
    ensures forall p :: p in LinkedProducts(pkg, first, productData) ==> p.package == pkg
    ensures forall i :: 0 <= i < |productData| ==> LinkedProducts(pkg, first, productData)[i].fields == productData[i]
  {
  }
}
