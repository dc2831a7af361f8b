/**
 * `UserService` of src/features/users/user.service.ts: sign-up, the caller's
 * own profile, its update and deletion, and the user list offered when a
 * contract is assigned. Password hashing and verification are the
 * parameters `hash` and `verify` (`verify(stored, plain)`).
 */
module UserService {
  import opened Wrappers
  import opened CustomErrors
  import opened UserRepository
  import UserSchema

  const InvalidRequestMessage := "잘못된 요청입니다"
  const EmailExistsMessage := "이미 존재하는 이메일입니다"
  const UserNotFoundMessage := "존재하지 않는 유저입니다"
  const CompanyNotFoundMessage := "존재하지 않는 회사입니다"
  const WrongPasswordMessage := "현재 비밀번호가 맞지 않습니다"

  function Err(cls: ErrorClass, message: string): Thrown
    requires cls != Base
  {
    Custom(New(cls, Some(message)))
  }

  /** `UserResponseDto`: the row without its password, and the company's name */
  datatype UserResponse = UserResponse(
    id: int,
    name: string,
    email: string,
    employeeNumber: string,
    phoneNumber: Option<string>,
    imageUrl: Option<string>,
    isAdmin: bool,
    authProvider: string,
    companyName: string)

  /** `value || undefined`: null and the empty string are both dropped */
  function OrUndefined(s: Option<string>): (r: Option<string>)
    ensures r.Some? <==> UserSchema.Given(s)
    ensures r.Some? ==> r == s
  {
    if UserSchema.Given(s) then s else None
  }

  function ToUserResponse(u: User, c: Company): (r: UserResponse)
    ensures r.id == u.id && r.name == u.name && r.email == u.email && r.employeeNumber == u.employeeNumber
    ensures r.isAdmin == u.isAdmin && r.authProvider == u.authProvider && r.companyName == c.name
    ensures r.phoneNumber != Some("") && r.imageUrl != Some("")
    ensures r.phoneNumber.Some? <==> UserSchema.Given(u.phoneNumber)
    ensures r.imageUrl.Some? <==> UserSchema.Given(u.imageUrl)
    ensures r.phoneNumber.Some? ==> r.phoneNumber == u.phoneNumber
    ensures r.imageUrl.Some? ==> r.imageUrl == u.imageUrl
  {
    UserResponse(u.id, u.name, u.email, u.employeeNumber, OrUndefined(u.phoneNumber), OrUndefined(u.imageUrl),
                 u.isAdmin, u.authProvider, c.name)
  }

  /** `getMe` and `getUserById`: the user, then the user's company, must exist */
  function Profile(users: seq<User>, companies: seq<Company>, userId: int): (r: Result<UserResponse, Thrown>)
    ensures UserById(users, userId).None? ==> r == Failure(Err(NotFound, UserNotFoundMessage))
    ensures UserById(users, userId).Some? && CompanyById(companies, UserById(users, userId).value.companyId).None? ==>
      r == Failure(Err(NotFound, CompanyNotFoundMessage))
    ensures r.Success? <==> UserById(users, userId).Some? && CompanyById(companies, UserById(users, userId).value.companyId).Some?
    ensures r.Success? ==> r.value.id == userId && r.value.companyName == CompanyById(companies, UserById(users, userId).value.companyId).value.name
  {
    match UserById(users, userId)
    case None => Failure(Err(NotFound, UserNotFoundMessage))
    case Some(u) =>
      match CompanyById(companies, u.companyId)
      case None => Failure(Err(NotFound, CompanyNotFoundMessage))
      case Some(c) => Success(ToUserResponse(u, c))
  }

  /** the row `signup` asks the repository to create */
  function SignupRow(data: UserSchema.SignupInput, companyId: int, hash: string -> string): NewUser {
    NewUser(data.email, hash(data.password), data.name, data.employeeNumber, data.phoneNumber, None, companyId)
  }

  /**
   * `signup`: an unknown company code, then a used email, are refused before
   * anything is written. The employee number is not checked here; a used
   * one is refused by the table's unique constraint.
   */
  method Signup(db: UserDb, data: UserSchema.SignupInput, hash: string -> string) returns (r: Result<UserResponse, Thrown>)
    requires db.Valid()
    modifies db
    ensures db.Valid() && db.companies == old(db.companies)
    ensures CompanyByCode(db.companies, data.companyCode).None? ==>
      r == Failure(Err(BadRequest, InvalidRequestMessage)) && db.users == old(db.users)
    ensures CompanyByCode(db.companies, data.companyCode).Some? && EmailTaken(old(db.users), data.email) ==>
      r == Failure(Err(Conflict, EmailExistsMessage)) && db.users == old(db.users)
    ensures CompanyByCode(db.companies, data.companyCode).Some? && !EmailTaken(old(db.users), data.email)
            && EmployeeNumberTaken(old(db.users), data.employeeNumber) ==>
      r == Failure(UniqueViolation("employeeNumber")) && db.users == old(db.users)
    ensures r.Success? <==>
      CompanyByCode(db.companies, data.companyCode).Some? && !EmailTaken(old(db.users), data.email)
      && !EmployeeNumberTaken(old(db.users), data.employeeNumber)
    ensures r.Success? ==>
      var company := CompanyByCode(db.companies, data.companyCode).value;
      var row := Inserted(SignupRow(data, company.id, hash), old(db.nextUserId));
      && db.users == old(db.users) + [row]
      && r.value == ToUserResponse(row, company)
    ensures r.Success? && CompanyById(db.companies, CompanyByCode(db.companies, data.companyCode).value.id)
                          == CompanyByCode(db.companies, data.companyCode) ==>
      Profile(db.users, db.companies, r.value.id) == r
  {
    var company := CompanyByCode(db.companies, data.companyCode);
    if company.None? {
      return Failure(Err(BadRequest, InvalidRequestMessage));
    }
    if FindUser(db.users, HasEmail(data.email)).Some? {
      return Failure(Err(Conflict, EmailExistsMessage));
    }
    ghost var before := db.users;
    var created := db.Create(SignupRow(data, company.value.id, hash));
    if created.Failure? {
      return Failure(created.error);
    }
    InsertedIsFound(before, old(db.nextUserId), created.value);
    return Success(ToUserResponse(created.value, company.value));
  }

  /**
   * What `updateMe` reads from its argument: the parsed body, and a `name`
   * the feature schema never produces (it has no such key, so parsing
   * strips it).
   */
  datatype UpdateMeRequest = UpdateMeRequest(name: Option<string>, input: UserSchema.UpdateMeInput)

  /** the request a parsed body gives */
  function FromSchema(input: UserSchema.UpdateMeInput): UpdateMeRequest {
    UpdateMeRequest(None, input)
  }

  predicate IsGoogleUser(u: User) {
    u.authProvider == GoogleProvider
  }

  /** a non-google user supplied a current password that does not verify */
  predicate WrongCurrentPassword(u: User, d: UpdateMeRequest, verify: (string, string) -> bool) {
    !IsGoogleUser(u) && UserSchema.Given(d.input.currentPassword) && !verify(u.password, d.input.currentPassword.value)
  }

  /** `updateData`, built field by field */
  function UpdateDataFor(u: User, d: UpdateMeRequest, hash: string -> string): (p: UserPatch)
    ensures p.name.Some? <==> IsGoogleUser(u) && d.name.Some?
    ensures p.password.Some? <==> !IsGoogleUser(u) && UserSchema.Given(d.input.password)
    ensures p.password.Some? ==> p.password.value == hash(d.input.password.value)
    ensures p.employeeNumber == d.input.employeeNumber && p.phoneNumber == d.input.phoneNumber
    ensures p.imageUrl.Some? <==> d.input.imageUrl.Some? && d.input.imageUrl.value.Some?
  {
    UserPatch(
      if IsGoogleUser(u) && d.name.Some? then d.name else None,
      if !IsGoogleUser(u) && UserSchema.Given(d.input.password) then Some(hash(d.input.password.value)) else None,
      d.input.employeeNumber,
      d.input.phoneNumber,
      if d.input.imageUrl.Some? && d.input.imageUrl.value.Some? then d.input.imageUrl.value else None)
  }

  /**
   * What an update does to the row: only a google user's name changes,
   * only a non-google user's password changes, the three other columns
   * change when given, and the image is never cleared.
   */
  lemma UpdatePolicy(u: User, d: UpdateMeRequest, hash: string -> string)
    ensures var v := Patched(u, UpdateDataFor(u, d, hash));
      && v.id == u.id && v.email == u.email && v.isAdmin == u.isAdmin && v.companyId == u.companyId
      && (!IsGoogleUser(u) ==> v.name == u.name)
      && (IsGoogleUser(u) ==> v.password == u.password)
      && (IsGoogleUser(u) && d.name.Some? ==> v.name == d.name.value)
      && (!IsGoogleUser(u) && UserSchema.Given(d.input.password) ==> v.password == hash(d.input.password.value))
      && (d.input.employeeNumber.None? ==> v.employeeNumber == u.employeeNumber)
      && (d.input.employeeNumber.Some? ==> v.employeeNumber == d.input.employeeNumber.value)
      && (d.input.phoneNumber.None? ==> v.phoneNumber == u.phoneNumber)
      && (d.input.phoneNumber.Some? ==> v.phoneNumber == d.input.phoneNumber)
      && (u.imageUrl.Some? ==> v.imageUrl.Some?)
  {
  }

  /** Through the schema a name never reaches the service, so no one's name changes. */
  lemma ParsedBodyNeverRenames(u: User, input: UserSchema.UpdateMeInput, hash: string -> string)
    ensures Patched(u, UpdateDataFor(u, FromSchema(input), hash)).name == u.name
  {
  }

  /** An empty body leaves the row as it is. */
  lemma EmptyBodyChangesNothing(u: User, hash: string -> string)
    ensures Patched(u, UpdateDataFor(u, FromSchema(UserSchema.UpdateMeInput(None, None, None, None, None, None)), hash)) == u
  {
  }

  /**
   * `updateMe`: the user must exist; a non-google user's current password,
   * when supplied, must verify; both before anything is written. The
   * company is looked up after the write, so a missing company is reported
   * though the row has changed.
   */
  method UpdateMe(db: UserDb, userId: int, d: UpdateMeRequest, hash: string -> string, verify: (string, string) -> bool)
    returns (r: Result<UserResponse, Thrown>)
    requires db.Valid()
    modifies db
    ensures db.Valid() && db.companies == old(db.companies) && db.nextUserId == old(db.nextUserId)
    ensures UserById(old(db.users), userId).None? ==>
      r == Failure(Err(NotFound, UserNotFoundMessage)) && db.users == old(db.users)
    ensures UserById(old(db.users), userId).Some? && WrongCurrentPassword(UserById(old(db.users), userId).value, d, verify) ==>
      r == Failure(Err(BadRequest, WrongPasswordMessage)) && db.users == old(db.users)
    ensures UserById(old(db.users), userId).Some? && !WrongCurrentPassword(UserById(old(db.users), userId).value, d, verify) ==>
      var i := FindUser(old(db.users), HasId(userId)).value;
      var u := old(db.users)[i];
      var p := UpdateDataFor(u, d, hash);
      && (EmployeeNumberClash(old(db.users), i, p) ==> r == Failure(UniqueViolation("employeeNumber")) && db.users == old(db.users))
      && (!EmployeeNumberClash(old(db.users), i, p) ==>
            && db.users == old(db.users)[i := Patched(u, p)]
            && r == Profile(db.users, db.companies, userId))
  {
    var i := FindUser(db.users, HasId(userId));
    if i.None? {
      return Failure(Err(NotFound, UserNotFoundMessage));
    }
    var u := db.users[i.value];
    if !IsGoogleUser(u) && UserSchema.Given(d.input.currentPassword) {
      var ok := verify(u.password, d.input.currentPassword.value);
      if !ok {
        return Failure(Err(BadRequest, WrongPasswordMessage));
      }
    }
    ghost var before := db.users;
    var updated := db.Update(i.value, UpdateDataFor(u, d, hash));
    if updated.Failure? {
      return Failure(updated.error);
    }
    ReplacedIsFound(before, db.nextUserId, i.value, updated.value);
    var company := CompanyById(db.companies, updated.value.companyId);
    if company.None? {
      return Failure(Err(NotFound, CompanyNotFoundMessage));
    }
    return Success(ToUserResponse(updated.value, company.value));
  }

  /** `deleteMe`: any existing user may delete their own account, an admin included */
  method DeleteMe(db: UserDb, userId: int) returns (r: Result<(), Thrown>)
    requires db.Valid()
    modifies db
    ensures db.Valid() && db.companies == old(db.companies)
    ensures r.Success? <==> UserById(old(db.users), userId).Some?
    ensures r.Failure? ==> r == Failure(Err(NotFound, UserNotFoundMessage)) && db.users == old(db.users)
    ensures r.Success? ==>
      var i := FindUser(old(db.users), HasId(userId)).value;
      db.users == old(db.users)[..i] + old(db.users)[i + 1..] && UserById(db.users, userId).None?
  {
    var i := FindUser(db.users, HasId(userId));
    if i.None? {
      return Failure(Err(NotFound, UserNotFoundMessage));
    }
    db.Delete(i.value);
    return Success(());
  }

  /** one entry of the contract form's user list */
  datatype ContractUser = ContractUser(id: int, data: string)

  /** `getUsersForContract`: every user as `name(email)`, in the repository's order */
  function UsersForContract(users: seq<User>): (r: seq<ContractUser>)
    ensures |r| == |users|
    ensures forall k :: 0 <= k < |users| ==> r[k].id == users[k].id
    ensures forall k :: 0 <= k < |users| ==> r[k].data == users[k].name + "(" + users[k].email + ")"
  {
    seq(|users|, k requires 0 <= k < |users| => ContractUser(users[k].id, users[k].name + "(" + users[k].email + ")"))
  }

  /** The label ends with the email in parentheses, so two users with different emails never share a label. */
  lemma LabelsOfDifferentEmailsDiffer(a: User, b: User)
    requires '(' !in a.email && '(' !in b.email && a.email != b.email
    ensures UsersForContract([a])[0].data != UsersForContract([b])[0].data
  {
    var la := a.name + "(" + a.email + ")";
    var lb := b.name + "(" + b.email + ")";
    if la == lb {
      LabelTail(a.name, a.email, b.name, b.email);
    }
  }

  /** In `n(e)` with no `(` in `e`, the last `(` is the one after `n`. */
  lemma OpenPosition(n: string, e: string)
    requires '(' !in e
    ensures var l := n + "(" + e + ")"; l[|n|] == '(' && forall j :: |n| < j < |l| ==> l[j] != '('
  {
    var l := n + "(" + e + ")";
    forall j | |n| < j < |l| ensures l[j] != '(' {
      if j < |l| - 1 {
        assert l[j] == e[j - |n| - 1];
      }
    }
  }

  lemma LabelTail(n1: string, e1: string, n2: string, e2: string)
    requires '(' !in e1 && '(' !in e2
    requires n1 + "(" + e1 + ")" == n2 + "(" + e2 + ")"
    ensures e1 == e2
  {
    var l := n1 + "(" + e1 + ")";
    OpenPosition(n1, e1);
    OpenPosition(n2, e2);
    assert |n1| == |n2|;
    assert e1 == l[|l| - 1 - |e1|..|l| - 1];
    assert e2 == l[|l| - 1 - |e2|..|l| - 1];
  }
}
