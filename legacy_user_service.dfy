/**
 * The legacy `UserService` of src/services/user.service.ts. Sign-up checks
 * the company code, the email and the employee number in that order, and
 * `updateMe` always verifies the current password. Password hashing and
 * verification are the parameters `hash` and `verify` (`verify(stored, plain)`).
 * Timestamps (`createdAt`, `updatedAt`) are not modelled.
 */
module LegacyUserService {
  import opened Wrappers
  import opened CustomErrors
  import opened UserRepository
  import UserService

  const InvalidCompanyCodeMessage := "Invalid company code"
  const EmailExistsMessage := "Email already exists"
  const EmployeeNumberExistsMessage := "Employee number already exists"
  const UserNotFoundMessage := "User not found"
  const InvalidPasswordMessage := "Invalid password"

  function Err(cls: ErrorClass, message: string): Thrown
    requires cls != Base
  {
    Custom(New(cls, Some(message)))
  }

  /** `SignupRequestDto` */
  datatype SignupRequest = SignupRequest(
    email: string,
    password: string,
    name: string,
    employeeNumber: string,
    phoneNumber: Option<string>,
    companyCode: string,
    imageUrl: Option<string>)

  /** `UpdateMeRequestDto`: `password` is the current password, `newPassword` the replacement */
  datatype UpdateMeRequest = UpdateMeRequest(
    password: string,
    newPassword: Option<string>,
    name: Option<string>,
    phoneNumber: Option<string>,
    imageUrl: Option<string>)

  /** the legacy user DTOs: the row without its password, with the company id */
  datatype UserData = UserData(
    id: int,
    email: string,
    name: string,
    employeeNumber: string,
    phoneNumber: Option<string>,
    imageUrl: Option<string>,
    isAdmin: bool,
    companyId: int)

  function ToUserData(u: User): (r: UserData)
    ensures r.id == u.id && r.email == u.email && r.name == u.name && r.employeeNumber == u.employeeNumber
    ensures r.isAdmin == u.isAdmin && r.companyId == u.companyId
    ensures r.phoneNumber == UserService.OrUndefined(u.phoneNumber) && r.imageUrl == UserService.OrUndefined(u.imageUrl)
  {
    UserData(u.id, u.email, u.name, u.employeeNumber, UserService.OrUndefined(u.phoneNumber),
             UserService.OrUndefined(u.imageUrl), u.isAdmin, u.companyId)
  }

  /** `getMe` and `getUserById`: the same lookup and the same fields */
  function Profile(users: seq<User>, userId: int): (r: Result<UserData, Thrown>)
    ensures r.Failure? <==> UserById(users, userId).None?
    ensures r.Failure? ==> r.error == Err(NotFound, UserNotFoundMessage)
    ensures r.Success? ==> r.value == ToUserData(UserById(users, userId).value) && r.value.id == userId
  {
    match UserById(users, userId)
    case None => Failure(Err(NotFound, UserNotFoundMessage))
    case Some(u) => Success(ToUserData(u))
  }

  function SignupRow(data: SignupRequest, companyId: int, hash: string -> string): NewUser {
    NewUser(data.email, hash(data.password), data.name, data.employeeNumber, data.phoneNumber, data.imageUrl, companyId)
  }

  /**
   * `signup`: all three checks run before the row is created, so the
   * table's unique constraints are never what refuses a legacy sign-up.
   */
  method Signup(db: UserDb, data: SignupRequest, hash: string -> string) returns (r: Result<UserData, Thrown>)
    requires db.Valid()
    modifies db
    ensures db.Valid() && db.companies == old(db.companies)
    ensures CompanyByCode(db.companies, data.companyCode).None? ==>
      r == Failure(Err(BadRequest, InvalidCompanyCodeMessage))
    ensures CompanyByCode(db.companies, data.companyCode).Some? && EmailTaken(old(db.users), data.email) ==>
      r == Failure(Err(Conflict, EmailExistsMessage))
    ensures CompanyByCode(db.companies, data.companyCode).Some? && !EmailTaken(old(db.users), data.email)
            && EmployeeNumberTaken(old(db.users), data.employeeNumber) ==>
      r == Failure(Err(Conflict, EmployeeNumberExistsMessage))
    ensures r.Failure? ==> db.users == old(db.users) && r.error.Custom?
    ensures r.Success? <==>
      CompanyByCode(db.companies, data.companyCode).Some? && !EmailTaken(old(db.users), data.email)
      && !EmployeeNumberTaken(old(db.users), data.employeeNumber)
    ensures r.Success? ==>
      var company := CompanyByCode(db.companies, data.companyCode).value;
      var row := Inserted(SignupRow(data, company.id, hash), old(db.nextUserId));
      && db.users == old(db.users) + [row]
      && r.value == ToUserData(row)
      && Profile(db.users, r.value.id) == r
  {
    var company := CompanyByCode(db.companies, data.companyCode);
    if company.None? {
      return Failure(Err(BadRequest, InvalidCompanyCodeMessage));
    }
    if FindUser(db.users, HasEmail(data.email)).Some? {
      return Failure(Err(Conflict, EmailExistsMessage));
    }
    if FindUser(db.users, HasEmployeeNumber(data.employeeNumber)).Some? {
      return Failure(Err(Conflict, EmployeeNumberExistsMessage));
    }
    ghost var before := db.users;
    var created := db.Create(SignupRow(data, company.value.id, hash));
    assert created.Success?;
    InsertedIsFound(before, old(db.nextUserId), created.value);
    return Success(ToUserData(created.value));
  }

  /** `updateData`: a truthy new password is hashed; the other three columns are copied when defined */
  function UpdateDataFor(d: UpdateMeRequest, hash: string -> string): (p: UserPatch)
    ensures p.password.Some? <==> d.newPassword.Some? && d.newPassword.value != ""
    ensures p.password.Some? ==> p.password.value == hash(d.newPassword.value)
    ensures p.name == d.name && p.phoneNumber == d.phoneNumber && p.imageUrl == d.imageUrl
    ensures p.employeeNumber.None?
  {
    UserPatch(
      d.name,
      if d.newPassword.Some? && d.newPassword.value != "" then Some(hash(d.newPassword.value)) else None,
      None,
      d.phoneNumber,
      d.imageUrl)
  }

  /** The legacy update never touches the employee number, so it never meets the unique constraint. */
  lemma UpdateNeverClashes(users: seq<User>, i: nat, d: UpdateMeRequest, hash: string -> string)
    ensures !EmployeeNumberClash(users, i, UpdateDataFor(d, hash))
  {
  }

  /** An update that only restates the current password leaves the row as it is. */
  lemma PasswordOnlyChangesNothing(u: User, current: string, hash: string -> string)
    ensures Patched(u, UpdateDataFor(UpdateMeRequest(current, None, None, None, None), hash)) == u
  {
  }

  /**
   * `updateMe`: the user must exist and `password` must verify against the
   * stored hash, whoever the user is, before anything is written.
   */
  method UpdateMe(db: UserDb, userId: int, d: UpdateMeRequest, hash: string -> string, verify: (string, string) -> bool)
    returns (r: Result<UserData, Thrown>)
    requires db.Valid()
    modifies db
    ensures db.Valid() && db.companies == old(db.companies) && db.nextUserId == old(db.nextUserId)
    ensures UserById(old(db.users), userId).None? ==> r == Failure(Err(NotFound, UserNotFoundMessage))
    ensures UserById(old(db.users), userId).Some? && !verify(UserById(old(db.users), userId).value.password, d.password) ==>
      r == Failure(Err(Unauthorized, InvalidPasswordMessage))
    ensures r.Failure? ==> db.users == old(db.users)
    ensures r.Success? <==> UserById(old(db.users), userId).Some? && verify(UserById(old(db.users), userId).value.password, d.password)
    ensures r.Success? ==>
      var i := FindUser(old(db.users), HasId(userId)).value;
      && db.users == old(db.users)[i := Patched(old(db.users)[i], UpdateDataFor(d, hash))]
      && Profile(db.users, userId) == r
  {
    var i := FindUser(db.users, HasId(userId));
    if i.None? {
      return Failure(Err(NotFound, UserNotFoundMessage));
    }
    var u := db.users[i.value];
    var ok := verify(u.password, d.password);
    if !ok {
      return Failure(Err(Unauthorized, InvalidPasswordMessage));
    }
    ghost var before := db.users;
    UpdateNeverClashes(db.users, i.value, d, hash);
    var updated := db.Update(i.value, UpdateDataFor(d, hash));
    assert updated.Success?;
    ReplacedIsFound(before, db.nextUserId, i.value, updated.value);
    return Success(ToUserData(updated.value));
  }
}
