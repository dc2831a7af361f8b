/**
 * The `User` and `Company` tables as the user and admin services see them
 * through their repositories (src/repositories/user.repository.ts and the
 * feature repository of the same shape). Rows are kept in id order. `email`
 * and `employeeNumber` are unique columns: both repositories look users up
 * with `findUnique` on them, so a write that would duplicate one is refused
 * by the database with Prisma's `P2002` error naming the column.
 */
module UserRepository {
  import opened Wrappers
  import opened CustomErrors

  datatype User = User(
    id: int,
    email: string,
    password: string,
    name: string,
    employeeNumber: string,
    phoneNumber: Option<string>,
    imageUrl: Option<string>,
    isAdmin: bool,
    authProvider: string,
    companyId: int)

  datatype Company = Company(id: int, name: string, companyCode: string)

  /** the data `userRepository.create` receives */
  datatype NewUser = NewUser(
    email: string,
    password: string,
    name: string,
    employeeNumber: string,
    phoneNumber: Option<string>,
    imageUrl: Option<string>,
    companyId: int)

  /** the data `userRepository.update` receives: `None` leaves a column as it is */
  datatype UserPatch = UserPatch(
    name: Option<string>,
    password: Option<string>,
    employeeNumber: Option<string>,
    phoneNumber: Option<string>,
    imageUrl: Option<string>)

  const NoChange := UserPatch(None, None, None, None, None)

  /**
   * the provider a row gets when `create` does not name one: the column's
   * database default, which the schema files do not show; the services only
   * ever test whether a provider is `"google"`, so any other text would do
   */
  const DefaultAuthProvider := "local"
  const GoogleProvider := "google"

  const UniqueViolationMessage := "Unique constraint failed"

  /** what Prisma throws when a write would duplicate the unique column `field` */
  function UniqueViolation(field: string): Thrown {
    PrismaKnown("P2002", Some([field]), UniqueViolationMessage)
  }

  /** the first index of a row satisfying `p` */
  function FindUser(users: seq<User>, p: User -> bool): (r: Option<nat>)
    ensures r.None? <==> forall k :: 0 <= k < |users| ==> !p(users[k])
    ensures r.Some? ==> r.value < |users| && p(users[r.value])
    ensures r.Some? ==> forall k :: 0 <= k < r.value ==> !p(users[k])
  {
    if |users| == 0 then None
    else if p(users[0]) then Some(0)
    else
      match FindUser(users[1..], p)
      case None => None
      case Some(k) => Some(k + 1)
  }

  function HasId(id: int): User -> bool { (u: User) => u.id == id }
  function HasEmail(email: string): User -> bool { (u: User) => u.email == email }
  function HasEmployeeNumber(n: string): User -> bool { (u: User) => u.employeeNumber == n }

  /** `findById`: the row with that id, or null */
  function UserById(users: seq<User>, id: int): (r: Option<User>)
    ensures r.None? <==> forall k :: 0 <= k < |users| ==> users[k].id != id
    ensures r.Some? ==> r.value in users && r.value.id == id
  {
    match FindUser(users, HasId(id))
    case None => None
    case Some(i) => Some(users[i])
  }

  predicate EmailTaken(users: seq<User>, email: string) {
    exists k :: 0 <= k < |users| && users[k].email == email
  }

  predicate EmployeeNumberTaken(users: seq<User>, n: string) {
    exists k :: 0 <= k < |users| && users[k].employeeNumber == n
  }

  function CompanyByCode(companies: seq<Company>, code: string): (r: Option<Company>)
    ensures r.None? <==> forall k :: 0 <= k < |companies| ==> companies[k].companyCode != code
    ensures r.Some? ==> r.value in companies && r.value.companyCode == code
  {
    if |companies| == 0 then None
    else if companies[0].companyCode == code then Some(companies[0])
    else CompanyByCode(companies[1..], code)
  }

  function CompanyById(companies: seq<Company>, id: int): (r: Option<Company>)
    ensures r.None? <==> forall k :: 0 <= k < |companies| ==> companies[k].id != id
    ensures r.Some? ==> r.value in companies && r.value.id == id
  {
    if |companies| == 0 then None
    else if companies[0].id == id then Some(companies[0])
    else CompanyById(companies[1..], id)
  }

  /** the row `create` inserts: a non-admin with the default provider */
  function Inserted(data: NewUser, id: int): User {
    User(id, data.email, data.password, data.name, data.employeeNumber, data.phoneNumber,
         data.imageUrl, false, DefaultAuthProvider, data.companyId)
  }

  /** a row after `update`: the given columns are replaced, the others kept */
  function Patched(u: User, p: UserPatch): (r: User)
    ensures r.id == u.id && r.email == u.email && r.isAdmin == u.isAdmin
    ensures r.authProvider == u.authProvider && r.companyId == u.companyId
    ensures r.name == p.name.GetOr(u.name) && r.password == p.password.GetOr(u.password)
    ensures r.employeeNumber == p.employeeNumber.GetOr(u.employeeNumber)
    ensures r.phoneNumber == (if p.phoneNumber.Some? then p.phoneNumber else u.phoneNumber)
    ensures r.imageUrl == (if p.imageUrl.Some? then p.imageUrl else u.imageUrl)
  {
    u.(name := p.name.GetOr(u.name),
       password := p.password.GetOr(u.password),
       employeeNumber := p.employeeNumber.GetOr(u.employeeNumber),
       phoneNumber := if p.phoneNumber.Some? then p.phoneNumber else u.phoneNumber,
       imageUrl := if p.imageUrl.Some? then p.imageUrl else u.imageUrl)
  }

  /** An update with nothing to set leaves the row as it is. */
  lemma NoChangeKeepsRow(u: User)
    ensures Patched(u, NoChange) == u
  {
  }

  /** The table invariant: ids increase and are below the next id; email and employee number are unique. */
  ghost predicate TableOk(users: seq<User>, nextUserId: int) {
    && (forall i, j :: 0 <= i < j < |users| ==> users[i].id < users[j].id)
    && (forall k :: 0 <= k < |users| ==> users[k].id < nextUserId)
    && (forall i, j :: 0 <= i < j < |users| ==> users[i].email != users[j].email)
    && (forall i, j :: 0 <= i < j < |users| ==> users[i].employeeNumber != users[j].employeeNumber)
  }

  /** Dropping one row keeps the invariant, and no remaining row has its id. */
  lemma ForgetOne(users: seq<User>, i: nat, next: int)
    requires TableOk(users, next) && i < |users|
    ensures TableOk(users[..i] + users[i + 1..], next)
    ensures forall u :: u in users[..i] + users[i + 1..] ==> u.id != users[i].id
  {
    var r := users[..i] + users[i + 1..];
    forall a | 0 <= a < |r| ensures r[a] == users[if a < i then a else a + 1] {
    }
  }

  /** `update` with `p` on row `i` would give another user's employee number to it */
  predicate EmployeeNumberClash(users: seq<User>, i: nat, p: UserPatch) {
    p.employeeNumber.Some? && exists k :: 0 <= k < |users| && k != i && users[k].employeeNumber == p.employeeNumber.value
  }

  /** A row appended with the next id is what a lookup of that id finds. */
  lemma InsertedIsFound(users: seq<User>, next: int, u: User)
    requires TableOk(users, next) && u.id == next
    ensures UserById(users + [u], u.id) == Some(u)
  {
    var r := UserById(users + [u], u.id);
    assert (users + [u])[|users|] == u;
    assert r.Some?;
    var k :| 0 <= k < |users + [u]| && (users + [u])[k] == r.value;
    if k < |users| {
      assert (users + [u])[k] == users[k];
    }
  }

  /** A replaced row keeps its id, and is what a lookup of that id finds. */
  lemma ReplacedIsFound(users: seq<User>, next: int, i: nat, v: User)
    requires TableOk(users, next) && i < |users| && v.id == users[i].id
    ensures UserById(users[i := v], v.id) == Some(v)
  {
    var t := users[i := v];
    var r := UserById(t, v.id);
    assert t[i] == v;
    var k :| 0 <= k < |t| && t[k] == r.value;
  }

  /** Replacing a row with the same id and unclashing unique columns keeps the invariant. */
  lemma ReplaceKeepsTable(users: seq<User>, i: nat, u: User, next: int)
    requires TableOk(users, next) && i < |users| && u.id == users[i].id
    requires forall k :: 0 <= k < |users| && k != i ==> users[k].email != u.email && users[k].employeeNumber != u.employeeNumber
    ensures TableOk(users[i := u], next)
  {
  }

  /**
   * The user and company tables. `Create`, `Update` and `Delete` are the
   * repository writes; lookups are the functions above applied to `users`
   * and `companies`.
   */
  class UserDb {
    var users: seq<User>
    var companies: seq<Company>
    var nextUserId: int

    ghost predicate Valid()
      reads this
    {
      TableOk(users, nextUserId)
    }

    constructor (companies: seq<Company>)
      ensures Valid()
      ensures this.users == [] && this.companies == companies && this.nextUserId == 1
    {
      this.users := [];
      this.companies := companies;
      this.nextUserId := 1;
    }

    /** `prisma.user.create`: refused when the email or the employee number is already used */
    method Create(data: NewUser) returns (r: Result<User, Thrown>)
      requires Valid()
      modifies this
      ensures Valid() && companies == old(companies)
      ensures r.Failure? <==> EmailTaken(old(users), data.email) || EmployeeNumberTaken(old(users), data.employeeNumber)
      ensures r.Failure? ==> users == old(users) && nextUserId == old(nextUserId)
      ensures r.Failure? && EmailTaken(old(users), data.email) ==> r.error == UniqueViolation("email")
      ensures r.Failure? && !EmailTaken(old(users), data.email) ==> r.error == UniqueViolation("employeeNumber")
      ensures r.Success? ==> r.value == Inserted(data, old(nextUserId))
      ensures r.Success? ==> users == old(users) + [r.value] && nextUserId == old(nextUserId) + 1
    {
      if FindUser(users, HasEmail(data.email)).Some? {
        return Failure(UniqueViolation("email"));
      }
      if FindUser(users, HasEmployeeNumber(data.employeeNumber)).Some? {
        return Failure(UniqueViolation("employeeNumber"));
      }
      var u := Inserted(data, nextUserId);
      users := users + [u];
      nextUserId := nextUserId + 1;
      return Success(u);
    }

    /**
     * `prisma.user.update` of an existing row: refused when the new employee
     * number belongs to another user (an update never sets the email).
     */
    method Update(i: nat, p: UserPatch) returns (r: Result<User, Thrown>)
      requires Valid() && i < |users|
      modifies this
      ensures Valid() && companies == old(companies) && nextUserId == old(nextUserId)
      ensures r.Failure? <==> EmployeeNumberClash(old(users), i, p)
      ensures r.Failure? ==> r.error == UniqueViolation("employeeNumber") && users == old(users)
      ensures r.Success? ==> r.value == Patched(old(users)[i], p) && users == old(users)[i := r.value]
    {
      var clash := false;
      if p.employeeNumber.Some? {
        var k := FindUser(users, (u: User) => u.employeeNumber == p.employeeNumber.value);
        clash := k.Some? && k.value != i;
        if k.Some? && k.value == i {
          assert forall q :: 0 <= q < |users| && q != i ==> users[q].employeeNumber != p.employeeNumber.value;
        }
      }
      if clash {
        return Failure(UniqueViolation("employeeNumber"));
      }
      var u := Patched(users[i], p);
      ReplaceKeepsTable(users, i, u, nextUserId);
      users := users[i := u];
      return Success(u);
    }

    /** `prisma.user.delete` of an existing row */
    method Delete(i: nat)
      requires Valid() && i < |users|
      modifies this
      ensures Valid() && companies == old(companies) && nextUserId == old(nextUserId)
      ensures users == old(users)[..i] + old(users)[i + 1..]
      ensures UserById(users, old(users)[i].id).None?
    {
      ForgetOne(users, i, nextUserId);
      users := users[..i] + users[i + 1..];
    }
  }
}
