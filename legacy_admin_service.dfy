/**
 * The legacy `AdminService.deleteUser` of src/services/admin.service.ts:
 * the same guards as the feature service, with English messages.
 */
module LegacyAdminService {
  import opened Wrappers
  import opened CustomErrors
  import opened UserRepository

  const UserNotFoundMessage := "User not found"
  const AdminNotDeletableMessage := "Cannot delete admin user"

  method DeleteUser(db: UserDb, userId: int) returns (r: Result<(), Thrown>)
    requires db.Valid()
    modifies db
    ensures db.Valid() && db.companies == old(db.companies)
    ensures UserById(old(db.users), userId).None? ==>
      r == Failure(Custom(New(NotFound, Some(UserNotFoundMessage)))) && db.users == old(db.users)
    ensures UserById(old(db.users), userId).Some? && UserById(old(db.users), userId).value.isAdmin ==>
      r == Failure(Custom(New(Forbidden, Some(AdminNotDeletableMessage)))) && UserById(db.users, userId).Some?
    ensures r.Success? <==> UserById(old(db.users), userId).Some? && !UserById(old(db.users), userId).value.isAdmin
    ensures r.Failure? ==> db.users == old(db.users)
    ensures r.Success? ==>
      var i := FindUser(old(db.users), HasId(userId)).value;
      db.users == old(db.users)[..i] + old(db.users)[i + 1..] && UserById(db.users, userId).None?
  {
    var i := FindUser(db.users, HasId(userId));
    if i.None? {
      return Failure(Custom(New(NotFound, Some(UserNotFoundMessage))));
    }
    if db.users[i.value].isAdmin {
      return Failure(Custom(New(Forbidden, Some(AdminNotDeletableMessage))));
    }
    db.Delete(i.value);
    return Success(());
  }
}
