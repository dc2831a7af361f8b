/**
 * `AdminService.deleteUser` of src/features/admin/admin.service.ts: an
 * administrator removes a user of the system. An unknown id and an admin
 * account are refused before anything is written.
 */
module AdminService {
  import opened Wrappers
  import opened CustomErrors
  import opened UserRepository

  const UserNotFoundMessage := "존재하지 않는 유저입니다"
  const AdminNotDeletableMessage := "관리자는 삭제할 수 없습니다"

  method DeleteUser(db: UserDb, userId: int) returns (r: Result<(), Thrown>)
    requires db.Valid()
    modifies db
    ensures db.Valid() && db.companies == old(db.companies)
    ensures UserById(old(db.users), userId).None? ==>
      r == Failure(Custom(New(NotFound, Some(UserNotFoundMessage)))) && db.users == old(db.users)
    ensures UserById(old(db.users), userId).Some? && UserById(old(db.users), userId).value.isAdmin ==>
      r == Failure(Custom(New(Forbidden, Some(AdminNotDeletableMessage)))) && db.users == old(db.users)
    ensures r.Success? <==> UserById(old(db.users), userId).Some? && !UserById(old(db.users), userId).value.isAdmin
    ensures r.Success? ==>
      var i := FindUser(old(db.users), HasId(userId)).value;
      db.users == old(db.users)[..i] + old(db.users)[i + 1..] && UserById(db.users, userId).None?
  {
    var i := FindUser(db.users, HasId(userId));
    if i.None? {
      return Failure(Custom(New(NotFound, Some(UserNotFoundMessage))));
    }
    if db.users[i.value].isAdmin {
      return Failure(Custom(New(Forbidden, Some(AdminNotDeletableMessage))));
    }
    db.Delete(i.value);
    return Success(());
  }
}
