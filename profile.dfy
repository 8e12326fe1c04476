/**
 * app/api/auth/profile/route.ts: `PUT { name, email }` changes the
 * caller's name and email, refusing an email another user holds.
 */
module ProfileRoute {
  import opened Wrappers
  import opened Validation
  import opened Store
  import opened UserTable
  import opened Http

  const Unauthorized: string := "Unauthorized"
  const InvalidInput: string := "Invalid input data"
  const EmailTaken: string := "Email is already taken"
  const InternalError: string := "Internal server error"
  const ProfileUpdatedMessage: string := "Profile updated successfully"

  /** The selected columns of the updated user: `{ id, email, name, role, createdAt }`. */
  datatype ProfileView = ProfileView(id: nat, email: string, name: string, role: string, createdAt: int)

  /** `{ message, user }`. */
  datatype ProfileUpdated = ProfileUpdated(message: string, user: ProfileView)

  /** The request passes `updateProfileSchema`. */
  predicate ValidRequest(name: string, email: string)
  {
    |name| >= 1 && IsEmail(email)
  }

  /** Another user than `id` holds `email`, as the lookup by email finds it. */
  predicate TakenByOther(users: seq<User>, email: string, id: nat)
  {
    FindByEmail(users, email).Some? && users[FindByEmail(users, email).value].id != id
  }

  /** The `user.update` of `PUT` and its response; it throws, giving 500, when the caller's row is gone or the email is held by another row. */
  method Update(users: Users, id: nat, name: string, email: string) returns (r: Response<ProfileUpdated>)
    requires users.Valid()
    modifies users
    ensures users.Valid()
    ensures r.status == 200 <==>
      HasUser(old(users.rows), id) && EmailFreeFor(old(users.rows), email, id)
    ensures r.status != 200 ==> r == Response(500, Error(InternalError)) && unchanged(users)
    ensures r.status == 200 ==>
      && users.rows == SetProfile(old(users.rows), id, name, email)
      && FindById(old(users.rows), id).Some?
      && var before := old(users.rows)[FindById(old(users.rows), id).value];
      && r == Response(200, Ok(ProfileUpdated(ProfileUpdatedMessage, ProfileView(before.id, email, name, before.role, before.createdAt))))
  {
    var found := FindById(users.rows, id);
    var before := users.rows;
    var ok := users.UpdateProfile(id, name, email);
    if !ok {
      return Response(500, Error(InternalError));
    }
    var updated := before[found.value];
    r := Response(200, Ok(ProfileUpdated(ProfileUpdatedMessage, ProfileView(updated.id, email, name, updated.role, updated.createdAt))));
  }

  /**
   * `PUT`; `caller` is the identity `getUserFromRequest` extracts from the
   * request, if any. The update throws, giving 500, when the caller's row
   * is gone or the unique email column refuses the change.
   */
  method Put(users: Users, caller: Option<Claims>, name: string, email: string) returns (r: Response<ProfileUpdated>)
    requires users.Valid()
    modifies users
    ensures users.Valid()
    ensures caller.None? ==> r == Response(401, Error(Unauthorized)) && unchanged(users)
    ensures caller.Some? && !ValidRequest(name, email) ==> r == Response(400, Error(InvalidInput)) && unchanged(users)
    ensures (caller.Some? && ValidRequest(name, email) && email != caller.value.email
             && TakenByOther(old(users.rows), email, caller.value.userId)) ==>
      r == Response(400, Error(EmailTaken)) && unchanged(users)
    ensures r.status == 200 ==>
      && caller.Some? && ValidRequest(name, email)
      && users.rows == SetProfile(old(users.rows), caller.value.userId, name, email)
      && FindById(old(users.rows), caller.value.userId).Some?
      && var before := old(users.rows)[FindById(old(users.rows), caller.value.userId).value];
      && r == Response(200, Ok(ProfileUpdated(ProfileUpdatedMessage, ProfileView(before.id, email, name, before.role, before.createdAt))))
    ensures r.status != 200 ==> unchanged(users)
    ensures (caller.Some? && ValidRequest(name, email) && HasUser(old(users.rows), caller.value.userId)
             && EmailFreeFor(old(users.rows), email, caller.value.userId)) ==>
      r.status == 200
    ensures (caller.Some? && ValidRequest(name, email)
             && !(email != caller.value.email && TakenByOther(old(users.rows), email, caller.value.userId))
             && !(HasUser(old(users.rows), caller.value.userId) && EmailFreeFor(old(users.rows), email, caller.value.userId))) ==>
      r == Response(500, Error(InternalError))
  {
    if caller.None? {
      return Response(401, Error(Unauthorized));
    }
    var user := caller.value;
    if !ValidRequest(name, email) {
      return Response(400, Error(InvalidInput));
    }
    if email != user.email {
      var existingUser := FindByEmail(users.rows, email);
      if existingUser.Some? && users.rows[existingUser.value].id != user.userId {
        assert users.rows[existingUser.value] in users.rows;
        return Response(400, Error(EmailTaken));
      }
    }
    r := Update(users, user.userId, name, email);
  }
}
