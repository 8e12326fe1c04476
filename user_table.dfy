/** The queries and updates the auth routes run against the `User` table. */
module UserTable {
  import opened Wrappers
  import opened Seqs
  import opened Store

  function EmailIs(email: string): User -> bool
  {
    (u: User) => u.email == email
  }

  function IdIs(id: nat): User -> bool
  {
    (u: User) => u.id == id
  }

  /** `user.findUnique({ where: { email } })`. */
  function FindByEmail(users: seq<User>, email: string): (r: Option<nat>)
    ensures r.Some? ==> r.value < |users| && users[r.value].email == email
    ensures r.None? <==> forall u :: u in users ==> u.email != email
  {
    FirstIndex(users, EmailIs(email))
  }

  /** `user.findUnique({ where: { id } })`. */
  function FindById(users: seq<User>, id: nat): (r: Option<nat>)
    ensures r.Some? ==> r.value < |users| && users[r.value].id == id
    ensures r.None? <==> forall u :: u in users ==> u.id != id
  {
    FirstIndex(users, IdIs(id))
  }

  /** With unique emails, the user found by email is the only user with that email. */
  lemma FindByEmailUnique(users: seq<User>, email: string, k: nat)
    requires UsersUnique(users)
    requires k < |users| && users[k].email == email
    ensures FindByEmail(users, email) == Some(k)
  {
    assert users[k] in users;
  }

  /** The `findFirst` filter of validate-reset-token: the token matches and expires after `now`. */
  function TokenValid(token: string, now: int): User -> bool
  {
    (u: User) => u.resetToken == Some(token) && u.resetTokenExpiry.Some? && u.resetTokenExpiry.value > now
  }

  function FindByResetToken(users: seq<User>, token: string, now: int): (r: Option<nat>)
    ensures r.Some? ==>
      && r.value < |users|
      && users[r.value].resetToken == Some(token)
      && users[r.value].resetTokenExpiry.Some?
      && users[r.value].resetTokenExpiry.value > now
    ensures r.None? <==> forall u :: u in users ==>
      !(u.resetToken == Some(token) && u.resetTokenExpiry.Some? && u.resetTokenExpiry.value > now)
  {
    FirstIndex(users, TokenValid(token, now))
  }

  /** The user row `user.create` inserts in register at time `now`: verified email, default role, no reset token. */
  function NewUser(id: nat, email: string, password: string, name: string, now: int): (u: User)
    ensures u.id == id && u.email == email && u.password == password && u.name == name
    ensures u.emailVerified && u.role == DefaultRole && u.createdAt == now
    ensures u.resetToken.None? && u.resetTokenExpiry.None?
  {
    User(id, email, password, name, DefaultRole, true, None, None, now)
  }

  /** Adding a user whose id and email are both new keeps both columns unique. */
  lemma AddUserKeepsUnique(users: seq<User>, u: User)
    requires UsersUnique(users)
    requires forall x :: x in users ==> x.id != u.id && x.email != u.email
    ensures UsersUnique(users + [u])
  {
    PairwiseSnoc(users, u, DistinctUsers);
  }

  function PasswordReset(password: string): User -> User
  {
    (u: User) => u.(password := password, resetToken := None, resetTokenExpiry := None)
  }

  /** `user.update({ where: { id }, data: { password, resetToken: null, resetTokenExpiry: null } })`. */
  function SetPassword(users: seq<User>, id: nat, password: string): (r: seq<User>)
    ensures |r| == |users|
    ensures forall k :: 0 <= k < |users| ==>
      r[k] == if users[k].id == id then users[k].(password := password, resetToken := None, resetTokenExpiry := None) else users[k]
  {
    UpdateWhere(users, IdIs(id), PasswordReset(password))
  }

  function ProfileChange(name: string, email: string): User -> User
  {
    (u: User) => u.(name := name, email := email)
  }

  /** `user.update({ where: { id }, data: { name, email } })`. */
  function SetProfile(users: seq<User>, id: nat, name: string, email: string): (r: seq<User>)
    ensures |r| == |users|
    ensures forall k :: 0 <= k < |users| ==>
      r[k] == if users[k].id == id then users[k].(name := name, email := email) else users[k]
  {
    UpdateWhere(users, IdIs(id), ProfileChange(name, email))
  }

  /** A password reset keeps ids and emails unique. */
  lemma SetPasswordKeepsUnique(users: seq<User>, id: nat, password: string)
    requires UsersUnique(users)
    ensures UsersUnique(SetPassword(users, id, password))
  {
    var r := SetPassword(users, id, password);
    forall a, b | 0 <= a < b < |r| ensures DistinctUsers(r[a], r[b]) {
      assert DistinctUsers(users[a], users[b]);
    }
  }

  /** A profile change keeps emails unique when no other user holds the new email. */
  lemma SetProfileKeepsUnique(users: seq<User>, id: nat, name: string, email: string)
    requires UsersUnique(users)
    requires EmailFreeFor(users, email, id)
    ensures UsersUnique(SetProfile(users, id, name, email))
  {
    var r := SetProfile(users, id, name, email);
    forall a, b | 0 <= a < b < |r| ensures DistinctUsers(r[a], r[b]) {
      assert DistinctUsers(users[a], users[b]);
      assert users[a] in users && users[b] in users;
    }
  }

  /** Some row has the id. */
  ghost predicate HasUser(users: seq<User>, id: nat)
  {
    exists u :: u in users && u.id == id
  }

  /** No row other than `id`'s holds the email. */
  ghost predicate EmailFreeFor(users: seq<User>, email: string, id: nat)
  {
    forall u :: u in users && u.email == email ==> u.id == id
  }

  /** A profile update keeps every id below a bound the ids were below. */
  lemma SetProfileKeepsBound(users: seq<User>, id: nat, name: string, email: string, bound: nat)
    requires forall u :: u in users ==> u.id < bound
    ensures forall u :: u in SetProfile(users, id, name, email) ==> u.id < bound
  {
    var r := SetProfile(users, id, name, email);
    forall u | u in r ensures u.id < bound {
      var k :| 0 <= k < |r| && r[k] == u;
      assert users[k] in users;
    }
  }

  /** The two lookups of `UpdateProfile` decide whether the row exists and the email is free for it. */
  lemma ProfileLookups(users: seq<User>, id: nat, email: string)
    requires UsersUnique(users)
    ensures var taken := FindByEmail(users, email);
      (FindById(users, id).Some? && !(taken.Some? && users[taken.value].id != id))
      <==> HasUser(users, id) && EmailFreeFor(users, email, id)
  {
    var taken := FindByEmail(users, email);
    var found := FindById(users, id);
    if found.Some? {
      assert users[found.value] in users;
    }
    if taken.Some? {
      assert users[taken.value] in users;
      FindByEmailUnique(users, email, taken.value);
      forall u | u in users && u.email == email ensures u.id == users[taken.value].id {
        var k :| 0 <= k < |users| && users[k] == u;
      }
    }
  }

  function IdIsNot(id: nat): User -> bool
  {
    (u: User) => u.id != id
  }

  /** `user.delete({ where: { id } })`, once the row is known to exist. */
  function WithoutUser(users: seq<User>, id: nat): (r: seq<User>)
    ensures forall u :: u in r <==> u in users && u.id != id
  {
    Filter(users, IdIsNot(id))
  }

  /** The `User` model: its rows in insertion order and the next id `create` hands out. */
  class Users {
    var rows: seq<User>
    var nextId: nat

    ghost predicate Valid()
      reads this
    {
      UsersUnique(rows) && forall u :: u in rows ==> u.id < nextId
    }

    constructor ()
      ensures Valid() && rows == []
    {
      rows, nextId := [], 0;
    }

    /**
     * `user.create` in register. It fails, and changes nothing, when the
     * email is taken: `email` is a unique column.
     */
    method Create(email: string, password: string, name: string, now: int) returns (id: Option<nat>)
      requires Valid()
      modifies this
      ensures Valid()
      ensures id.None? <==> exists u :: u in old(rows) && u.email == email
      ensures id.None? ==> rows == old(rows) && nextId == old(nextId)
      ensures id.Some? ==>
        && id.value == old(nextId)
        && rows == old(rows) + [NewUser(id.value, email, password, name, now)]
        && nextId == old(nextId) + 1
    {
      if FindByEmail(rows, email).Some? {
        return None;
      }
      var u := NewUser(nextId, email, password, name, now);
      AddUserKeepsUnique(rows, u);
      rows := rows + [u];
      id := Some(nextId);
      nextId := nextId + 1;
    }

    /** `user.update` in reset-password-otp; `found` is false when no row has the id. */
    method UpdatePassword(id: nat, password: string) returns (found: bool)
      requires Valid()
      modifies this
      ensures Valid()
      ensures found <==> exists u :: u in old(rows) && u.id == id
      ensures rows == SetPassword(old(rows), id, password) && nextId == old(nextId)
    {
      found := FindById(rows, id).Some?;
      SetPasswordKeepsUnique(rows, id, password);
      rows := SetPassword(rows, id, password);
    }

    /**
     * `user.update` in the profile route. It fails, and changes nothing,
     * when no row has the id or another user holds the email.
     */
    method UpdateProfile(id: nat, name: string, email: string) returns (ok: bool)
      requires Valid()
      modifies this
      ensures Valid()
      ensures ok <==> HasUser(old(rows), id) && EmailFreeFor(old(rows), email, id)
      ensures rows == (if ok then SetProfile(old(rows), id, name, email) else old(rows)) && nextId == old(nextId)
      ensures !ok ==> unchanged(this)
    {
      var taken := FindByEmail(rows, email);
      ProfileLookups(rows, id, email);
      ok := FindById(rows, id).Some? && !(taken.Some? && rows[taken.value].id != id);
      if ok {
        SetProfileKeepsUnique(rows, id, name, email);
        SetProfileKeepsBound(rows, id, name, email, nextId);
        rows := SetProfile(rows, id, name, email);
      }
    }

    /** `user.delete({ where: { id } })`; `found` is false when no row has the id. */
    method Delete(id: nat) returns (found: bool)
      requires Valid()
      modifies this
      ensures Valid()
      ensures found <==> exists u :: u in old(rows) && u.id == id
      ensures rows == WithoutUser(old(rows), id) && nextId == old(nextId)
    {
      found := FindById(rows, id).Some?;
      PairwiseFilter(rows, DistinctUsers, IdIsNot(id));
      rows := WithoutUser(rows, id);
    }
  }
}
