/** `userController.js`: administrators creating, updating, suspending, reactivating and
    deleting user accounts. `doHash` is the parameter `hash`. */
module UserController {
  import opened Common
  import opened Text
  import opened Validator
  import opened Records
  import opened Store
  import AuthMiddleware

  /** `profile || {}`: the stored profile of a request's profile. */
  function ProfileOf(p: Option<ProfileRequest>): (q: Profile)
    ensures p.None? ==> q == EmptyProfile
    ensures p.Some? ==> q.firstName == p.value.firstName && q.lastName == p.value.lastName && q.phone == p.value.phone
  {
    if p.None? then EmptyProfile
    else Profile(p.value.firstName, p.value.lastName, p.value.phone, p.value.address, p.value.dateOfBirth,
                 if p.value.gender.Some? then ParseGender(p.value.gender.value) else None)
  }

  /** The role of a new or updated account: `role || 'patient'`. */
  function RoleOf(role: Option<string>): (r: Role)
    ensures role.None? ==> r == Role.Patient
    ensures role.Some? && ParseRole(role.value).Some? ==> RoleName(r) == role.value
  {
    if role.Some? && ParseRole(role.value).Some? then ParseRole(role.value).value else Role.Patient
  }

  /** The account `createUser` builds with the corrected schema: the requested name as the
      schema's trim setter stores it, the hashed password, verified from the start and
      active. */
  function NewUser(r: CreateUserRequest, hash: string -> string): User
    requires ValidCreateUser(r)
  {
    User(Some(Trim(r.name.value)), r.email.value, hash(r.password.value), RoleOf(r.role), true, None, None, true, ProfileOf(r.profile))
  }

  /** The account `createUser` builds as written: the schema admits no name, so none is set. */
  function NewUserAsWritten(r: CreateUserRequest, hash: string -> string): User
    requires ValidCreateUserAsWritten(r)
  {
    User(None, r.email.value, hash(r.password.value), RoleOf(r.role), true, None, None, true, ProfileOf(r.profile))
  }

  /** As written, a body the schema accepts builds an account without a name, which `save`
      refuses, and a body with a name is refused by the schema: `createUser` never creates. */
  lemma CreateUserAsWrittenNeverSaves(r: CreateUserRequest, hash: string -> string)
    ensures ValidCreateUserAsWritten(r) ==> !UserSaveable(NewUserAsWritten(r, hash))
    ensures r.name.Some? ==> !ValidCreateUserAsWritten(r)
  {
  }

  /** With the corrected schema the new account stores the requested name trimmed, and
      saves exactly when that name and its hash are non-empty; it is verified, active, and
      stores the hash, never the password. */
  lemma NewUserSaveable(r: CreateUserRequest, hash: string -> string)
    requires ValidCreateUser(r)
    ensures NewUser(r, hash).name == Some(Trim(r.name.value))
    ensures Trim(NewUser(r, hash).name.value) == NewUser(r, hash).name.value
    ensures UserSaveable(NewUser(r, hash)) <==> Trim(r.name.value) != "" && hash(r.password.value) != ""
    ensures NewUser(r, hash).verified && NewUser(r, hash).isActive
    ensures NewUser(r, hash).password == hash(r.password.value)
    ensures RoleName(NewUser(r, hash).role) == r.role.value
  {
    TrimIdempotent(r.name.value);
  }

  /** Some account other than `id` carries `email`. */
  predicate EmailTakenByOther(users: map<Id, User>, id: Id, email: string)
  {
    exists o :: o in users && o != id && users[o].email == email
  }

  /** `findByIdAndUpdate(id, updateData)`: every given field replaces the stored one, a given
      password stored hashed, a given profile replacing the whole profile. */
  function PatchedUser(u: User, r: UpdateUserRequest, hash: string -> string): User
  {
    u.(email := if r.email.Some? then r.email.value else u.email,
       password := if r.password.Some? && r.password.value != "" then hash(r.password.value) else u.password,
       role := if r.role.Some? then RoleOf(r.role) else u.role,
       profile := if r.profile.Some? then ProfileOf(r.profile) else u.profile,
       isActive := if r.isActive.Some? then r.isActive.value else u.isActive,
       verified := if r.verified.Some? then r.verified.value else u.verified)
  }

  /** An update keeps the name and the verification code, stores a given password only as
      its hash, and keeps the role when none is given. */
  lemma PatchedUserFields(u: User, r: UpdateUserRequest, hash: string -> string)
    requires ValidUpdateUser(r)
    ensures PatchedUser(u, r, hash).name == u.name
    ensures PatchedUser(u, r, hash).verificationCode == u.verificationCode
    ensures r.password.Some? ==> PatchedUser(u, r, hash).password == hash(r.password.value)
    ensures r.password.None? ==> PatchedUser(u, r, hash).password == u.password
    ensures r.role.None? ==> PatchedUser(u, r, hash).role == u.role
    ensures r.role.Some? ==> RoleName(PatchedUser(u, r, hash).role) == r.role.value
  {
  }

  /** `user.isActive = false`. */
  function Suspended(u: User): (v: User)
    ensures !v.isActive && v.(isActive := u.isActive) == u
  {
    u.(isActive := false)
  }

  /** `user.isActive = true`. */
  function Reactivated(u: User): (v: User)
    ensures v.isActive && v.(isActive := u.isActive) == u
  {
    u.(isActive := true)
  }

  /** Suspending twice is suspending once, reactivating undoes a suspension of an active
      account, and neither changes whether the account saves. */
  lemma SuspendAndReactivate(u: User)
    ensures Suspended(Suspended(u)) == Suspended(u)
    ensures Reactivated(Reactivated(u)) == Reactivated(u)
    ensures u.isActive ==> Reactivated(Suspended(u)) == u
    ensures !u.isActive ==> Suspended(Reactivated(u)) == u
    ensures UserSaveable(Suspended(u)) <==> UserSaveable(u)
    ensures UserSaveable(Reactivated(u)) <==> UserSaveable(u)
  {
  }

  /** Joi's joined messages are not modelled; only the status code is. */
  const SchemaRefused: Reply := Reply(400, "Validation failed")
  const EmailExists: Reply := Reply(409, "Email already exists")
  const UserCreated: Reply := Reply(201, "User created successfully")
  const ServerError: Reply := Reply(500, "Server error")
  const UserNotFound: Reply := Reply(404, "User not found")
  const RoleChangeForbidden: Reply := Reply(403, "Only admins can change user roles")
  const UserUpdated: Reply := Reply(200, "User updated successfully")
  const AdminSuspendForbidden: Reply := Reply(403, "Cannot suspend another admin account")
  const UserSuspended: Reply := Reply(200, "User suspended successfully")
  const UserReactivated: Reply := Reply(200, "User reactivated successfully")
  const AdminDeleteForbidden: Reply := Reply(403, "Cannot delete admin accounts")
  const UserDeleted: Reply := Reply(200, "User deleted successfully")

  /** `createUser` with the corrected schema: the schema, the duplicate email check, the
      hash, then `save`. */
  method CreateUser(db: Db, r: CreateUserRequest, hash: string -> string, newId: Id) returns (reply: Reply)
    requires newId !in db.users
    modifies db`users
    ensures !ValidCreateUser(r) ==> reply == SchemaRefused && db.users == old(db.users)
    ensures ValidCreateUser(r) && HasEmail(old(db.users), r.email.value) ==>
      reply == EmailExists && db.users == old(db.users)
    ensures ValidCreateUser(r) && !HasEmail(old(db.users), r.email.value) && !UserSaveable(NewUser(r, hash)) ==>
      reply == ServerError && db.users == old(db.users)
    ensures ValidCreateUser(r) && !HasEmail(old(db.users), r.email.value) && UserSaveable(NewUser(r, hash)) ==>
      reply == UserCreated && db.users == old(db.users)[newId := NewUser(r, hash)]
  {
    if !ValidCreateUser(r) {
      return SchemaRefused;
    }
    if HasEmail(db.users, r.email.value) {
      return EmailExists;
    }
    var u := NewUser(r, hash);
    if !UserSaveable(u) {
      return ServerError;
    }
    db.users := db.users[newId := u];
    reply := UserCreated;
  }

  /** `updateUser`: the schema, the account's existence, the admin-only role change, then
      the update; an email another account holds breaks the unique index and is answered
      500. */
  method UpdateUser(db: Db, id: Id, r: UpdateUserRequest, callerRole: Role, hash: string -> string)
    returns (reply: Reply)
    modifies db`users
    ensures !ValidUpdateUser(r) ==> reply == SchemaRefused && db.users == old(db.users)
    ensures ValidUpdateUser(r) && id !in old(db.users) ==> reply == UserNotFound && db.users == old(db.users)
    ensures ValidUpdateUser(r) && id in old(db.users) && r.role.Some? && callerRole != Admin ==>
      reply == RoleChangeForbidden && db.users == old(db.users)
    ensures ValidUpdateUser(r) && id in old(db.users) && (r.role.None? || callerRole == Admin)
            && r.email.Some? && EmailTakenByOther(old(db.users), id, r.email.value) ==>
      reply == ServerError && db.users == old(db.users)
    ensures ValidUpdateUser(r) && id in old(db.users) && (r.role.None? || callerRole == Admin)
            && !(r.email.Some? && EmailTakenByOther(old(db.users), id, r.email.value)) ==>
      reply == UserUpdated && db.users == old(db.users)[id := PatchedUser(old(db.users)[id], r, hash)]
  {
    if !ValidUpdateUser(r) {
      return SchemaRefused;
    }
    if id !in db.users {
      return UserNotFound;
    }
    if r.role.Some? && callerRole != Admin {
      return RoleChangeForbidden;
    }
    if r.email.Some? && EmailTakenByOther(db.users, id, r.email.value) {
      return ServerError;
    }
    db.users := db.users[id := PatchedUser(db.users[id], r, hash)];
    reply := UserUpdated;
  }

  /** `suspendUser`: an administrator may suspend only their own admin account; `save`
      validates the whole account. */
  method SuspendUser(db: Db, id: Id, caller: Id) returns (reply: Reply)
    modifies db`users
    ensures id !in old(db.users) ==> reply == UserNotFound && db.users == old(db.users)
    ensures id in old(db.users) && old(db.users)[id].role == Admin && caller != id ==>
      reply == AdminSuspendForbidden && db.users == old(db.users)
    ensures id in old(db.users) && !(old(db.users)[id].role == Admin && caller != id) && !UserSaveable(old(db.users)[id]) ==>
      reply == ServerError && db.users == old(db.users)
    ensures id in old(db.users) && !(old(db.users)[id].role == Admin && caller != id) && UserSaveable(old(db.users)[id]) ==>
      reply == UserSuspended && db.users == old(db.users)[id := Suspended(old(db.users)[id])]
  {
    if id !in db.users {
      return UserNotFound;
    }
    var u := db.users[id];
    if u.role == Admin && caller != id {
      return AdminSuspendForbidden;
    }
    SuspendAndReactivate(u);
    if !UserSaveable(Suspended(u)) {
      return ServerError;
    }
    db.users := db.users[id := Suspended(u)];
    reply := UserSuspended;
  }

  /** `reactivateUser`. */
  method ReactivateUser(db: Db, id: Id) returns (reply: Reply)
    modifies db`users
    ensures id !in old(db.users) ==> reply == UserNotFound && db.users == old(db.users)
    ensures id in old(db.users) && !UserSaveable(old(db.users)[id]) ==> reply == ServerError && db.users == old(db.users)
    ensures id in old(db.users) && UserSaveable(old(db.users)[id]) ==>
      reply == UserReactivated && db.users == old(db.users)[id := Reactivated(old(db.users)[id])]
  {
    if id !in db.users {
      return UserNotFound;
    }
    var u := db.users[id];
    SuspendAndReactivate(u);
    if !UserSaveable(Reactivated(u)) {
      return ServerError;
    }
    db.users := db.users[id := Reactivated(u)];
    reply := UserReactivated;
  }

  /** `deleteUser`: admin accounts are never deleted. */
  method DeleteUser(db: Db, id: Id) returns (reply: Reply)
    modifies db`users
    ensures id !in old(db.users) ==> reply == UserNotFound && db.users == old(db.users)
    ensures id in old(db.users) && old(db.users)[id].role == Admin ==>
      reply == AdminDeleteForbidden && db.users == old(db.users)
    ensures id in old(db.users) && old(db.users)[id].role != Admin ==>
      reply == UserDeleted && db.users == old(db.users) - {id}
  {
    if id !in db.users {
      return UserNotFound;
    }
    if db.users[id].role == Admin {
      return AdminDeleteForbidden;
    }
    db.users := db.users - {id};
    reply := UserDeleted;
  }

  // ---------------------------------------------------------------------------
  // invariants

  /** No two accounts share an email: the `unique` index on `email`. */
  predicate EmailsUnique(users: map<Id, User>)
  {
    forall a, b :: a in users && b in users && a != b ==> users[a].email != users[b].email
  }

  /** Creation past the duplicate check, an update past the unique index, and deletion all
      keep emails unique. */
  lemma UserWritesKeepEmailsUnique(users: map<Id, User>, u: User, newId: Id, id: Id, r: UpdateUserRequest, hash: string -> string)
    requires EmailsUnique(users)
    ensures newId !in users && !HasEmail(users, u.email) ==> EmailsUnique(users[newId := u])
    ensures id in users && !(r.email.Some? && EmailTakenByOther(users, id, r.email.value)) ==>
      EmailsUnique(users[id := PatchedUser(users[id], r, hash)])
    ensures EmailsUnique(users - {id})
  {
    if newId !in users && !HasEmail(users, u.email) {
      var vs := users[newId := u];
      forall a, b | a in vs && b in vs && a != b
        ensures vs[a].email != vs[b].email
      {
        if a == newId {
          assert vs[b] == users[b];
        } else if b == newId {
          assert vs[a] == users[a];
        }
      }
    }
    if id in users && !(r.email.Some? && EmailTakenByOther(users, id, r.email.value)) {
      var vs := users[id := PatchedUser(users[id], r, hash)];
      forall a, b | a in vs && b in vs && a != b
        ensures vs[a].email != vs[b].email
      {
        if a == id {
          assert vs[b] == users[b];
        } else if b == id {
          assert vs[a] == users[a];
        }
      }
    }
  }

  /** Suspension and reactivation change only `isActive`, so they keep emails unique and
      keep the account's role. */
  lemma StatusChangesKeepAccounts(users: map<Id, User>, id: Id)
    requires EmailsUnique(users) && id in users
    ensures EmailsUnique(users[id := Suspended(users[id])])
    ensures EmailsUnique(users[id := Reactivated(users[id])])
    ensures users[id := Suspended(users[id])][id].role == users[id].role
    ensures users[id := Reactivated(users[id])][id].role == users[id].role
  {
    var vs := users[id := Suspended(users[id])];
    assert forall k :: k in vs ==> vs[k].email == users[k].email;
    var ws := users[id := Reactivated(users[id])];
    assert forall k :: k in ws ==> ws[k].email == users[k].email;
  }

  /** Every route of this controller is behind `authorize('admin')`, so the caller of an
      update is an administrator and the role-change refusal never fires there. */
  lemma AdminRouteHidesRoleGate(user: Option<AuthMiddleware.AuthUser>, r: UpdateUserRequest)
    requires AuthMiddleware.Authorize([Admin], user).Pass?
    ensures user.value.role == Admin
    ensures !(r.role.Some? && user.value.role != Admin)
  {
  }
}
