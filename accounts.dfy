/** User accounts: the role and status enumerations of the users table, the admin
    user-management actions with their guards, and the profile update, where the
    organization name can be set only once. */
module Accounts {
  import opened Wrappers
  import opened PhpStrings
  import opened Crypto
  import opened Validation

  /** The `role` column's CHECK constraint. */
  datatype Role = Leader | Admin | Superadmin

  /** The `status` column's CHECK constraint. */
  datatype UserStatus = Active | Suspended | Terminated

  /** A point in time, as `now()` gives it. */
  type Instant = int

  datatype User = User(
    id: nat,
    name: string,
    email: string,
    password: Option<PasswordHash>,
    orgName: Option<string>,
    role: Role,
    status: UserStatus,
    terminationReason: Option<string>,
    emailVerifiedAt: Option<Instant>,
    oauthProvider: Option<string>,
    oauthId: Option<string>)

  /** `Rule::in(['leader', 'admin'])`: the roles an administrator may hand out. */
  function ParseAssignableRole(v: Option<string>): (r: Option<Role>)
    ensures r.Some? <==> v == Some("leader") || v == Some("admin")
    ensures r == Some(Leader) <==> v == Some("leader")
    ensures r.Some? ==> r.value != Superadmin
  {
    if v == Some("leader") then Some(Leader) else if v == Some("admin") then Some(Admin) else None
  }

  /** `Rule::in(['active', 'suspended', 'terminated'])`. */
  function ParseStatus(v: Option<string>): (r: Option<UserStatus>)
    ensures r.Some? <==> v == Some("active") || v == Some("suspended") || v == Some("terminated")
    ensures r == Some(Terminated) <==> v == Some("terminated")
    ensures r == Some(Active) <==> v == Some("active")
  {
    match v
    case Some("active") => Some(Active)
    case Some("suspended") => Some(Suspended)
    case Some("terminated") => Some(Terminated)
    case _ => None
  }

  /** The roles an actor sees in the user listing: a superadmin sees leaders and admins,
      anyone else only leaders. */
  predicate Listed(actor: Role, r: Role) {
    if actor == Superadmin then r == Leader || r == Admin else r == Leader
  }

  /** The users of the listing, newest first. */
  function ListUsers(actor: Role, rows: seq<User>): (r: seq<User>)
    ensures forall u :: u in r <==> u in rows && Listed(actor, u.role)
    ensures forall u :: u in r ==> u.role != Superadmin
  {
    if rows == [] then []
    else ListUsers(actor, rows[1..]) + (if Listed(actor, rows[0].role) then [rows[0]] else [])
  }

  /** With the rows in creation order (ids ascending), the listing is newest first. */
  lemma {:induction false} ListUsersNewestFirst(actor: Role, rows: seq<User>)
    requires forall i, j :: 0 <= i < j < |rows| ==> rows[i].id < rows[j].id
    ensures forall i, j :: 0 <= i < j < |ListUsers(actor, rows)| ==>
              ListUsers(actor, rows)[i].id > ListUsers(actor, rows)[j].id
  {
    if rows != [] {
      var tail := rows[1..];
      forall i, j | 0 <= i < j < |tail| ensures tail[i].id < tail[j].id {
        assert tail[i] == rows[i + 1] && tail[j] == rows[j + 1];
      }
      ListUsersNewestFirst(actor, tail);
      var rest := ListUsers(actor, tail);
      forall u | u in rest ensures u.id > rows[0].id {
        var k :| 0 <= k < |tail| && tail[k] == u;
        assert rows[k + 1] == u;
      }
    }
  }

  /** The guard of `edit`, `update` and `destroy`: a superadmin is never a target, and
      an admin cannot act on another admin. */
  function TargetGuard(actor: User, target: User): (r: Outcome<Rejection>)
    ensures r.Pass? <==> target.role != Superadmin && !(actor.role == Admin && target.role == Admin)
    ensures r.Fail? ==> r.error == Forbidden
  {
    if target.role == Superadmin then Fail(Forbidden)
    else if actor.role == Admin && target.role == Admin then Fail(Forbidden)
    else Pass
  }

  /** An admin may only ever act on leaders. */
  lemma AdminActsOnLeadersOnly(actor: User, target: User)
    requires actor.role == Admin && TargetGuard(actor, target).Pass?
    ensures target.role == Leader
  {
  }

  /** Lower case: no letter from A to Z. */
  predicate IsLowercase(s: string) {
    forall i :: 0 <= i < |s| ==> !('A' <= s[i] <= 'Z')
  }

  /** The admin `store` form. */
  datatype NewUserForm = NewUserForm(name: Option<string>, email: Option<string>, password: Option<string>,
                                     role: Option<string>)

  /** The admin `update` form. An `orgName` of `None` is a field sent empty or null; a
      request without the field at all is not told apart. */
  datatype UserForm = UserForm(name: Option<string>, orgName: Option<string>, password: Option<string>,
                               status: Option<string>, terminationReason: Option<string>)

  /** The profile form. */
  datatype ProfileForm = ProfileForm(name: Option<string>, email: Option<string>, orgName: Option<string>)

  /** `min:8` on an optional field. */
  predicate AtLeast(v: Option<string>, n: nat) {
    v.None? || |v.value| >= n
  }

  /** The failing fields of the admin `update` form. */
  function UserFormErrors(f: UserForm): (e: set<string>)
    ensures e == {} <==> RequiredMax(f.name, 255) && WithinMax(f.orgName, 255) && AtLeast(f.password, 8)
                         && ParseStatus(f.status).Some?
                         && (f.status == Some("terminated") ==> Required(f.terminationReason))
  {
    FailsIf("name", RequiredMax(f.name, 255))
    + FailsIf("org_name", WithinMax(f.orgName, 255))
    + FailsIf("password", AtLeast(f.password, 8))
    + FailsIf("status", ParseStatus(f.status).Some?)
    + FailsIf("termination_reason", f.status == Some("terminated") ==> Required(f.terminationReason))
  }

  /** A user after a valid admin `update`: name, organization, status and termination
      reason from the form (the reason only for a terminated user), a new password only
      when one is given. */
  function Updated(u: User, f: UserForm): (v: User)
    requires UserFormErrors(f) == {}
    ensures v.id == u.id && v.role == u.role && v.email == u.email
    ensures v.name == f.name.value && v.orgName == f.orgName && v.status == ParseStatus(f.status).value
    ensures v.terminationReason.Some? <==> v.status == Terminated
    ensures v.status == Terminated ==> v.terminationReason == f.terminationReason
    ensures v.password == (if f.password.Some? && Truthy(f.password.value)
                           then Some(HashPassword(f.password.value)) else u.password)
    ensures v.emailVerifiedAt == u.emailVerifiedAt && v.oauthProvider == u.oauthProvider && v.oauthId == u.oauthId
  {
    var status := ParseStatus(f.status).value;
    u.(name := f.name.value, orgName := f.orgName, status := status,
       terminationReason := if status == Terminated then f.terminationReason else None,
       password := if f.password.Some? && Truthy(f.password.value) then Some(HashPassword(f.password.value))
                   else u.password)
  }

  /** The failing fields of the profile form for user `u`: the email is unique among
      the other users, and the organization name is required while it is unset. */
  function ProfileErrors(u: User, others: seq<User>, f: ProfileForm): (e: set<string>)
    ensures "org_name" in e <==> !(if u.orgName.None? then RequiredMax(f.orgName, 255) else WithinMax(f.orgName, 255))
    ensures "name" in e <==> !RequiredMax(f.name, 255)
    ensures e <= {"name", "email", "org_name"}
    ensures e == {} <==> (&& RequiredMax(f.name, 255)
                          && Required(f.email) && IsLowercase(f.email.value) && IsEmailAddress(f.email.value)
                          && WithinMax(f.email, 255)
                          && (forall i :: 0 <= i < |others| && others[i].id != u.id ==> others[i].email != f.email.value)
                          && (if u.orgName.None? then RequiredMax(f.orgName, 255) else WithinMax(f.orgName, 255)))
    ensures e == {} ==> RequiredMax(f.name, 255) && Required(f.email) && IsLowercase(f.email.value)
                        && IsEmailAddress(f.email.value) && |f.email.value| <= 255
    ensures e == {} ==> forall i :: 0 <= i < |others| && others[i].id != u.id ==> others[i].email != f.email.value
    ensures e == {} && u.orgName.None? ==> Required(f.orgName)
  {
    FailsIf("name", RequiredMax(f.name, 255))
    + FailsIf("email", Required(f.email) && IsLowercase(f.email.value) && IsEmailAddress(f.email.value)
                       && WithinMax(f.email, 255)
                       && forall i :: 0 <= i < |others| && others[i].id != u.id ==> others[i].email != f.email.value)
    + FailsIf("org_name", if u.orgName.None? then RequiredMax(f.orgName, 255) else WithinMax(f.orgName, 255))
  }

  /** A user after a valid profile update: name and email from the form; the organization
      name from the form only while it was unset. */
  function ProfileUpdated(u: User, f: ProfileForm): (v: User)
    requires f.name.Some? && f.email.Some?
    ensures v.name == f.name.value && v.email == f.email.value
    ensures u.orgName.Some? ==> v.orgName == u.orgName
    ensures u.orgName.None? ==> v.orgName == f.orgName
    ensures v.emailVerifiedAt == u.emailVerifiedAt && v.role == u.role && v.status == u.status && v.id == u.id
  {
    u.(name := f.name.value, email := f.email.value, orgName := if u.orgName.None? then f.orgName else u.orgName)
  }

  /** Once set, the organization name survives every sequence of profile updates. */
  lemma {:induction false} OrgNameSetOnce(u: User, fs: seq<ProfileForm>)
    requires u.orgName.Some?
    requires forall i :: 0 <= i < |fs| ==> fs[i].name.Some? && fs[i].email.Some?
    ensures ProfileUpdatedAll(u, fs).orgName == u.orgName
    decreases |fs|
  {
    if fs != [] {
      OrgNameSetOnce(ProfileUpdated(u, fs[0]), fs[1..]);
    }
  }

  /** A user after a sequence of profile updates. */
  function ProfileUpdatedAll(u: User, fs: seq<ProfileForm>): User
    requires forall i :: 0 <= i < |fs| ==> fs[i].name.Some? && fs[i].email.Some?
    decreases |fs|
  {
    if fs == [] then u else ProfileUpdatedAll(ProfileUpdated(u, fs[0]), fs[1..])
  }

  /** The users table, in creation order. */
  class UserTable {
    var rows: seq<User>
    var nextId: nat

    /** Ids increase with creation and are below the next id; no two users share an
        email; a terminated user, and only such a user, has a termination reason. */
    ghost predicate Valid()
      reads this
    {
      && (forall i, j :: 0 <= i < j < |rows| ==> rows[i].id < rows[j].id)
      && (forall i :: 0 <= i < |rows| ==> rows[i].id < nextId)
      && (forall i, j :: 0 <= i < j < |rows| ==> rows[i].email != rows[j].email)
      && (forall i :: 0 <= i < |rows| ==> (rows[i].terminationReason.Some? <==> rows[i].status == Terminated))
    }

    constructor ()
      ensures Valid() && rows == []
    {
      rows := [];
      nextId := 1;
    }

    function Find(id: nat): (r: Option<nat>)
      reads this
      ensures r.Some? ==> r.value < |rows| && rows[r.value].id == id
      ensures r.None? ==> forall i :: 0 <= i < |rows| ==> rows[i].id != id
    {
      FindUser(rows, id)
    }

    predicate EmailTaken(email: string)
      reads this
    {
      exists i :: 0 <= i < |rows| && rows[i].email == email
    }

    /** `index`: what the actor's listing holds. */
    function Index(actor: User): (r: seq<User>)
      reads this
      ensures forall u :: u in r <==> u in rows && Listed(actor.role, u.role)
    {
      ListUsers(actor.role, rows)
    }

    /** The failing fields of the `store` form; the role is checked only for a
        superadmin actor. */
    function NewUserErrors(actor: User, f: NewUserForm): (e: set<string>)
      reads this
      ensures e == {} <==> && RequiredMax(f.name, 255)
                           && Required(f.email) && IsEmailAddress(f.email.value) && WithinMax(f.email, 255)
                           && !EmailTaken(f.email.value)
                           && Required(f.password) && AtLeast(f.password, 8)
                           && (actor.role == Superadmin ==> ParseAssignableRole(f.role).Some?)
    {
      FailsIf("name", RequiredMax(f.name, 255))
      + FailsIf("email", Required(f.email) && IsEmailAddress(f.email.value) && WithinMax(f.email, 255)
                         && !EmailTaken(f.email.value))
      + FailsIf("password", Required(f.password) && AtLeast(f.password, 8))
      + FailsIf("role", actor.role == Superadmin ==> ParseAssignableRole(f.role).Some?)
    }

    /** `store`: a new active user; the requested role only when a superadmin asks,
        `leader` otherwise. */
    method Store(actor: User, f: NewUserForm) returns (r: Result<nat, Rejection>)
      requires Valid()
      modifies this
      ensures Valid()
      ensures r.Success? <==> old(NewUserErrors(actor, f)) == {}
      ensures r.Failure? ==> r.error == Invalid(old(NewUserErrors(actor, f))) && unchanged(this)
      ensures r.Success? ==>
                rows == old(rows) + [User(r.value, f.name.value, f.email.value, Some(HashPassword(f.password.value)),
                                          None, if actor.role == Superadmin then ParseAssignableRole(f.role).value
                                                else Leader,
                                          Active, None, None, None, None)]
      ensures r.Success? ==> rows[|rows| - 1].status == Active && rows[|rows| - 1].role != Superadmin
    {
      var errors := NewUserErrors(actor, f);
      if errors != {} {
        return Failure(Invalid(errors));
      }
      var role := if actor.role == Superadmin then ParseAssignableRole(f.role).value else Leader;
      var id := nextId;
      rows := rows + [User(id, f.name.value, f.email.value, Some(HashPassword(f.password.value)), None, role,
                           Active, None, None, None, None)];
      nextId := id + 1;
      r := Success(id);
    }

    /** `edit`: the user to edit, past the guard. */
    function Edit(actor: User, id: nat): (r: Result<User, Rejection>)
      reads this
      ensures Find(id).None? ==> r == Failure(NotFound)
      ensures r.Success? <==> Find(id).Some? && TargetGuard(actor, rows[Find(id).value]).Pass?
      ensures r.Success? ==> r.value == rows[Find(id).value] && r.value.role != Superadmin
      ensures r.Failure? && Find(id).Some? ==> r.error == Forbidden
    {
      var k := Find(id);
      if k.None? then Failure(NotFound)
      else if TargetGuard(actor, rows[k.value]).Fail? then Failure(Forbidden)
      else Success(rows[k.value])
    }

    /** `update`: past the guard and the validation, the user becomes `Updated(u, f)`. */
    method Update(actor: User, id: nat, f: UserForm) returns (r: Outcome<Rejection>)
      requires Valid()
      modifies this
      ensures Valid()
      ensures old(Find(id)).None? ==> r == Fail(NotFound)
      ensures old(Find(id)).Some? && TargetGuard(actor, old(rows)[old(Find(id)).value]).Fail? ==> r == Fail(Forbidden)
      ensures r.Pass? <==> old(Edit(actor, id)).Success? && UserFormErrors(f) == {}
      ensures r.Fail? ==> unchanged(this)
      ensures r.Pass? ==> var k := old(Find(id)).value; rows == old(rows)[k := Updated(old(rows)[k], f)]
      ensures unchanged(`nextId)
    {
      var k := Find(id);
      if k.None? {
        return Fail(NotFound);
      }
      if TargetGuard(actor, rows[k.value]).Fail? {
        return Fail(Forbidden);
      }
      var errors := UserFormErrors(f);
      if errors != {} {
        return Fail(Invalid(errors));
      }
      rows := rows[k.value := Updated(rows[k.value], f)];
      r := Pass;
    }

    /** `destroy`: past the guard, and never the actor's own account. */
    method Destroy(actor: User, id: nat) returns (r: Outcome<Rejection>)
      requires Valid()
      modifies this
      ensures Valid()
      ensures old(Find(id)).None? ==> r == Fail(NotFound)
      ensures r.Pass? <==> old(Edit(actor, id)).Success? && id != actor.id
      ensures r.Fail? ==> unchanged(this)
      ensures r.Pass? ==> var k := old(Find(id)).value; rows == old(rows)[..k] + old(rows)[k + 1..]
      ensures unchanged(`nextId)
    {
      var k := Find(id);
      if k.None? {
        return Fail(NotFound);
      }
      if TargetGuard(actor, rows[k.value]).Fail? {
        return Fail(Forbidden);
      }
      if id == actor.id {
        return Fail(Forbidden);
      }
      rows := rows[..k.value] + rows[k.value + 1..];
      r := Pass;
    }

    /** The profile `update` of the authenticated user `id`. */
    method UpdateProfile(id: nat, f: ProfileForm) returns (r: Outcome<Rejection>)
      requires Valid()
      modifies this
      ensures Valid()
      ensures old(Find(id)).None? ==> r == Fail(NotFound)
      ensures r.Pass? <==> old(Find(id)).Some? && ProfileErrors(old(rows)[old(Find(id)).value], old(rows), f) == {}
      ensures r.Fail? ==> unchanged(this)
      ensures r.Pass? ==> var k := old(Find(id)).value; rows == old(rows)[k := ProfileUpdated(old(rows)[k], f)]
      ensures unchanged(`nextId)
    {
      var k := Find(id);
      if k.None? {
        return Fail(NotFound);
      }
      var errors := ProfileErrors(rows[k.value], rows, f);
      if errors != {} {
        return Fail(Invalid(errors));
      }
      rows := rows[k.value := ProfileUpdated(rows[k.value], f)];
      r := Pass;
    }
  }

  function FindUser(rows: seq<User>, id: nat): (r: Option<nat>)
    ensures r.Some? ==> r.value < |rows| && rows[r.value].id == id
    ensures r.None? ==> forall i :: 0 <= i < |rows| ==> rows[i].id != id
  {
    if rows == [] then None
    else if rows[0].id == id then Some(0)
    else
      var r := FindUser(rows[1..], id);
      if r.Some? then Some(r.value + 1) else None
  }
}
