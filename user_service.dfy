/**
 * UserServiceImpl: registration, profiles, and granting and revoking ADMIN.
 * A user's roles are the rows of the user_roles table that point at the user.
 */
module UserServiceImpl {
  import opened Common
  import opened Entities

  /** The super administrator keeps ADMIN. */
  const SUPER_ADMIN_ID: nat := 1

  /** The fields of UserRegisterDTO the service copies (the password already encoded). */
  datatype RegisterForm = RegisterForm(
    username: string, email: string, encodedPassword: string,
    firstName: Option<string>, lastName: Option<string>, phone: Option<string>)

  /** UserProfileDTO: the user's own fields plus the admin flag. */
  datatype UserProfile = UserProfile(
    id: nat, username: string, email: string,
    firstName: Option<string>, lastName: Option<string>, phone: Option<string>, admin: bool)

  predicate IsAdminRow(r: RoleRow, userId: nat) { r.owner == userId && r.role == ADMIN }

  /** `roles.stream().anyMatch(role -> role == ADMIN)` over the user's rows. */
  function HasAdminRole(roles: seq<RoleRow>, userId: nat): (b: bool)
    ensures b <==> exists i :: 0 <= i < |roles| && IsAdminRow(roles[i], userId)
  {
    if roles == [] then false
    else IsAdminRow(roles[0], userId) || (assert forall i :: 0 < i < |roles| ==> roles[i] == roles[1..][i - 1];
                                          HasAdminRole(roles[1..], userId))
  }

  /** The position of the user's first ADMIN row, if any. */
  function AdminRowIndex(roles: seq<RoleRow>, userId: nat): (r: Option<nat>)
    ensures r.None? <==> !HasAdminRole(roles, userId)
    ensures r.Some? ==> r.value < |roles| && IsAdminRow(roles[r.value], userId)
  {
    if roles == [] then None
    else if IsAdminRow(roles[0], userId) then Some(0)
    else match AdminRowIndex(roles[1..], userId)
      case None => None
      case Some(i) => Some(i + 1)
  }

  /** The position of the first USER row of the table (`findByRole(USER).get(0)`). */
  function FirstUserRowIndex(roles: seq<RoleRow>): (r: Option<nat>)
    ensures r.None? <==> forall i :: 0 <= i < |roles| ==> roles[i].role != USER
    ensures r.Some? ==> r.value < |roles| && roles[r.value].role == USER
    ensures r.Some? ==> forall j :: 0 <= j < r.value ==> roles[j].role != USER
  {
    if roles == [] then None
    else if roles[0].role == USER then Some(0)
    else match FirstUserRowIndex(roles[1..])
      case None => None
      case Some(i) => Some(i + 1)
  }

  /** The rows the user holds, in table order. */
  function RolesOf(roles: seq<RoleRow>, userId: nat): (r: seq<RoleRow>)
    ensures forall row :: row in r <==> row in roles && row.owner == userId
  {
    Filter(roles, (row: RoleRow) => row.owner == userId)
  }

  function AdminCount(roles: seq<RoleRow>, userId: nat): nat
  {
    Count(roles, (row: RoleRow) => IsAdminRow(row, userId))
  }

  /** The role table after ADMIN is requested: a new ADMIN row only when the user has none. */
  function Granted(roles: seq<RoleRow>, userId: nat, rowId: nat): seq<RoleRow>
  {
    if HasAdminRole(roles, userId) then roles else roles + [RoleRow(rowId, ADMIN, userId)]
  }

  /** The role table after USER is requested: the user's first ADMIN row is deleted. */
  function Revoked(roles: seq<RoleRow>, userId: nat): seq<RoleRow>
  {
    match AdminRowIndex(roles, userId)
      case None => roles
      case Some(i) => roles[..i] + roles[i + 1..]
  }

  /**
   * What changeUserRole does to the role table, in the order of its checks:
   * an unknown user, then a role name that is not a constant of the enum, then
   * the super administrator losing ADMIN are errors; otherwise USER revokes
   * and ADMIN grants (with `nextRoleId` as the new row's id).
   */
  function ChangeRoleOutcome(users: seq<User>, roles: seq<RoleRow>, nextRoleId: nat, userId: nat, role: string): Result<seq<RoleRow>>
  {
    if UserById(users, userId).None? then Err(IllegalArgument("User not found"))
    else match ParseRole(role)
      case None => Err(IllegalArgument("No enum constant com.softuni.event.model.enums.UserRole." + role))
      case Some(USER) =>
        if HasAdminRole(roles, userId) && userId == SUPER_ADMIN_ID
        then Err(IllegalState("Cannot remove ADMIN role from the super administrator"))
        else Ok(Revoked(roles, userId))
      case Some(ADMIN) => Ok(Granted(roles, userId, nextRoleId))
  }

  /**
   * The cases of a role change: which request fails with which message, and
   * that the super administrator keeps ADMIN while every other user can lose it.
   */
  lemma ChangeRoleCases(users: seq<User>, roles: seq<RoleRow>, nextRoleId: nat, userId: nat, role: string)
    ensures UserById(users, userId).None? ==>
              ChangeRoleOutcome(users, roles, nextRoleId, userId, role) == Err(IllegalArgument("User not found"))
    ensures UserById(users, userId).Some? && ParseRole(role).None? ==>
              ChangeRoleOutcome(users, roles, nextRoleId, userId, role)
                == Err(IllegalArgument("No enum constant com.softuni.event.model.enums.UserRole." + role))
    ensures UserById(users, userId).Some? && ParseRole(role) == Some(USER) ==>
              (ChangeRoleOutcome(users, roles, nextRoleId, userId, role).Err? <==>
                 userId == SUPER_ADMIN_ID && HasAdminRole(roles, userId))
  {
  }

  /**
   * A successful role change leaves the user an admin exactly when ADMIN was
   * asked for, given at most one ADMIN row beforehand.
   */
  lemma ChangeRoleSetsAdmin(users: seq<User>, roles: seq<RoleRow>, nextRoleId: nat, userId: nat, role: string)
    ensures ChangeRoleOutcome(users, roles, nextRoleId, userId, role).Ok? && AdminCount(roles, userId) <= 1 ==>
              (HasAdminRole(ChangeRoleOutcome(users, roles, nextRoleId, userId, role).value, userId) <==>
                 ParseRole(role) == Some(ADMIN))
  {
    var o := ChangeRoleOutcome(users, roles, nextRoleId, userId, role);
    if o.Ok? {
      if ParseRole(role) == Some(ADMIN) {
        GrantAddsExactlyOneAdmin(roles, userId, nextRoleId, nextRoleId);
      } else if AdminCount(roles, userId) <= 1 {
        RevokeRemovesOneAdmin(roles, userId);
        if HasAdminRole(roles, userId) {
          var k :| 0 <= k < |roles| && IsAdminRow(roles[k], userId);
          assert roles[k] in roles;
          RevokeOfSoleAdminRow(roles, userId);
        }
      }
    }
  }

  /**
   * Requesting ADMIN leaves the user an admin; for a non-admin it adds exactly
   * one ADMIN row, for an admin it changes nothing, so asking twice is asking once.
   */
  lemma {:induction false} GrantAddsExactlyOneAdmin(roles: seq<RoleRow>, userId: nat, rowId: nat, laterRowId: nat)
    ensures HasAdminRole(Granted(roles, userId, rowId), userId)
    ensures !HasAdminRole(roles, userId) ==> AdminCount(Granted(roles, userId, rowId), userId) == AdminCount(roles, userId) + 1
    ensures HasAdminRole(roles, userId) ==> Granted(roles, userId, rowId) == roles
    ensures Granted(Granted(roles, userId, rowId), userId, laterRowId) == Granted(roles, userId, rowId)
  {
    var g := Granted(roles, userId, rowId);
    if !HasAdminRole(roles, userId) {
      assert IsAdminRow(g[|roles|], userId);
      CountAppend(roles, RoleRow(rowId, ADMIN, userId), (row: RoleRow) => IsAdminRow(row, userId));
    }
  }

  /** Requesting USER removes exactly one ADMIN row of an admin; for a non-admin it changes nothing. */
  lemma RevokeRemovesOneAdmin(roles: seq<RoleRow>, userId: nat)
    ensures HasAdminRole(roles, userId) ==> AdminCount(Revoked(roles, userId), userId) == AdminCount(roles, userId) - 1
    ensures !HasAdminRole(roles, userId) ==> Revoked(roles, userId) == roles
  {
    if HasAdminRole(roles, userId) {
      CountRemove(roles, AdminRowIndex(roles, userId).value, (row: RoleRow) => IsAdminRow(row, userId));
    }
  }

  /** Requesting USER for one user leaves every other user's rows as they were. */
  lemma {:induction false} RevokeKeepsOtherUsersRoles(roles: seq<RoleRow>, userId: nat, other: nat)
    requires other != userId
    ensures RolesOf(Revoked(roles, userId), other) == RolesOf(roles, other)
  {
    if HasAdminRole(roles, userId) {
      var i := AdminRowIndex(roles, userId).value;
      FilterRemove(roles, i, (row: RoleRow) => row.owner == other);
    }
  }

  /** With a single ADMIN row (the usual case), requesting USER leaves the user without ADMIN. */
  lemma RevokeOfSoleAdminRow(roles: seq<RoleRow>, userId: nat)
    requires AdminCount(roles, userId) == 1
    ensures !HasAdminRole(Revoked(roles, userId), userId)
  {
    var p := (row: RoleRow) => IsAdminRow(row, userId);
    var i := AdminRowIndex(roles, userId).value;
    CountRemove(roles, i, p);
    var rest := roles[..i] + roles[i + 1..];
    if HasAdminRole(rest, userId) {
      var k :| 0 <= k < |rest| && IsAdminRow(rest[k], userId);
      assert rest[k] in rest;
    }
  }

  /** getAllAdmins: the users holding an ADMIN row, in repository order. */
  function GetAllAdmins(users: seq<User>, roles: seq<RoleRow>): (r: seq<User>)
    ensures forall u :: u in r <==> u in users && HasAdminRole(roles, u.id)
    ensures forall u :: multiset(r)[u] == if HasAdminRole(roles, u.id) then multiset(users)[u] else 0
    ensures IsSubsequence(r, users)
    ensures |r| <= |users|
  {
    Filter(users, (u: User) => HasAdminRole(roles, u.id))
  }

  /** The profile DTO, whose admin flag is "some role is ADMIN". */
  function ProfileOf(u: User, roles: seq<RoleRow>): (p: UserProfile)
    ensures p.admin <==> exists i :: 0 <= i < |roles| && roles[i].owner == u.id && roles[i].role == ADMIN
    ensures p.id == u.id && p.username == u.username && p.email == u.email
  {
    UserProfile(u.id, u.username, u.email, u.firstName, u.lastName, u.phone, HasAdminRole(roles, u.id))
  }

  /** getAllUsers: one profile per user, in repository order. */
  function ProfilesOf(users: seq<User>, roles: seq<RoleRow>): (r: seq<UserProfile>)
    ensures |r| == |users|
    ensures forall i :: 0 <= i < |users| ==> r[i] == ProfileOf(users[i], roles)
  {
    if users == [] then [] else [ProfileOf(users[0], roles)] + ProfilesOf(users[1..], roles)
  }

  /** Usernames and emails are unique columns and ids are distinct. */
  ghost predicate Wellformed(users: seq<User>, roles: seq<RoleRow>, nextUserId: nat, nextRoleId: nat)
  {
    && (forall i :: 0 <= i < |users| ==> users[i].id < nextUserId)
    && (forall i, j :: 0 <= i < j < |users| ==>
          users[i].id != users[j].id && users[i].username != users[j].username && users[i].email != users[j].email)
    && (forall i :: 0 <= i < |roles| ==> roles[i].id < nextRoleId)
    && (forall i, j :: 0 <= i < j < |roles| ==> roles[i].id != roles[j].id)
  }

  lemma WellformedAddUser(users: seq<User>, roles: seq<RoleRow>, nextUserId: nat, nextRoleId: nat, u: User)
    requires Wellformed(users, roles, nextUserId, nextRoleId) && u.id == nextUserId
    requires UserByUsername(users, u.username).None? && UserByEmail(users, u.email).None?
    ensures Wellformed(users + [u], roles, nextUserId + 1, nextRoleId)
  {
    var s := users + [u];
    assert forall k :: 0 <= k < |users| ==> s[k] == users[k] && s[k] in users;
    assert s[|users|] == u;
  }

  lemma WellformedUpdateUser(users: seq<User>, roles: seq<RoleRow>, nextUserId: nat, nextRoleId: nat, i: nat, u: User)
    requires Wellformed(users, roles, nextUserId, nextRoleId) && i < |users| && u.id == users[i].id
    requires forall j :: 0 <= j < |users| && j != i ==> users[j].username != u.username && users[j].email != u.email
    ensures Wellformed(users[i := u], roles, nextUserId, nextRoleId)
  {
  }

  /** The user row after a profile update: the form's fields and a fresh update time. */
  function WithProfile(u: User, form: UserProfile, now: Instant): User
  {
    u.(username := form.username, email := form.email, firstName := form.firstName,
       lastName := form.lastName, phone := form.phone, updatedAt := Some(now))
  }

  /**
   * What updateUserProfile does to the user table: an unknown id is an error,
   * and so is a username or email another user already has (the unique
   * columns); otherwise that user's row takes the form's fields.
   */
  function UpdateProfileOutcome(users: seq<User>, form: UserProfile, now: Instant): Result<seq<User>>
  {
    match UserIndex(users, form.id)
      case None => Err(IllegalArgument("User not found"))
      case Some(i) =>
        if exists j :: 0 <= j < |users| && j != i && users[j].username == form.username then
          Err(ConstraintViolation("username"))
        else if exists j :: 0 <= j < |users| && j != i && users[j].email == form.email then
          Err(ConstraintViolation("email"))
        else
          Ok(users[i := WithProfile(users[i], form, now)])
  }

  /** A profile update fails exactly for an unknown id or a clash with another user on a unique column. */
  lemma UpdateProfileFailsOnlyOnClash(users: seq<User>, roles: seq<RoleRow>, nextUserId: nat, nextRoleId: nat,
                                      form: UserProfile, now: Instant)
    requires Wellformed(users, roles, nextUserId, nextRoleId)
    ensures UpdateProfileOutcome(users, form, now).Err? <==>
              UserById(users, form.id).None? ||
              (exists j :: 0 <= j < |users| && users[j].id != form.id && users[j].username == form.username) ||
              (exists j :: 0 <= j < |users| && users[j].id != form.id && users[j].email == form.email)
  {
    if UserIndex(users, form.id).Some? {
      var i := UserIndex(users, form.id).value;
      // positions other than i hold other ids, since ids are distinct
      assert forall j :: 0 <= j < |users| ==> (j != i <==> users[j].id != form.id);
    }
  }

  /**
   * A successful profile update keeps the table's length and invariant; the
   * user with the form's id carries the form's fields and every other row is
   * untouched.
   */
  lemma UpdateProfileChangesOnlyThatUser(users: seq<User>, roles: seq<RoleRow>, nextUserId: nat, nextRoleId: nat,
                                         form: UserProfile, now: Instant)
    requires Wellformed(users, roles, nextUserId, nextRoleId)
    requires UpdateProfileOutcome(users, form, now).Ok?
    ensures var r := UpdateProfileOutcome(users, form, now).value;
            |r| == |users| && Wellformed(r, roles, nextUserId, nextRoleId) &&
            forall k :: 0 <= k < |users| ==>
              if users[k].id == form.id then r[k] == WithProfile(users[k], form, now) else r[k] == users[k]
  {
    var i := UserIndex(users, form.id).value;
    assert forall j :: 0 <= j < |users| ==> (j != i <==> users[j].id != form.id);
    WellformedUpdateUser(users, roles, nextUserId, nextRoleId, i, WithProfile(users[i], form, now));
  }

  lemma WellformedAddRole(users: seq<User>, roles: seq<RoleRow>, nextUserId: nat, nextRoleId: nat, row: RoleRow)
    requires Wellformed(users, roles, nextUserId, nextRoleId) && row.id == nextRoleId
    ensures Wellformed(users, roles + [row], nextUserId, nextRoleId + 1)
  {
    var s := roles + [row];
    assert forall k :: 0 <= k < |roles| ==> s[k] == roles[k];
  }

  lemma WellformedRepointRole(users: seq<User>, roles: seq<RoleRow>, nextUserId: nat, nextRoleId: nat, i: nat, owner: nat)
    requires Wellformed(users, roles, nextUserId, nextRoleId) && i < |roles|
    ensures Wellformed(users, roles[i := roles[i].(owner := owner)], nextUserId, nextRoleId)
  {
  }

  lemma WellformedRemoveRole(users: seq<User>, roles: seq<RoleRow>, nextUserId: nat, nextRoleId: nat, i: nat)
    requires Wellformed(users, roles, nextUserId, nextRoleId) && i < |roles|
    ensures Wellformed(users, roles[..i] + roles[i + 1..], nextUserId, nextRoleId)
  {
    var s := roles[..i] + roles[i + 1..];
    forall k | 0 <= k < |s|
      ensures s[k] == roles[if k < i then k else k + 1]
    {
    }
  }

  class UserService {
    var users: seq<User>
    var roles: seq<RoleRow>
    var nextUserId: nat
    var nextRoleId: nat

    ghost predicate Valid()
      reads this
    {
      Wellformed(users, roles, nextUserId, nextRoleId)
    }

    constructor ()
      ensures Valid() && users == [] && roles == []
    {
      users := [];
      roles := [];
      nextUserId := 1;
      nextRoleId := 1;
    }

    function IsUsernameExists(username: string): (b: bool)
      reads this
      ensures b <==> exists u :: u in users && u.username == username
    {
      UserByUsername(users, username).Some?
    }

    function IsEmailExists(email: string): (b: bool)
      reads this
      ensures b <==> exists u :: u in users && u.email == email
    {
      UserByEmail(users, email).Some?
    }

    function GetUserByUsername(username: string): (r: Result<User>)
      reads this
      ensures r.Err? <==> forall u :: u in users ==> u.username != username
      ensures r.Err? ==> r.error == IllegalArgument("User not found")
      ensures r.Ok? ==> r.value in users && r.value.username == username
    {
      match UserByUsername(users, username)
        case None => Err(IllegalArgument("User not found"))
        case Some(u) => Ok(u)
    }

    function GetUserProfile(username: string): (r: Result<UserProfile>)
      reads this
      ensures r.Err? <==> forall u :: u in users ==> u.username != username
      ensures r.Err? ==> r.error == IllegalArgument("User not found")
      ensures r.Ok? ==> r.value.username == username && (r.value.admin <==> HasAdminRole(roles, r.value.id))
    {
      match UserByUsername(users, username)
        case None => Err(IllegalArgument("User not found"))
        case Some(u) => Ok(ProfileOf(u, roles))
    }

    function GetUserById(id: nat): (r: Result<UserProfile>)
      reads this
      ensures r.Err? <==> forall u :: u in users ==> u.id != id
      ensures r.Err? ==> r.error == IllegalArgument("User not found")
      ensures r.Ok? ==> r.value.id == id && (r.value.admin <==> HasAdminRole(roles, id))
    {
      match UserById(users, id)
        case None => Err(IllegalArgument("User not found"))
        case Some(u) => Ok(ProfileOf(u, roles))
    }

    /**
     * Saves the user and gives them a USER role row: the first existing USER
     * row is re-pointed at the new user (its previous holder loses it); a new
     * row is made only when there is none. A clash on the unique username or
     * email columns rolls everything back.
     */
    method RegisterUser(form: RegisterForm, now: Instant) returns (r: Result<nat>)
      requires Valid()
      modifies this
      ensures Valid()
      ensures UserByUsername(old(users), form.username).Some? ==> r == Err(ConstraintViolation("username"))
      ensures UserByUsername(old(users), form.username).None? && UserByEmail(old(users), form.email).Some? ==>
                r == Err(ConstraintViolation("email"))
      ensures r.Err? ==> users == old(users) && roles == old(roles) && nextUserId == old(nextUserId) && nextRoleId == old(nextRoleId)
      ensures r.Ok? ==>
                && r.value == old(nextUserId)
                && users == old(users) + [User(r.value, form.username, form.email, form.encodedPassword,
                                              form.firstName, form.lastName, form.phone, Some(now), None)]
                && match FirstUserRowIndex(old(roles))
                     case None => roles == old(roles) + [RoleRow(old(nextRoleId), USER, r.value)]
                     case Some(i) => roles == old(roles)[i := old(roles)[i].(owner := r.value)]
      ensures r.Ok? ==> exists i :: 0 <= i < |roles| && roles[i].owner == r.value && roles[i].role == USER
    {
      if UserByUsername(users, form.username).Some? {
        return Err(ConstraintViolation("username"));
      }
      if UserByEmail(users, form.email).Some? {
        return Err(ConstraintViolation("email"));
      }
      var id := nextUserId;
      var user := User(id, form.username, form.email, form.encodedPassword, form.firstName, form.lastName, form.phone, Some(now), None);
      WellformedAddUser(users, roles, nextUserId, nextRoleId, user);
      users := users + [user];
      nextUserId := nextUserId + 1;
      var userRow := FirstUserRowIndex(roles);
      if userRow.None? {
        var row := RoleRow(nextRoleId, USER, id);
        WellformedAddRole(users, roles, nextUserId, nextRoleId, row);
        roles := roles + [row];
        nextRoleId := nextRoleId + 1;
        assert roles[|roles| - 1] == row;
      } else {
        var i := userRow.value;
        WellformedRepointRole(users, roles, nextUserId, nextRoleId, i, id);
        roles := roles[i := roles[i].(owner := id)];
        assert roles[i].owner == id;
      }
      r := Ok(id);
    }

    /**
     * Overwrites username, email, names and phone of the user with the form's id.
     * A clash with another user on the unique columns is rejected.
     */
    method UpdateUserProfile(form: UserProfile, now: Instant) returns (r: Result<()>)
      requires Valid()
      modifies this
      ensures Valid()
      ensures roles == old(roles) && nextUserId == old(nextUserId) && nextRoleId == old(nextRoleId)
      ensures r == UpdateProfileOutcome(old(users), form, now).Unit()
      ensures users == if r.Ok? then UpdateProfileOutcome(old(users), form, now).value else old(users)
    {
      var index := UserIndex(users, form.id);
      if index.None? {
        return Err(IllegalArgument("User not found"));
      }
      var i := index.value;
      if exists j :: 0 <= j < |users| && j != i && users[j].username == form.username {
        return Err(ConstraintViolation("username"));
      }
      if exists j :: 0 <= j < |users| && j != i && users[j].email == form.email {
        return Err(ConstraintViolation("email"));
      }
      SaveUser(i, WithProfile(users[i], form, now));
      r := Ok(());
    }

    /** `userRepository.save` of an existing user whose unique columns clash with no other row. */
    method SaveUser(i: nat, u: User)
      requires Valid() && i < |users| && u.id == users[i].id
      requires forall j :: 0 <= j < |users| && j != i ==> users[j].username != u.username && users[j].email != u.email
      modifies this
      ensures Valid()
      ensures users == old(users)[i := u]
      ensures roles == old(roles) && nextUserId == old(nextUserId) && nextRoleId == old(nextRoleId)
    {
      WellformedUpdateUser(users, roles, nextUserId, nextRoleId, i, u);
      users := users[i := u];
    }

    /**
     * Grants or revokes ADMIN. An unknown user is reported before an unknown
     * role name; revoking from the super administrator is refused.
     */
    method ChangeUserRole(userId: nat, role: string) returns (r: Result<()>)
      requires Valid()
      modifies this
      ensures Valid()
      ensures users == old(users) && nextUserId == old(nextUserId)
      ensures r == ChangeRoleOutcome(users, old(roles), old(nextRoleId), userId, role).Unit()
      ensures roles == if r.Ok? then ChangeRoleOutcome(users, old(roles), old(nextRoleId), userId, role).value else old(roles)
      ensures nextRoleId == if |roles| > |old(roles)| then old(nextRoleId) + 1 else old(nextRoleId)
    {
      if UserById(users, userId).None? {
        return Err(IllegalArgument("User not found"));
      }
      var requested := ParseRole(role);
      if requested.None? {
        return Err(IllegalArgument("No enum constant com.softuni.event.model.enums.UserRole." + role));
      }
      if requested.value == USER {
        if HasAdminRole(roles, userId) && userId == SUPER_ADMIN_ID {
          return Err(IllegalState("Cannot remove ADMIN role from the super administrator"));
        }
        RevokeAdmin(userId);
      } else {
        GrantAdmin(userId);
      }
      r := Ok(());
    }

    /** Deletes the user's first ADMIN row, if there is one. */
    method RevokeAdmin(userId: nat)
      requires Valid()
      modifies this
      ensures Valid()
      ensures users == old(users) && nextUserId == old(nextUserId) && nextRoleId == old(nextRoleId)
      ensures roles == Revoked(old(roles), userId) && |roles| <= |old(roles)|
    {
      var adminRow := AdminRowIndex(roles, userId);
      if adminRow.Some? {
        var i := adminRow.value;
        WellformedRemoveRole(users, roles, nextUserId, nextRoleId, i);
        roles := roles[..i] + roles[i + 1..];
      }
    }

    /** Adds an ADMIN row for the user unless they already hold one. */
    method GrantAdmin(userId: nat)
      requires Valid()
      modifies this
      ensures Valid()
      ensures users == old(users) && nextUserId == old(nextUserId)
      ensures roles == Granted(old(roles), userId, old(nextRoleId))
      ensures nextRoleId == if |roles| > |old(roles)| then old(nextRoleId) + 1 else old(nextRoleId)
    {
      if !HasAdminRole(roles, userId) {
        WellformedAddRole(users, roles, nextUserId, nextRoleId, RoleRow(nextRoleId, ADMIN, userId));
        roles := roles + [RoleRow(nextRoleId, ADMIN, userId)];
        nextRoleId := nextRoleId + 1;
      }
    }
  }

  /**
   * Registration re-points an existing USER row: when the first USER row
   * belonged to another user, that user holds one USER row fewer afterwards.
   */
  lemma {:induction false} ReusedUserRowLeavesPreviousOwner(roles: seq<RoleRow>, i: nat, newId: nat)
    requires i < |roles| && roles[i].role == USER && roles[i].owner != newId
    ensures var p := (row: RoleRow) => row.owner == roles[i].owner && row.role == USER;
            Count(roles[i := roles[i].(owner := newId)], p) == Count(roles, p) - 1
  {
    var p := (row: RoleRow) => row.owner == roles[i].owner && row.role == USER;
    CountUpdate(roles, i, roles[i].(owner := newId), p);
  }
}
