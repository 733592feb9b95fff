/**
 * AppUserDetailsService: the Spring Security principal for a username, with
 * one authority "ROLE_<name>" per role row the user owns.
 */
module AppUserDetailsService {
  import opened Common
  import opened Entities
  import US = UserServiceImpl

  /** The principal: username, password hash and authorities (a set, as Spring Security keeps them). */
  datatype UserDetails = UserDetails(username: string, password: string, authorities: set<string>)

  function Authority(role: UserRole): (a: string)
    ensures a == "ROLE_" + RoleName(role)
  {
    match role
    case USER => "ROLE_USER"
    case ADMIN => "ROLE_ADMIN"
  }

  /** The authorities of a list of role rows. */
  function Authorities(rows: seq<RoleRow>): (r: set<string>)
    ensures forall a :: a in r <==> exists row :: row in rows && a == Authority(row.role)
    ensures rows == [] ==> r == {}
    decreases |rows|
  {
    if rows == [] then {}
    else
      var rest := Authorities(rows[1..]);
      assert forall row :: row in rows <==> row == rows[0] || row in rows[1..];
      {Authority(rows[0].role)} + rest
  }

  /**
   * loadUserByUsername: UsernameNotFound for an unknown name; otherwise the
   * user's name and password unchanged and an authority per owned role.
   * Spring's User refuses an empty username.
   */
  function LoadUserByUsername(users: seq<User>, roles: seq<RoleRow>, username: string): (r: Result<UserDetails>)
    ensures UserByUsername(users, username).None? ==>
              r == Err(UsernameNotFound("User with username " + username + " not found"))
    ensures UserByUsername(users, username).Some? && username == "" ==>
              r == Err(IllegalArgument("Cannot pass null or empty values to constructor"))
    ensures r.Ok? ==>
              var u := UserByUsername(users, username).value;
              && r.value.username == u.username == username && r.value.password == u.password
              && (forall a :: a in r.value.authorities <==>
                    exists row :: row in roles && row.owner == u.id && a == Authority(row.role))
  {
    match UserByUsername(users, username)
      case None => Err(UsernameNotFound("User with username " + username + " not found"))
      case Some(u) =>
        if u.username == "" then Err(IllegalArgument("Cannot pass null or empty values to constructor"))
        else Ok(UserDetails(u.username, u.password, Authorities(US.RolesOf(roles, u.id))))
  }

  /** The two authorities differ, so ROLE_ADMIN comes from an ADMIN row only. */
  lemma AuthorityIsAdmin(role: UserRole)
    ensures Authority(role) == "ROLE_ADMIN" <==> role == ADMIN
  {
    assert |Authority(USER)| == 9 && |Authority(ADMIN)| == 10;
  }

  /** An ADMIN row gives ROLE_ADMIN, and a user with no rows gets no authority. */
  lemma AdminRowGivesAdminAuthority(users: seq<User>, roles: seq<RoleRow>, username: string)
    requires LoadUserByUsername(users, roles, username).Ok?
    ensures var u := UserByUsername(users, username).value;
            "ROLE_ADMIN" in LoadUserByUsername(users, roles, username).value.authorities <==>
            US.HasAdminRole(roles, u.id)
    ensures var u := UserByUsername(users, username).value;
            US.RolesOf(roles, u.id) == [] ==> LoadUserByUsername(users, roles, username).value.authorities == {}
  {
    var u := UserByUsername(users, username).value;
    var mine := US.RolesOf(roles, u.id);
    var auths := Authorities(mine);
    assert LoadUserByUsername(users, roles, username).value.authorities == auths;
    if "ROLE_ADMIN" in auths {
      var row :| row in mine && "ROLE_ADMIN" == Authority(row.role);
      AuthorityIsAdmin(row.role);
      var i :| 0 <= i < |roles| && roles[i] == row;
      assert US.IsAdminRow(roles[i], u.id);
    }
    if US.HasAdminRole(roles, u.id) {
      var i :| 0 <= i < |roles| && US.IsAdminRow(roles[i], u.id);
      assert roles[i] in roles;
      assert roles[i] in mine;
      AuthorityIsAdmin(roles[i].role);
    }
  }
}
