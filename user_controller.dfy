/**
 * UserController: the order of the registration checks, and the path id
 * forced onto the profile form an administrator submits.
 */
module UserController {
  import opened Common
  import opened Entities
  import US = UserServiceImpl

  /** The registration form as submitted. */
  datatype RegisterRequest = RegisterRequest(username: string, email: string, password: string, confirmPassword: string)

  /** The register handler's answer: the form again with the field it rejected (if any), or the redirect after registering. */
  datatype RegisterView =
    | RegisterForm(rejected: Option<(string, string)>)
    | RegisteredRedirect(url: string)

  /**
   * POST /users/register against the user table: binding errors first, then
   * the password confirmation, then the username, then the e-mail; only
   * when all pass is registerUser called and the browser redirected.
   */
  function Register(request: RegisterRequest, bindingErrors: bool, users: seq<User>): (v: RegisterView)
    ensures bindingErrors ==> v == RegisterForm(None)
    ensures !bindingErrors && request.password != request.confirmPassword ==>
              v == RegisterForm(Some(("confirmPassword", "Passwords do not match")))
    ensures !bindingErrors && request.password == request.confirmPassword &&
            UserByUsername(users, request.username).Some? ==>
              v == RegisterForm(Some(("username", "Username already exists")))
    ensures v == RegisterForm(Some(("email", "Email already exists"))) <==>
              !bindingErrors && request.password == request.confirmPassword &&
              UserByUsername(users, request.username).None? && UserByEmail(users, request.email).Some?
    ensures v.RegisteredRedirect? <==>
              !bindingErrors && request.password == request.confirmPassword &&
              UserByUsername(users, request.username).None? && UserByEmail(users, request.email).None?
    ensures v.RegisteredRedirect? ==> v.url == "/users/login?registered=true"
  {
    if bindingErrors then RegisterForm(None)
    else if request.password != request.confirmPassword then RegisterForm(Some(("confirmPassword", "Passwords do not match")))
    else if UserByUsername(users, request.username).Some? then RegisterForm(Some(("username", "Username already exists")))
    else if UserByEmail(users, request.email).Some? then RegisterForm(Some(("email", "Email already exists")))
    else RegisteredRedirect("/users/login?registered=true")
  }

  /**
   * A taken username is reported even when the e-mail is taken too, and a
   * redirect means neither is in use, so the registerUser call that follows
   * does not hit a unique column.
   */
  lemma UsernameCheckedBeforeEmail(request: RegisterRequest, users: seq<User>)
    requires request.password == request.confirmPassword
    requires UserByUsername(users, request.username).Some? && UserByEmail(users, request.email).Some?
    ensures Register(request, false, users) == RegisterForm(Some(("username", "Username already exists")))
  {
  }

  /** The admin edit handler's answer: the edit page with the submitted form (and the error caught, if any), or the redirect. */
  datatype AdminEditView =
    | AdminEditForm(form: US.UserProfile, error: Option<Error>)
    | AdminEditRedirect(url: string)

  /** The profile actually handled: the form with its id replaced by the path id. */
  function Forced(id: nat, form: US.UserProfile): US.UserProfile
  {
    form.(id := id)
  }

  const ADMIN_EDIT_SUCCESS := "/users/admin/users?success=User+updated+successfully"

  /**
   * POST /users/admin/edit/{id} against the user table: the path id is forced
   * onto the form first; with binding errors the page is shown again and
   * updateUserProfile is not called; otherwise updateUserProfile runs on the
   * forced form, and its exception, if any, is caught and shown on the page.
   * The result is the view and the user table afterwards.
   */
  function AdminUpdateUser(users: seq<User>, id: nat, form: US.UserProfile, bindingErrors: bool, now: Instant)
    : (r: (AdminEditView, seq<User>))
    ensures bindingErrors ==> r == (AdminEditForm(Forced(id, form), None), users)
    ensures r.0.AdminEditRedirect? <==> !bindingErrors && US.UpdateProfileOutcome(users, Forced(id, form), now).Ok?
    ensures r.0.AdminEditRedirect? ==>
              r.0.url == ADMIN_EDIT_SUCCESS && r.1 == US.UpdateProfileOutcome(users, Forced(id, form), now).value
    ensures !bindingErrors && US.UpdateProfileOutcome(users, Forced(id, form), now).Err? ==>
              r == (AdminEditForm(Forced(id, form), Some(US.UpdateProfileOutcome(users, Forced(id, form), now).error)), users)
    ensures r.0.AdminEditForm? ==> r.0.form.id == id && r.1 == users
  {
    var forced := Forced(id, form);
    if bindingErrors then (AdminEditForm(forced, None), users)
    else match US.UpdateProfileOutcome(users, forced, now)
      case Ok(updated) => (AdminEditRedirect(ADMIN_EDIT_SUCCESS), updated)
      case Err(e) => (AdminEditForm(forced, Some(e)), users)
  }

  /**
   * Whatever id the submitted form carried, the handler behaves as for the
   * path id: on the redirect exactly the user with the path id takes the
   * form's fields, every other row is untouched, and the table stays well formed.
   */
  lemma AdminUpdateTargetsPathUser(users: seq<User>, roles: seq<RoleRow>, nextUserId: nat, nextRoleId: nat,
                                   id: nat, form: US.UserProfile, bindingErrors: bool, now: Instant, other: nat)
    requires US.Wellformed(users, roles, nextUserId, nextRoleId)
    ensures AdminUpdateUser(users, id, form.(id := other), bindingErrors, now) == AdminUpdateUser(users, id, form, bindingErrors, now)
    ensures AdminUpdateUser(users, id, form, bindingErrors, now).0.AdminEditRedirect? ==>
              var r := AdminUpdateUser(users, id, form, bindingErrors, now).1;
              |r| == |users| && US.Wellformed(r, roles, nextUserId, nextRoleId) &&
              forall k :: 0 <= k < |users| ==>
                if users[k].id == id then r[k] == US.WithProfile(users[k], form, now) else r[k] == users[k]
  {
    assert Forced(id, form.(id := other)) == Forced(id, form);
    var forced := Forced(id, form);
    if !bindingErrors && US.UpdateProfileOutcome(users, forced, now).Ok? {
      US.UpdateProfileChangesOnlyThatUser(users, roles, nextUserId, nextRoleId, forced, now);
      assert forall u: User :: US.WithProfile(u, forced, now) == US.WithProfile(u, form, now);
    }
  }
}
