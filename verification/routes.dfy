/** The two route guards. The router's guard waits for the session restore,
    then sends visitors to `/login` and under-privileged users to `/` with a
    message. The older page guard shows a login modal instead and remembers
    where to go after login (`postLoginView`). */
module Routes {
  import opened Wrappers
  import opened Types

  const ADMIN_ONLY: string := "Bạn không có quyền truy cập trang này. Chỉ Admin mới được phép."
  const STAFF_ONLY: string := "Bạn không có quyền truy cập trang này. Chỉ Staff/Admin mới được phép."

  /** What the router's guard renders. */
  datatype Decision = Loading | ToLogin | ToHome(error: string) | Render

  function RoleOf(user: Option<User>): Option<string>
  {
    if user.Some? then Some(user.value.role) else None
  }

  /** The router guard's chain: loading first, then authentication, then the
      admin requirement, then the staff requirement, which an admin meets. */
  function Guard(isLoading: bool, user: Option<User>, requireAdmin: bool, requireStaff: bool): (d: Decision)
    ensures isLoading ==> d == Loading
    ensures !isLoading && user.None? ==> d == ToLogin
    ensures d == Render <==>
      !isLoading && user.Some?
      && (requireAdmin ==> user.value.role == ADMIN)
      && (requireStaff ==> user.value.role in {ADMIN, STAFF})
    ensures d.ToHome? ==> d.error == (if requireAdmin && user.value.role != ADMIN then ADMIN_ONLY else STAFF_ONLY)
  {
    if isLoading then Loading
    else if user.None? then ToLogin
    else if requireAdmin && !(user.Some? && user.value.role == ADMIN) then ToHome(ADMIN_ONLY)
    else if requireStaff && RoleOf(user) != Some(STAFF) && RoleOf(user) != Some(ADMIN) then ToHome(STAFF_ONLY)
    else Render
  }

  /** Raising a requirement never lets more users through: whoever passes an
      admin-only route passes the same route with a staff requirement, and
      whoever passes a route with requirements passes it without them. */
  lemma GuardMonotone(user: Option<User>, requireAdmin: bool, requireStaff: bool)
    ensures Guard(false, user, true, requireStaff) == Render ==> Guard(false, user, requireAdmin, true) == Render
    ensures Guard(false, user, requireAdmin, requireStaff) == Render ==> Guard(false, user, false, false) == Render
  {
  }

  /** What the page guard renders. */
  datatype PageView = LoginModal | Denied | Children

  /** The page guard's state: the remembered `postLoginView`. */
  class PageGuard {
    var postLoginView: Option<string>

    constructor (postLoginView: Option<string>)
      ensures this.postLoginView == postLoginView
    {
      this.postLoginView := postLoginView;
    }

    /** A visitor gets the login modal, and the desired view (when one is
        given and non-empty) is remembered, else forgotten; a signed-in user
        without the admin role on an admin page is denied; everyone else sees
        the page, with `postLoginView` untouched. */
    method Render(user: Option<User>, requireAdmin: bool, desiredView: Option<string>) returns (v: PageView)
      modifies this
      ensures user.None? ==>
        && v == LoginModal
        && postLoginView == (if desiredView.Some? && desiredView.value != [] then desiredView else None)
      ensures user.Some? ==>
        && postLoginView == old(postLoginView)
        && v == (if requireAdmin && user.value.role != ADMIN then Denied else Children)
    {
      if user.None? {
        if desiredView.Some? && desiredView.value != [] {
          postLoginView := desiredView;
        } else {
          postLoginView := None;
        }
        return LoginModal;
      }
      if requireAdmin && user.value.role != ADMIN {
        return Denied;
      }
      return Children;
    }

    /** Closing the login modal, or signing out from the denied view, forgets
        the desired view. */
    method CloseLogin()
      modifies this
      ensures postLoginView.None?
    {
      postLoginView := None;
    }
  }
}
