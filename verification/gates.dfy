/** The access checks placed in front of routes: the session-or-cookie gate
    for users (`isAuthenticated`), the cookie gate for government pages
    (`isGovtAuthenticated`) and the government role check
    (`restrictToGovernment`). */
module Gates {
  import opened Common
  import opened Records

  /** What a middleware does with a request: pass it on with the (possibly
      updated) session, answer it, or redirect it. */
  datatype Gate = Proceed(session: Session) | Reject(response: Response) | RedirectTo(url: string)

  const Unauthorized := Response(401, "Unauthorized: Please log in.")
  const Forbidden := Response(403, "Forbidden: Access restricted to government employees")
  const GovtLoginPage := "/pages/Government/Govt-login.html"

  /** `req.session.userId || req.signedCookies.auth` */
  function Identity(session: Session, cookie: Option<string>): Option<string> {
    if Present(session.userId) then session.userId
    else if Present(cookie) then cookie
    else None
  }

  /** Proceeds iff the session or the signed `auth` cookie names someone;
      the session's user id wins over the cookie, and on the way through
      the session records the identity used. Otherwise 401, session
      untouched. */
  function IsAuthenticated(session: Session, cookie: Option<string>): (g: Gate)
    ensures g.Proceed? <==> Present(session.userId) || Present(cookie)
    ensures g.Proceed? && Present(session.userId) ==> g.session == session
    ensures g.Proceed? && !Present(session.userId) ==> g.session == session.(userId := cookie)
    ensures g.Proceed? ==> Present(g.session.userId) && g.session.userRole == session.userRole
    ensures !g.Proceed? ==> g == Reject(Unauthorized)
  {
    match Identity(session, cookie)
    case Some(id) => Proceed(session.(userId := Some(id)))
    case None => Reject(Unauthorized)
  }

  /** Proceeds iff a signed `auth` cookie exists, otherwise redirects to the
      government login page. Nothing else is consulted. */
  function IsGovtAuthenticated(session: Session, cookie: Option<string>): (g: Gate)
    ensures g.Proceed? <==> Present(cookie)
    ensures g.Proceed? ==> g.session == session
    ensures !g.Proceed? ==> g == RedirectTo(GovtLoginPage)
  {
    if Present(cookie) then Proceed(session) else RedirectTo(GovtLoginPage)
  }

  /** A session already marked `government` proceeds. Otherwise the cookie's
      id is looked up among the employees: a government employee proceeds
      and the role is remembered in the session; anyone else gets 403. */
  function RestrictToGovernment(session: Session, cookie: Option<string>, employees: seq<GovtEmployee>): (g: Gate)
    ensures !g.RedirectTo?
    ensures g.Proceed? <==>
      || session.userRole == Some(GovernmentRole)
      || (Present(cookie) && FindEmployee(employees, cookie.value).Some?
          && employees[FindEmployee(employees, cookie.value).value].role == GovernmentRole)
    ensures g.Proceed? ==> g.session == session.(userRole := Some(GovernmentRole))
    ensures g.Reject? ==> g.response == Forbidden
  {
    if session.userRole == Some(GovernmentRole) then Proceed(session)
    else if !Present(cookie) then Reject(Forbidden)
    else match FindEmployee(employees, cookie.value)
      case Some(i) =>
        if employees[i].role == GovernmentRole then Proceed(session.(userRole := Some(GovernmentRole)))
        else Reject(Forbidden)
      case None => Reject(Forbidden)
  }

  /** A session marked `government` passes whatever the employee store holds:
      no lookup takes place. */
  lemma RoleInSessionNeedsNoLookup(session: Session, cookie: Option<string>,
                                   es1: seq<GovtEmployee>, es2: seq<GovtEmployee>)
    requires session.userRole == Some(GovernmentRole)
    ensures RestrictToGovernment(session, cookie, es1) == RestrictToGovernment(session, cookie, es2) == Proceed(session)
  {
  }

  /** When employee ids are distinct, the role check proceeds exactly for a
      government session or a cookie naming a government employee. */
  lemma RestrictMeaning(session: Session, cookie: Option<string>, employees: seq<GovtEmployee>)
    requires forall i, j :: 0 <= i < j < |employees| ==> employees[i].id != employees[j].id
    ensures RestrictToGovernment(session, cookie, employees).Proceed? <==>
      || session.userRole == Some(GovernmentRole)
      || (Present(cookie) && exists e :: e in employees && e.id == cookie.value && e.role == GovernmentRole)
  {
    if Present(cookie) && FindEmployee(employees, cookie.value).Some? {
      var i := FindEmployee(employees, cookie.value).value;
      forall e | e in employees && e.id == cookie.value ensures e == employees[i] {
        var k :| 0 <= k < |employees| && employees[k] == e;
        assert !(i < k) || employees[i].id != employees[k].id;
      }
    }
  }
}
