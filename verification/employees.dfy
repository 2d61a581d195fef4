/** Government employees: registration (`POST /govt-emp-register`) and
    login (`POST /govt-emp-login`). */
module Employees {
  import opened Common
  import opened Records

  /** The registration body. An absent field is "": the handler's `!field`
      guard refuses an absent and an empty field alike. */
  datatype EmployeeForm = EmployeeForm(empId: string, name: string, email: string, password: string, department: string)

  datatype EmployeeRegistered = EmployeeRegistered(response: Response, store: Store)

  const MissingFields := Response(400, "All fields are required: empId, name, email, password, department")
  const DuplicateEmployee := Response(400, "Employee ID or email already exists")

  predicate Complete(form: EmployeeForm) {
    form.empId != "" && form.name != "" && form.email != "" && form.password != "" && form.department != ""
  }

  predicate Clashes(employees: seq<GovtEmployee>, form: EmployeeForm) {
    exists e :: e in employees && (e.empId == form.empId || e.email == form.email)
  }

  /** Employee ids and emails are unique and every employee has the one
      allowed role. */
  predicate EmployeesWellFormed(employees: seq<GovtEmployee>) {
    && (forall i, j :: 0 <= i < j < |employees| ==>
          employees[i].empId != employees[j].empId && employees[i].email != employees[j].email)
    && (forall e :: e in employees ==> e.role == GovernmentRole)
  }

  /** A missing field is refused before the store is consulted; then an
      existing empId or email is refused; otherwise exactly one employee is
      added, with the password hashed and the role defaulted to
      `government`. */
  function RegisterEmployee(store: Store, form: EmployeeForm, kdf: (string, string) -> string,
                            salt: string, freshId: string): (r: EmployeeRegistered)
    requires forall e :: e in store.employees ==> e.id != freshId
    ensures !Complete(form) ==> r.response == MissingFields
    ensures Complete(form) && Clashes(store.employees, form) ==> r.response == DuplicateEmployee
    ensures r.response.code == 201 <==> Complete(form) && !Clashes(store.employees, form)
    ensures r.response.code != 201 ==> r.store == store
    ensures r.response.code == 201 ==>
      && |r.store.employees| == |store.employees| + 1
      && r.store == store.(employees := store.employees + [r.store.employees[|store.employees|]])
      && var e := r.store.employees[|store.employees|];
         && e.id == freshId && e.empId == form.empId && e.email == form.email && e.name == form.name
         && e.department == form.department && e.role == GovernmentRole
         && e.password == Hash(kdf, salt, form.password)
         && Verify(kdf, form.password, e.password)
  {
    if !Complete(form) then EmployeeRegistered(MissingFields, store)
    else if Clashes(store.employees, form) then EmployeeRegistered(DuplicateEmployee, store)
    else
      var e := GovtEmployee(freshId, form.empId, form.name, form.email, Hash(kdf, salt, form.password),
                            form.department, GovernmentRole);
      EmployeeRegistered(Response(201, "Government employee registered successfully"),
                         store.(employees := store.employees + [e]))
  }

  lemma RegisterEmployeeKeepsWellFormed(store: Store, form: EmployeeForm, kdf: (string, string) -> string,
                                        salt: string, freshId: string)
    requires forall e :: e in store.employees ==> e.id != freshId
    requires EmployeesWellFormed(store.employees)
    ensures EmployeesWellFormed(RegisterEmployee(store, form, kdf, salt, freshId).store.employees)
  {
    var r := RegisterEmployee(store, form, kdf, salt, freshId);
    if r.response.code == 201 {
      var es := r.store.employees;
      var n := |store.employees|;
      forall i, j | 0 <= i < j < |es| ensures es[i].empId != es[j].empId && es[i].email != es[j].email {
        assert es[i] == store.employees[i];
        if j == n {
          assert store.employees[i] in store.employees;
        } else {
          assert es[j] == store.employees[j];
        }
      }
      forall e | e in es ensures e.role == GovernmentRole {
        if e != es[n] {
          var k :| 0 <= k < |es| && es[k] == e;
          assert es[k] == store.employees[k];
        }
      }
    }
  }

  // ---------------------------------------------------------------------
  // Login

  datatype EmployeeLoggedIn = EmployeeLoggedIn(
    response: Response,
    name: Option<string>,
    redirect: Option<string>,
    cookie: Option<Cookie>,
    session: Session)

  const BadCredentials := Response(400, "Invalid email or password")
  const VerificationPage := "/pages/Government/Govt-verification.html"

  function FindEmployeeByEmail(employees: seq<GovtEmployee>, email: string): (r: Option<nat>)
    ensures r.None? <==> forall e :: e in employees ==> e.email != email
    ensures r.Some? ==> r.value < |employees| && employees[r.value].email == email
    ensures r.Some? ==> forall j :: 0 <= j < r.value ==> employees[j].email != email
  {
    FindFirst(employees, (e: GovtEmployee) => e.email == email)
  }

  const LoginError := Response(500, "Server error during login")

  /** The employee the login query finds: without an email the query has
      no condition and matches the first stored employee, if any. */
  function LoginMatch(employees: seq<GovtEmployee>, email: Option<string>): (r: Option<nat>)
    ensures email.Some? ==> r == FindEmployeeByEmail(employees, email.value)
    ensures email.None? ==> (r.Some? <==> |employees| > 0) && (r.Some? ==> r.value == 0)
  {
    match email
    case Some(e) => FindEmployeeByEmail(employees, e)
    case None => if |employees| > 0 then Some(0) else None
  }

  /** A missing employee and a wrong password give the same 400 and leave
      the session alone; a matched employee with no password at all makes
      the comparison throw, which answers 500. Without an email the query
      matches the first stored employee. On success the session carries
      the government role and the signed `auth` cookie carries the
      employee's id. */
  function LoginEmployee(employees: seq<GovtEmployee>, session: Session, email: Option<string>,
                         password: Option<string>, kdf: (string, string) -> string): (r: EmployeeLoggedIn)
    ensures email.Some? ==> (r.response.code == 200 <==>
      exists i :: 0 <= i < |employees| && employees[i].email == email.value
              && password.Some? && Verify(kdf, password.value, employees[i].password)
              && forall j :: 0 <= j < i ==> employees[j].email != email.value)
    ensures email.None? ==> (r.response.code == 200 <==>
      |employees| > 0 && password.Some? && Verify(kdf, password.value, employees[0].password))
    ensures r.response.code == 500 <==>
      password.None?
      && (if email.Some? then exists e :: e in employees && e.email == email.value else |employees| > 0)
    ensures r.response.code == 500 ==> r == EmployeeLoggedIn(LoginError, None, None, None, session)
    ensures r.response.code !in {200, 500} ==> r == EmployeeLoggedIn(BadCredentials, None, None, None, session)
    ensures r.response.code == 200 ==>
      && r.session == session.(userRole := Some(GovernmentRole))
      && r.redirect == Some(VerificationPage)
      && LoginMatch(employees, email).Some?
      && var e := employees[LoginMatch(employees, email).value];
         && Verify(kdf, password.value, e.password)
         && r.cookie == Some(AuthCookie(e.id)) && r.name == Some(e.name)
  {
    match LoginMatch(employees, email)
    case None => EmployeeLoggedIn(BadCredentials, None, None, None, session)
    case Some(i) =>
      var e := employees[i];
      if password.None? then EmployeeLoggedIn(LoginError, None, None, None, session)
      else if !Verify(kdf, password.value, e.password) then EmployeeLoggedIn(BadCredentials, None, None, None, session)
      else EmployeeLoggedIn(Response(200, "Login successful"), Some(e.name), Some(VerificationPage),
                            Some(AuthCookie(e.id)), session.(userRole := Some(GovernmentRole)))
  }

  /** When a password is given, a missing employee and a wrong password are
      indistinguishable to the caller. */
  lemma EmployeeLoginFailuresIndistinguishable(es1: seq<GovtEmployee>, es2: seq<GovtEmployee>, session: Session,
                                               email: string, password: string, kdf: (string, string) -> string)
    requires forall e :: e in es1 ==> e.email != email
    requires forall e :: e in es2 && e.email == email ==> !Verify(kdf, password, e.password)
    ensures LoginEmployee(es1, session, Some(email), Some(password), kdf)
         == LoginEmployee(es2, session, Some(email), Some(password), kdf)
  {
  }

  /** A freshly registered employee can log in with the password just
      chosen, and the session then carries the government role. */
  lemma RegisteredEmployeeCanLogIn(store: Store, form: EmployeeForm, kdf: (string, string) -> string,
                                   salt: string, freshId: string, session: Session)
    requires forall e :: e in store.employees ==> e.id != freshId
    requires RegisterEmployee(store, form, kdf, salt, freshId).response.code == 201
    ensures var r := LoginEmployee(RegisterEmployee(store, form, kdf, salt, freshId).store.employees,
                                   session, Some(form.email), Some(form.password), kdf);
            r.response.code == 200 && r.cookie == Some(AuthCookie(freshId))
            && r.session.userRole == Some(GovernmentRole)
  {
    var es := RegisterEmployee(store, form, kdf, salt, freshId).store.employees;
    var n := |store.employees|;
    forall j | 0 <= j < n ensures es[j].email != form.email {
      assert es[j] == store.employees[j] && store.employees[j] in store.employees;
    }
    assert FindEmployeeByEmail(es, form.email) == Some(n);
  }

  /** A login without an email is checked against the first stored
      employee: the right password for that employee logs in as that
      employee and grants the government role. */
  lemma MissingEmailLogsInAsFirstEmployee(employees: seq<GovtEmployee>, session: Session, password: string,
                                          kdf: (string, string) -> string)
    requires |employees| > 0 && Verify(kdf, password, employees[0].password)
    ensures var r := LoginEmployee(employees, session, None, Some(password), kdf);
            r.response.code == 200 && r.cookie == Some(AuthCookie(employees[0].id))
            && r.session.userRole == Some(GovernmentRole)
  {
  }
}
