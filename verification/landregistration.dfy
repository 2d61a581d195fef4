/** `registerLand`: an authenticated user registers a land parcel. The
    handler copies the user's name, email and phone onto the land and
    passes no status, price or negotiable flag, so those take the schema
    defaults. */
module LandRegistration {
  import opened Common
  import opened Records
  import opened LandSchema
  import Accounts

  /** The land details taken from the request body. */
  datatype LandForm = LandForm(
    title: string,
    description: string,
    location: Location,
    area: Area,
    propertyType: string,
    documentIds: seq<string>,
    saleDescription: Option<string>,
    images: seq<string>)

  datatype LandRegistered = LandRegistered(response: Response, errors: map<Path, string>, store: Store)

  const NoStatistics := Statistics(0, 0, 0)

  /** The document the handler builds for `owner`. */
  function NewLand(id: string, owner: string, user: User, form: LandForm, now: int): Land {
    Land(id, owner, UserDetails(user.name, user.email, user.phoneNumber),
         form.title, form.description, form.location, form.area, form.propertyType, form.documentIds,
         now, "available", None, form.saleDescription, false, NoStatistics, form.images)
  }

  /** Missing cookie: 401; unknown user: 404; both before anything is
      built. A document failing the schema: 400 with one message per failing
      path. Otherwise exactly one land is added, owned by the caller, with
      status `available`, no price, negotiable false and zero statistics. */
  function RegisterLand(store: Store, cookie: Option<string>, form: LandForm, freshId: string, now: int): (r: LandRegistered)
    ensures r.response.code == 401 <==> !Present(cookie)
    ensures r.response.code == 404 <==> Present(cookie) && FindUser(store.users, cookie.value).None?
    ensures r.response.code in {201, 400, 401, 404}
    ensures r.response.code != 201 ==> r.store == store
    ensures r.response.code != 400 ==> r.errors == map[]
    ensures r.response.code == 400 <==>
      && Present(cookie) && FindUser(store.users, cookie.value).Some?
      && Validate(NewLand(freshId, cookie.value, store.users[FindUser(store.users, cookie.value).value], form, now))
         != map[]
    ensures r.response.code == 400 ==>
      && r.response.message == "Validation failed"
      && r.errors == Validate(NewLand(freshId, cookie.value, store.users[FindUser(store.users, cookie.value).value],
                                      form, now))
    ensures r.response.code == 201 ==>
      && Present(cookie)
      && |r.store.lands| == |store.lands| + 1
      && r.store == store.(lands := store.lands + [r.store.lands[|store.lands|]])
      && var l := r.store.lands[|store.lands|];
         && ValidLand(l)
         && l.id == freshId && l.owner == cookie.value
         && l.status == "available" && l.price.None? && !l.negotiable && l.statistics == Statistics(0, 0, 0)
         && l.registrationDate == now
         && (exists u :: u in store.users && u.id == cookie.value
                         && l.userDetails == UserDetails(u.name, u.email, u.phoneNumber))
         && l.title == form.title && l.description == form.description && l.location == form.location
         && l.area == form.area && l.propertyType == form.propertyType && l.documentIds == form.documentIds
         && l.saleDescription == form.saleDescription && l.images == form.images
  {
    if !Present(cookie) then LandRegistered(Response(401, "User not authenticated"), map[], store)
    else match FindUser(store.users, cookie.value)
      case None => LandRegistered(Response(404, "User not found"), map[], store)
      case Some(i) =>
        var land := NewLand(freshId, cookie.value, store.users[i], form, now);
        var errors := Validate(land);
        if errors != map[] then LandRegistered(Response(400, "Validation failed"), errors, store)
        else LandRegistered(Response(201, "Land registered successfully"), map[], store.(lands := store.lands + [land]))
  }

  /** A registration succeeds exactly when the caller is a known user and
      the land built from the form and that user's details is valid. */
  lemma RegisterLandSucceedsIffValid(store: Store, cookie: Option<string>, form: LandForm, freshId: string, now: int)
    requires Present(cookie) && FindUser(store.users, cookie.value).Some?
    ensures var u := store.users[FindUser(store.users, cookie.value).value];
            RegisterLand(store, cookie, form, freshId, now).response.code == 201
            <==> ValidLand(NewLand(freshId, cookie.value, u, form, now))
  {
  }

  /** The User schema has no phone number, so a user created by
      registration has none, and every land registration by that user fails
      validation on the copied phone number. */
  lemma RegisteredUserCannotRegisterLand(store: Store, account: Accounts.RegisterForm,
                                         kdf: (string, string) -> string, salt: string, userId: string,
                                         form: LandForm, landId: string, now: int)
    requires userId != "" && forall u :: u in store.users ==> u.id != userId
    requires Accounts.RegisterUser(store, account, kdf, salt, userId, now).response.code == 201
    ensures var s := Accounts.RegisterUser(store, account, kdf, salt, userId, now).store;
            var r := RegisterLand(s, Some(userId), form, landId, now);
            r.response.code == 400 && UserPhone in r.errors
            && r.errors[UserPhone] == "User phone number is required"
  {
    var s := Accounts.RegisterUser(store, account, kdf, salt, userId, now).store;
    var n := |store.users|;
    assert s.users[n] in s.users;
    var i := FindUser(s.users, userId).value;
    assert s.users[i].phoneNumber == "";
    var land := NewLand(landId, userId, s.users[i], form, now);
    assert Check(land, UserPhone) == Some("User phone number is required");
    assert UserPhone in Validate(land);
  }
}
