/** `sellLand`: an owner asks for a registered land to be put on public
    sale. The request snapshots the seller and the land and waits, pending,
    for a government employee to review it. */
module SellRequests {
  import opened Common
  import opened Records
  import opened LandSchema

  /** The request body. */
  datatype SellForm = SellForm(
    landId: Option<string>,
    price: Option<int>,
    landImageUrl: Option<string>,
    negotiable: Option<bool>,
    contactPhoneNumber: Option<string>)

  datatype Submitted = Submitted(response: Response, store: Store)

  const NotAuthenticated := Response(401, "Not authenticated")
  const UserNotFound := Response(404, "User not found")
  const BadTerms := Response(400, "Land ID and a valid price are required")
  const LandNotFound := Response(404, "Land not found")
  const NotOwner := Response(403, "You can only sell your own land")
  const AlreadyListed := Response(400, "This land is already listed for sale")
  const SaveFailed := Response(500, "Server error while listing land for sale")
  const Created := Response(201, "Land listed for sale successfully")

  /** The SellLand schema: every required field present, the pincode six
      digits, a non-negative area from the unit enum, a property type from
      its enum, at least one document id and a non-negative price. The
      status enum holds by construction of `SaleStatus`. */
  predicate ValidSellLand(s: SellLand) {
    && s.user.userId != "" && s.user.name != "" && s.user.email != "" && s.user.phoneNumber != ""
    && ValidSnapshot(s.land)
    && s.price >= 0
  }

  /** The land half of the SellLand schema. */
  predicate ValidSnapshot(s: LandSnapshot) {
    && s.landId != "" && s.title != "" && s.description != ""
    && s.location.address != "" && s.location.city != "" && s.location.state != ""
    && PincodeOk(s.location.pincode)
    && s.area.value.Some? && s.area.value.value >= 0
    && s.area.unit in AreaUnits
    && s.propertyType in PropertyTypes
    && |s.documentIds| > 0
  }

  /** `!landId || !price || price < 0` refuses; a zero price is falsy. */
  predicate TermsOk(form: SellForm) {
    Present(form.landId) && form.price.Some? && form.price.value > 0
  }

  /** Some request, whatever its status, already names the land. */
  predicate HasRequest(requests: seq<SellLand>, landId: string) {
    exists s :: s in requests && s.land.landId == landId
  }

  /** The land as copied into the request; a missing sale description
      becomes "". */
  function Snapshot(l: Land): (s: LandSnapshot)
    ensures s.landId == l.id && s.title == l.title && s.description == l.description
    ensures s.location == l.location && s.area == l.area && s.propertyType == l.propertyType
    ensures s.documentIds == l.documentIds && s.images == l.images
    ensures s.saleDescription == (if Present(l.saleDescription) then l.saleDescription.value else "")
  {
    LandSnapshot(l.id, l.title, l.description, l.location, l.area, l.propertyType, l.documentIds,
                 OrElse(l.saleDescription, ""), l.images)
  }

  /** The two schemas agree on everything the snapshot copies except the
      document ids, which only the SellLand schema requires: the snapshot of
      a valid land is valid exactly when the land has an id and at least
      one document id. */
  lemma SnapshotOfValidLand(l: Land)
    requires ValidLand(l)
    ensures ValidSnapshot(Snapshot(l)) <==> l.id != "" && |l.documentIds| > 0
  {
  }

  /** The snapshot keeps the land's id, so the request can be traced back
      to the one land it was made from. */
  lemma SnapshotNamesItsLand(lands: seq<Land>, i: int)
    requires 0 <= i < |lands|
    requires forall a, b :: 0 <= a < b < |lands| ==> lands[a].id != lands[b].id
    ensures FindLand(lands, Snapshot(lands[i]).landId) == Some(i)
  {
  }

  /** The request document built for `user` and `land`. */
  function Request(id: string, user: User, land: Land, form: SellForm, now: int): SellLand
    requires form.price.Some?
  {
    SellLand(id, SellerDetails(user.id, user.name, user.email, user.phoneNumber), Snapshot(land),
             form.price.value, OrElse(form.landImageUrl, FirstOr(land.images)),
             Truthy(form.negotiable), OrElse(form.contactPhoneNumber, user.phoneNumber), Pending, now)
  }

  /** The guards in order: cookie (401), user (404), land id and price
      (400), land (404), ownership (403), an existing request for the land
      (400); each refusal changes nothing. A document failing the SellLand
      schema is a 500. Otherwise one pending request is appended. */
  function SubmitSale(store: Store, cookie: Option<string>, form: SellForm, freshId: string, now: int): (r: Submitted)
    ensures r.response == NotAuthenticated <==> !Present(cookie)
    ensures r.response == UserNotFound <==> Present(cookie) && FindUser(store.users, cookie.value).None?
    ensures r.response == BadTerms <==>
      Present(cookie) && FindUser(store.users, cookie.value).Some? && !TermsOk(form)
    ensures r.response == LandNotFound <==>
      && Present(cookie) && FindUser(store.users, cookie.value).Some? && TermsOk(form)
      && FindLand(store.lands, form.landId.value).None?
    ensures r.response == NotOwner <==>
      && Present(cookie) && FindUser(store.users, cookie.value).Some? && TermsOk(form)
      && FindLand(store.lands, form.landId.value).Some?
      && store.lands[FindLand(store.lands, form.landId.value).value].owner != cookie.value
    ensures r.response == AlreadyListed <==>
      && Present(cookie) && FindUser(store.users, cookie.value).Some? && TermsOk(form)
      && FindLand(store.lands, form.landId.value).Some?
      && store.lands[FindLand(store.lands, form.landId.value).value].owner == cookie.value
      && HasRequest(store.sellLands, form.landId.value)
    ensures r.response == Created <==>
      && Present(cookie) && FindUser(store.users, cookie.value).Some? && TermsOk(form)
      && FindLand(store.lands, form.landId.value).Some?
      && store.lands[FindLand(store.lands, form.landId.value).value].owner == cookie.value
      && !HasRequest(store.sellLands, form.landId.value)
      && ValidSellLand(Request(freshId, store.users[FindUser(store.users, cookie.value).value],
                               store.lands[FindLand(store.lands, form.landId.value).value], form, now))
    ensures r.response in {NotAuthenticated, UserNotFound, BadTerms, LandNotFound, NotOwner, AlreadyListed,
                           SaveFailed, Created}
    ensures r.response != Created ==> r.store == store
    ensures r.response == Created ==>
      && Present(cookie) && TermsOk(form)
      && !HasRequest(store.sellLands, form.landId.value)
      && |r.store.sellLands| == |store.sellLands| + 1
      && r.store == store.(sellLands := store.sellLands + [r.store.sellLands[|store.sellLands|]])
      && var s := r.store.sellLands[|store.sellLands|];
         && ValidSellLand(s)
         && s.id == freshId && s.status == Pending && s.createdAt == now
         && s.price == form.price.value && s.negotiable == (form.negotiable == Some(true))
         && s.land.landId == form.landId.value
         && (exists u :: u in store.users && u.id == cookie.value
               && s.user == SellerDetails(u.id, u.name, u.email, u.phoneNumber)
               && s.contactPhoneNumber == (if Present(form.contactPhoneNumber)
                                           then form.contactPhoneNumber.value else u.phoneNumber))
         && (exists l :: l in store.lands && l.id == form.landId.value && l.owner == cookie.value
               && s.land == Snapshot(l)
               && s.landImageUrl == (if Present(form.landImageUrl) then form.landImageUrl.value
                                     else if |l.images| > 0 then l.images[0] else ""))
  {
    if !Present(cookie) then Submitted(NotAuthenticated, store)
    else match FindUser(store.users, cookie.value)
      case None => Submitted(UserNotFound, store)
      case Some(u) =>
        if !TermsOk(form) then Submitted(BadTerms, store)
        else match FindLand(store.lands, form.landId.value)
          case None => Submitted(LandNotFound, store)
          case Some(k) =>
            var land := store.lands[k];
            if land.owner != cookie.value then Submitted(NotOwner, store)
            else if HasRequest(store.sellLands, form.landId.value) then Submitted(AlreadyListed, store)
            else
              var request := Request(freshId, store.users[u], land, form, now);
              if !ValidSellLand(request) then Submitted(SaveFailed, store)
              else Submitted(Created, store.(sellLands := store.sellLands + [request]))
  }

  /** Submission succeeds exactly when every guard passes and the built
      document satisfies the schema; for a land that satisfies the Land
      schema this comes down to the seller having a phone number and the
      land at least one document id. */
  lemma SubmitFromValidLand(store: Store, cookie: Option<string>, form: SellForm, freshId: string, now: int)
    requires Present(cookie) && FindUser(store.users, cookie.value).Some? && TermsOk(form)
    requires FindLand(store.lands, form.landId.value).Some?
    requires var l := store.lands[FindLand(store.lands, form.landId.value).value];
             l.owner == cookie.value && ValidLand(l)
    requires !HasRequest(store.sellLands, form.landId.value)
    ensures var u := store.users[FindUser(store.users, cookie.value).value];
            var l := store.lands[FindLand(store.lands, form.landId.value).value];
            SubmitSale(store, cookie, form, freshId, now).response == Created
            <==> u.name != "" && u.email != "" && u.phoneNumber != "" && |l.documentIds| > 0
  {
    var u := store.users[FindUser(store.users, cookie.value).value];
    assert u.id == cookie.value;
  }

  /** A seller without a phone number can pass every guard and still not
      create a request: the copied phone is required by the schema. */
  lemma SellerWithoutPhoneFails(store: Store, cookie: Option<string>, form: SellForm, freshId: string, now: int)
    requires Present(cookie) && FindUser(store.users, cookie.value).Some?
    requires store.users[FindUser(store.users, cookie.value).value].phoneNumber == ""
    ensures SubmitSale(store, cookie, form, freshId, now).response != Created
    ensures SubmitSale(store, cookie, form, freshId, now).store == store
  {
  }

  /** A second request for a land already requested is refused, whatever
      happened to the first. */
  lemma SecondRequestRefused(store: Store, cookie: Option<string>, form: SellForm, id1: string,
                             form2: SellForm, id2: string, now: int)
    requires SubmitSale(store, cookie, form, id1, now).response == Created
    requires form2.landId == form.landId
    ensures var s := SubmitSale(store, cookie, form, id1, now).store;
            SubmitSale(s, cookie, form2, id2, now).response
              in {NotAuthenticated, UserNotFound, BadTerms, LandNotFound, NotOwner, AlreadyListed}
  {
    var s := SubmitSale(store, cookie, form, id1, now).store;
    assert s.sellLands[|store.sellLands|] in s.sellLands;
    assert HasRequest(s.sellLands, form.landId.value);
  }
}
