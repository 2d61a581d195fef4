/** `updateSellLandStatus`: a government employee approves or declines a
    pending sale request. Approval publishes the land on the sell list
    under the next free number; decline archives a copy of the request.
    The Land record itself is not touched on either path. */
module Review {
  import opened Common
  import opened Records

  datatype Reviewed = Reviewed(response: Response, store: Store)

  const RequestNotFound := Response(404, "Sell land request not found")
  const AlreadyProcessed := Response(400, "This request has already been processed")
  const InvalidAction := Response(400, "Invalid action")
  const ApprovedResponse := Response(200, "Land approved and added to sell list")
  const DeclinedResponse := Response(200, "Land declined and added to declined list")
  const PlaceholderImage := "https://via.placeholder.com/150"

  /** The largest id on a non-empty sell list. */
  function MaxId(list: seq<SellListEntry>): (m: int)
    requires |list| > 0
    ensures forall e :: e in list ==> e.id <= m
    ensures exists e :: e in list && e.id == m
  {
    if |list| == 1 then list[0].id
    else
      var rest := MaxId(list[1..]);
      assert forall e :: e in list[1..] ==> e in list;
      if list[0].id >= rest then list[0].id else rest
  }

  /** `maxId ? maxId.id + 1 : 1`: one past the largest id, or 1 on an
      empty list. */
  function NextId(list: seq<SellListEntry>): (n: int)
    ensures forall e :: e in list ==> e.id < n
    ensures |list| == 0 ==> n == 1
    ensures |list| > 0 ==> exists e :: e in list && e.id == n - 1
  {
    if |list| == 0 then 1 else MaxId(list) + 1
  }

  /** The public listing made from an approved request. */
  function PublicEntry(s: SellLand, id: int): (e: SellListEntry)
    ensures e.id == id && e.title == s.land.title && e.landType == s.land.propertyType
    ensures e.location == s.land.location.city + ", " + s.land.location.state
    ensures e.price == s.price && e.size == s.land.area.value && e.description == s.land.description
    ensures e.image == (if s.landImageUrl != "" then s.landImageUrl
                        else if |s.land.images| > 0 && s.land.images[0] != "" then s.land.images[0]
                        else PlaceholderImage)
  {
    SellListEntry(id, s.land.title, s.land.location.city + ", " + s.land.location.state,
                  s.land.propertyType, s.price, s.land.area.value,
                  Or(s.landImageUrl, Or(FirstOr(s.land.images), PlaceholderImage)), s.land.description)
  }

  /** The archived copy of a declined request. */
  function Archive(s: SellLand): (d: DeclinedLand)
    ensures d.sellLandId == s.id && d.user == s.user && d.land == s.land && d.price == s.price
    ensures d.landImageUrl == s.landImageUrl && d.negotiable == s.negotiable
    ensures d.contactPhoneNumber == s.contactPhoneNumber
  {
    DeclinedLand(s.id, s.user, s.land, s.price, s.landImageUrl, s.negotiable, s.contactPhoneNumber)
  }

  /** The request an archived copy was made from, given its creation time;
      its status is `Declined`, the only status an archived request has. */
  function Restore(d: DeclinedLand, createdAt: int): (s: SellLand)
    ensures Archive(s) == d
    ensures s.status == Declined && s.createdAt == createdAt
  {
    SellLand(d.sellLandId, d.user, d.land, d.price, d.landImageUrl, d.negotiable, d.contactPhoneNumber,
             Declined, createdAt)
  }

  /** The archive loses nothing but the status and the creation time. */
  lemma ArchiveRoundTrip(s: SellLand)
    ensures Restore(Archive(s), s.createdAt) == s.(status := Declined)
  {
  }

  /** Unknown request: 404. A request no longer pending: 400. An action
      other than `approve` and `decline`: 400 with the request still
      pending. Every refusal changes nothing. Approval marks the request
      approved and appends exactly one sell-list entry numbered above every
      existing one; decline marks it declined and archives exactly one
      copy. Users, lands and employees never change. */
  function UpdateSellLandStatus(store: Store, requestId: string, action: string): (r: Reviewed)
    ensures r.response == RequestNotFound <==> FindSellLand(store.sellLands, requestId).None?
    ensures r.response == AlreadyProcessed <==>
      FindSellLand(store.sellLands, requestId).Some?
      && store.sellLands[FindSellLand(store.sellLands, requestId).value].status != Pending
    ensures r.response == InvalidAction <==>
      FindSellLand(store.sellLands, requestId).Some?
      && store.sellLands[FindSellLand(store.sellLands, requestId).value].status == Pending
      && action != "approve" && action != "decline"
    ensures r.response in {RequestNotFound, AlreadyProcessed, InvalidAction, ApprovedResponse, DeclinedResponse}
    ensures r.response.code != 200 ==> r.store == store
    ensures r.store.users == store.users && r.store.lands == store.lands && r.store.employees == store.employees
    ensures r.response.code == 200 ==>
      && |r.store.sellLands| == |store.sellLands|
      && exists i :: 0 <= i < |store.sellLands| && store.sellLands[i].id == requestId
           && (forall j :: 0 <= j < i ==> store.sellLands[j].id != requestId)
           && store.sellLands[i].status == Pending
           && r.store.sellLands == store.sellLands[i := store.sellLands[i].(status := r.store.sellLands[i].status)]
           && (r.response == ApprovedResponse <==> action == "approve")
           && (r.response == DeclinedResponse <==> action == "decline")
           && (action == "approve" ==>
                 && r.store.sellLands[i].status == Approved
                 && r.store.declined == store.declined
                 && |r.store.sellList| == |store.sellList| + 1
                 && r.store.sellList[..|store.sellList|] == store.sellList
                 && var e := r.store.sellList[|store.sellList|];
                    && e.id == NextId(store.sellList)
                    && (forall x :: x in store.sellList ==> x.id < e.id)
                    && e == PublicEntry(store.sellLands[i], e.id))
           && (action == "decline" ==>
                 && r.store.sellLands[i].status == Declined
                 && r.store.sellList == store.sellList
                 && r.store.declined == store.declined + [Archive(store.sellLands[i])])
  {
    match FindSellLand(store.sellLands, requestId)
    case None => Reviewed(RequestNotFound, store)
    case Some(i) =>
      var s := store.sellLands[i];
      if s.status != Pending then Reviewed(AlreadyProcessed, store)
      else if action == "approve" then
        var entry := PublicEntry(s, NextId(store.sellList));
        Reviewed(ApprovedResponse,
                 store.(sellLands := store.sellLands[i := s.(status := Approved)],
                        sellList := store.sellList + [entry]))
      else if action == "decline" then
        Reviewed(DeclinedResponse,
                 store.(sellLands := store.sellLands[i := s.(status := Declined)],
                        declined := store.declined + [Archive(s)]))
      else Reviewed(InvalidAction, store)
  }

  /** A request is processed at most once: after a pending request is
      approved or declined, every further review of it, with any action, is
      refused and changes nothing. */
  lemma ProcessedOnlyOnce(store: Store, requestId: string, action: string, again: string)
    requires FindSellLand(store.sellLands, requestId).Some?
    requires store.sellLands[FindSellLand(store.sellLands, requestId).value].status == Pending
    requires action == "approve" || action == "decline"
    ensures var s := UpdateSellLandStatus(store, requestId, action).store;
            UpdateSellLandStatus(s, requestId, again) == Reviewed(AlreadyProcessed, s)
  {
    var s := UpdateSellLandStatus(store, requestId, action).store;
    var i := FindSellLand(store.sellLands, requestId).value;
    assert FindSellLand(s.sellLands, requestId) == Some(i) by {
      forall j | 0 <= j < i ensures s.sellLands[j].id != requestId {
        assert s.sellLands[j] == store.sellLands[j];
      }
    }
  }

  /** Sell-list numbers are positive and strictly increase along the list,
      so no two entries share one. */
  predicate IncreasingIds(list: seq<SellListEntry>) {
    && (forall e :: e in list ==> e.id >= 1)
    && (forall i, j :: 0 <= i < j < |list| ==> list[i].id < list[j].id)
  }

  lemma ReviewKeepsIdsIncreasing(store: Store, requestId: string, action: string)
    requires IncreasingIds(store.sellList)
    ensures IncreasingIds(UpdateSellLandStatus(store, requestId, action).store.sellList)
  {
    var r := UpdateSellLandStatus(store, requestId, action);
    var list := r.store.sellList;
    if list != store.sellList {
      var n := |store.sellList|;
      var e := list[n];
      if n > 0 {
        assert store.sellList[0] in store.sellList;
      }
      assert e.id >= 1;
      forall x | x in list ensures x.id >= 1 {
        if x != e {
          var k :| 0 <= k < |list| && list[k] == x;
          assert list[k] == store.sellList[k];
        }
      }
      forall i, j | 0 <= i < j < |list| ensures list[i].id < list[j].id {
        assert list[i] == store.sellList[i];
        if j == n {
          assert store.sellList[i] in store.sellList;
        } else {
          assert list[j] == store.sellList[j];
        }
      }
    }
  }

  /** On a list whose numbers increase, the new number is one past the
      last entry's. */
  lemma NextIdFollowsLast(list: seq<SellListEntry>)
    requires IncreasingIds(list) && |list| > 0
    ensures NextId(list) == list[|list| - 1].id + 1
  {
    var n := NextId(list);
    var e :| e in list && e.id == n - 1;
    var k :| 0 <= k < |list| && list[k] == e;
    assert !(k < |list| - 1) || list[k].id < list[|list| - 1].id;
    assert list[|list| - 1] in list;
  }

  /** Declining archives exactly the request as it now stands in the store:
      restoring the new archive entry gives back the stored, declined
      request. */
  lemma DeclinedCopyMatchesRequest(store: Store, requestId: string)
    requires FindSellLand(store.sellLands, requestId).Some?
    requires store.sellLands[FindSellLand(store.sellLands, requestId).value].status == Pending
    ensures var r := UpdateSellLandStatus(store, requestId, "decline");
            var i := FindSellLand(store.sellLands, requestId).value;
            && r.response == DeclinedResponse
            && |r.store.declined| == |store.declined| + 1
            && Restore(r.store.declined[|store.declined|], store.sellLands[i].createdAt) == r.store.sellLands[i]
  {
    ArchiveRoundTrip(store.sellLands[FindSellLand(store.sellLands, requestId).value]);
  }
}
