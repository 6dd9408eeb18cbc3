/**
 * The matches page (src/pages/Matches.tsx): the received pending requests and the
 * accepted matches of the signed-in user, each shown under the other user's name,
 * and the accept, decline and open-chat actions, all over the backing store.
 */
module Matches {
  import opened Wrappers
  import opened Types
  import opened Lists
  import opened UserService

  /** A row of the "pending" tab. */
  datatype PendingItem = PendingItem(
    id: string, name: string, instrument: string, status: Status, imageUrl: Option<string>, requester_id: string)

  /** A row of the "matches" tab. */
  datatype AcceptedItem = AcceptedItem(
    id: string, requester_id: string, receiver_id: string, name: string, instrument: string, imageUrl: Option<string>)

  function PendingId(p: PendingItem): string { p.id }

  function AcceptedId(m: AcceptedItem): string { m.id }

  /** The request ids of a tab, top to bottom. */
  function RowIds<T>(items: seq<T>, id: T -> string): (ids: seq<string>)
    ensures |ids| == |items| && forall i :: 0 <= i < |items| ==> ids[i] == id(items[i])
  {
    seq(|items|, i requires 0 <= i < |items| => id(items[i]))
  }

  /** Stored requests listed newest first (a missing timestamp counts as 0). */
  ghost predicate NewestFirstIds(ids: seq<string>, requests: map<string, MatchRequest>)
  {
    forall i, j :: 0 <= i < j < |ids| ==>
      ids[i] in requests && ids[j] in requests &&
      Seconds(requests[ids[j]].created_at) <= Seconds(requests[ids[i]].created_at)
  }

  /** Page rows that copy the ids of newest-first stored rows list those requests newest first, each once. */
  lemma IdsOfRows(rows: seq<Entry<MatchRequest>>, ids: seq<string>, requests: map<string, MatchRequest>)
    requires RowsOf(rows, requests) && UniqueIds(rows) && RequestsNewestFirst(rows)
    requires |ids| == |rows| && forall i :: 0 <= i < |rows| ==> ids[i] == rows[i].id
    ensures NewestFirstIds(ids, requests) && Distinct(ids)
    ensures forall id :: HasRow(rows, id) <==> id in ids
  {
    forall id | HasRow(rows, id) ensures id in ids {
      var i :| 0 <= i < |rows| && rows[i].id == id;
      assert ids[i] == id;
    }
  }

  /** The other user of a request: the receiver when the user sent it, the requester otherwise. */
  function OtherParty(requesterId: string, receiverId: string, uid: string): (r: string)
    ensures r == requesterId || r == receiverId
    ensures uid == requesterId ==> r == receiverId
    ensures uid == receiverId && uid != requesterId ==> r == requesterId
    ensures (uid == requesterId || uid == receiverId) && requesterId != receiverId ==>
      r != uid && {r, uid} == {requesterId, receiverId}
  {
    if requesterId == uid then receiverId else requesterId
  }

  /** `profile?.name || fallback`: the profile's name unless it is missing or empty. */
  function DisplayName(profile: Option<ProfileDoc>, fallback: string): (r: string)
    ensures profile.Some? && Truthy(profile.value.name) ==> r == profile.value.name.value
    ensures !(profile.Some? && Truthy(profile.value.name)) ==> r == fallback
    ensures r == fallback || (profile.Some? && profile.value.name == Some(r) && r != "")
    ensures fallback != "" ==> r != ""
  {
    if profile.Some? && Truthy(profile.value.name) then profile.value.name.value else fallback
  }

  /** `profile?.instrument || ""`. */
  function InstrumentOf(profile: Option<ProfileDoc>): string
  {
    if profile.Some? && Truthy(profile.value.instrument) then profile.value.instrument.value else ""
  }

  function ImageOf(profile: Option<ProfileDoc>): Option<string>
  {
    if profile.Some? then profile.value.image_url else None
  }

  /** The pending row built from a received request and its requester's profile. */
  function PendingItemOf(e: Entry<MatchRequest>, profile: Option<ProfileDoc>): (p: PendingItem)
    ensures p.id == e.id && p.requester_id == e.data.requester_id && p.status == e.data.status
    ensures p.name == DisplayName(profile, e.data.requester_id) && (e.data.requester_id != "" ==> p.name != "")
  {
    PendingItem(e.id, DisplayName(profile, e.data.requester_id), InstrumentOf(profile), e.data.status,
      ImageOf(profile), e.data.requester_id)
  }

  /** The match row built from an accepted request and the other user's profile. */
  function AcceptedItemOf(e: Entry<MatchRequest>, uid: string, profile: Option<ProfileDoc>): (m: AcceptedItem)
    ensures m.id == e.id && m.requester_id == e.data.requester_id && m.receiver_id == e.data.receiver_id
    ensures var other := OtherParty(e.data.requester_id, e.data.receiver_id, uid);
      m.name == DisplayName(profile, other) && (other != "" ==> m.name != "")
  {
    var other := OtherParty(e.data.requester_id, e.data.receiver_id, uid);
    AcceptedItem(e.id, e.data.requester_id, e.data.receiver_id, DisplayName(profile, other),
      InstrumentOf(profile), ImageOf(profile))
  }

  /** A pending row shows a stored pending request received by `uid`, under its requester's name. */
  ghost predicate ShowsInbound(p: PendingItem, requests: map<string, MatchRequest>, users: map<string, ProfileDoc>, uid: string)
  {
    && p.id in requests && IsInbound(requests[p.id], uid) && p.status == Pending
    && p.requester_id == requests[p.id].requester_id
    && p.name == DisplayName(GetUserProfile(users, p.requester_id), p.requester_id)
  }

  /** A match row shows a stored accepted request of `uid`, under the other user's name. */
  ghost predicate ShowsAccepted(m: AcceptedItem, requests: map<string, MatchRequest>, users: map<string, ProfileDoc>, uid: string)
  {
    && m.id in requests && IsAcceptedWith(requests[m.id], uid)
    && m.requester_id == requests[m.id].requester_id && m.receiver_id == requests[m.id].receiver_id
    && var other := OtherParty(m.requester_id, m.receiver_id, uid);
       m.name == DisplayName(GetUserProfile(users, other), other)
  }

  /** Removing a request from the pending tab drops exactly the rows with its id and keeps the rest in order. */
  lemma RemovalKeepsOthersInOrder(items: seq<PendingItem>, id: string)
    ensures Subsequence(Without(items, PendingId, id), items)
    ensures forall p :: p in Without(items, PendingId, id) <==> p in items && p.id != id
    ensures Without(Without(items, PendingId, id), PendingId, id) == Without(items, PendingId, id)
  {
    WithoutIsSubsequence(items, PendingId, id);
    WithoutIdempotent(items, PendingId, id);
  }

  /** The pending tab built from the inbox: one row per request, under the requester's name. */
  function PendingTab(inbound: seq<Entry<MatchRequest>>, users: map<string, ProfileDoc>): (items: seq<PendingItem>)
    ensures |items| == |inbound|
    ensures forall i :: 0 <= i < |items| ==>
      items[i] == PendingItemOf(inbound[i], GetUserProfile(users, inbound[i].data.requester_id))
  {
    seq(|inbound|, i requires 0 <= i < |inbound| =>
      PendingItemOf(inbound[i], GetUserProfile(users, inbound[i].data.requester_id)))
  }

  /** The matches tab: one row per accepted request, under the other user's name. */
  function AcceptedTab(accepted: seq<Entry<MatchRequest>>, uid: string, users: map<string, ProfileDoc>): (items: seq<AcceptedItem>)
    ensures |items| == |accepted|
    ensures forall i :: 0 <= i < |items| ==> items[i] == AcceptedItemOf(accepted[i], uid,
      GetUserProfile(users, OtherParty(accepted[i].data.requester_id, accepted[i].data.receiver_id, uid)))
  {
    seq(|accepted|, i requires 0 <= i < |accepted| =>
      AcceptedItemOf(accepted[i], uid,
        GetUserProfile(users, OtherParty(accepted[i].data.requester_id, accepted[i].data.receiver_id, uid))))
  }

  /**
   * What the pending tab shows: at most 50 stored pending requests received by `uid`,
   * each once, newest first, each under its requester's name; all of them below 50,
   * and any left out no newer than every row shown.
   */
  ghost predicate PendingTabShows(items: seq<PendingItem>, requests: map<string, MatchRequest>, users: map<string, ProfileDoc>, uid: string)
  {
    && |items| <= FetchLimit
    && (forall i :: 0 <= i < |items| ==> ShowsInbound(items[i], requests, users, uid))
    && NewestFirstIds(RowIds(items, PendingId), requests) && Distinct(RowIds(items, PendingId))
    && (|items| < FetchLimit ==> forall id :: id in requests && IsInbound(requests[id], uid) ==> id in RowIds(items, PendingId))
    && (forall id, i ::
         id in requests && IsInbound(requests[id], uid) && id !in RowIds(items, PendingId) && 0 <= i < |items| ==>
           items[i].id in requests && Seconds(requests[id].created_at) <= Seconds(requests[items[i].id].created_at))
  }

  /** What the matches tab shows: every stored accepted request of `uid` exactly once, newest first, under the other user's name. */
  ghost predicate AcceptedTabShows(items: seq<AcceptedItem>, requests: map<string, MatchRequest>, users: map<string, ProfileDoc>, uid: string)
  {
    && (forall i :: 0 <= i < |items| ==> ShowsAccepted(items[i], requests, users, uid))
    && NewestFirstIds(RowIds(items, AcceptedId), requests) && Distinct(RowIds(items, AcceptedId))
    && (forall id :: id in requests && IsAcceptedWith(requests[id], uid) ==> id in RowIds(items, AcceptedId))
  }

  /** The pending tab built from what `getInboundRequests` promises shows exactly that inbox. */
  lemma PendingTabOfInbox(inbound: seq<Entry<MatchRequest>>, requests: map<string, MatchRequest>, users: map<string, ProfileDoc>, uid: string)
    requires |inbound| <= FetchLimit
    requires RowsOf(inbound, requests) && UniqueIds(inbound) && RequestsNewestFirst(inbound)
    requires forall i :: 0 <= i < |inbound| ==> inbound[i].data.receiver_id == uid && inbound[i].data.status == Pending
    requires |inbound| < FetchLimit ==> forall id :: id in requests && IsInbound(requests[id], uid) ==> HasRow(inbound, id)
    requires forall id, i :: id in requests && IsInbound(requests[id], uid) && !HasRow(inbound, id) && 0 <= i < |inbound| ==>
      Seconds(requests[id].created_at) <= Seconds(inbound[i].data.created_at)
    ensures PendingTabShows(PendingTab(inbound, users), requests, users, uid)
  {
    var items := PendingTab(inbound, users);
    IdsOfRows(inbound, RowIds(items, PendingId), requests);
    forall i | 0 <= i < |items| ensures ShowsInbound(items[i], requests, users, uid) {
      assert items[i].id == inbound[i].id;
    }
  }

  /** The matches tab built from what `getAcceptedMatches` promises shows exactly those matches. */
  lemma AcceptedTabOfMatches(accepted: seq<Entry<MatchRequest>>, requests: map<string, MatchRequest>, users: map<string, ProfileDoc>, uid: string)
    requires RowsOf(accepted, requests) && UniqueIds(accepted) && RequestsNewestFirst(accepted)
    requires forall i :: 0 <= i < |accepted| ==> IsAcceptedWith(accepted[i].data, uid)
    requires forall id :: id in requests && IsAcceptedWith(requests[id], uid) ==> HasRow(accepted, id)
    ensures AcceptedTabShows(AcceptedTab(accepted, uid, users), requests, users, uid)
  {
    var items := AcceptedTab(accepted, uid, users);
    IdsOfRows(accepted, RowIds(items, AcceptedId), requests);
    forall i | 0 <= i < |items| ensures ShowsAccepted(items[i], requests, users, uid) {
      assert items[i].id == accepted[i].id;
    }
  }

  /** Every requester's profile lookup resolves, so the pending `Promise.all` does not reject. */
  predicate RequestersReadable(inbound: seq<Entry<MatchRequest>>, users: map<string, ProfileDoc>)
  {
    forall i :: 0 <= i < |inbound| ==> ProfileReadable(users, inbound[i].data.requester_id)
  }

  /** Every other party's profile lookup resolves, so the matches `Promise.all` does not reject. */
  predicate OthersReadable(accepted: seq<Entry<MatchRequest>>, uid: string, users: map<string, ProfileDoc>)
  {
    forall i :: 0 <= i < |accepted| ==>
      ProfileReadable(users, OtherParty(accepted[i].data.requester_id, accepted[i].data.receiver_id, uid))
  }

  class MatchesPage {
    /** The signed-in user's id, when someone is signed in. */
    const user: Option<string>
    var pendingRequests: seq<PendingItem>
    var acceptedMatches: seq<AcceptedItem>

    constructor (user: Option<string>)
      ensures this.user == user && pendingRequests == [] && acceptedMatches == []
    {
      this.user := user;
      pendingRequests := [];
      acceptedMatches := [];
    }

    /** The page's load effect: fetch both lists from the store and label each row with the other user's name. */
    method Load(store: Store) returns (ghost inbound: seq<Entry<MatchRequest>>, ghost accepted: seq<Entry<MatchRequest>>)
      modifies this
      ensures user.None? ==> pendingRequests == old(pendingRequests) && acceptedMatches == old(acceptedMatches)
      ensures user.Some? ==> RowsOf(inbound, store.requests) && forall i :: 0 <= i < |inbound| ==> IsInbound(inbound[i].data, user.value)
      ensures user.Some? ==> RowsOf(accepted, store.requests) && forall i :: 0 <= i < |accepted| ==> IsAcceptedWith(accepted[i].data, user.value)
      // a lookup that rejects sends the effect to its `catch`, leaving the tabs not yet set
      ensures user.Some? && !RequestersReadable(inbound, store.users) ==>
        pendingRequests == old(pendingRequests) && acceptedMatches == old(acceptedMatches)
      ensures user.Some? && RequestersReadable(inbound, store.users) ==>
        PendingTabShows(pendingRequests, store.requests, store.users, user.value)
      ensures user.Some? && RequestersReadable(inbound, store.users) && !OthersReadable(accepted, user.value, store.users) ==>
        acceptedMatches == old(acceptedMatches)
      ensures user.Some? && RequestersReadable(inbound, store.users) && OthersReadable(accepted, user.value, store.users) ==>
        AcceptedTabShows(acceptedMatches, store.requests, store.users, user.value)
      // profiles written by the merge-upsert always carry a timestamp, so both tabs are set
      ensures user.Some? && store.Valid() ==>
        PendingTabShows(pendingRequests, store.requests, store.users, user.value)
        && AcceptedTabShows(acceptedMatches, store.requests, store.users, user.value)
    {
      inbound, accepted := [], [];
      if user.None? {
        return;
      }
      var uid := user.value;
      var received := store.GetInboundRequests(uid);
      inbound := received;
      if !RequestersReadable(received, store.users) {
        return;
      }
      pendingRequests := PendingTab(received, store.users);
      PendingTabOfInbox(received, store.requests, store.users, uid);
      var found := store.GetAcceptedMatches(uid);
      accepted := found;
      if !OthersReadable(found, uid, store.users) {
        return;
      }
      acceptedMatches := AcceptedTab(found, uid, store.users);
      AcceptedTabOfMatches(found, store.requests, store.users, uid);
    }

    /**
     * `handleAccept` as written: on success the request leaves the pending tab and the
     * page navigates to the chat id `acceptMatchRequest` resolved to. That call resolves
     * to nothing, so the navigation target (`chatTarget`) is always undefined (`None`)
     * and no chat exists for the new match.
     */
    method Accept(store: Store, id: string) returns (ok: bool, chatTarget: Option<string>)
      requires store.Valid()
      modifies this, store
      ensures store.Valid() && ok == (id in old(store.requests))
      ensures store.requests == if ok then old(store.requests)[id := old(store.requests)[id].(status := Accepted)] else old(store.requests)
      ensures store.users == old(store.users) && store.chats == old(store.chats)
      ensures pendingRequests == if ok then Without(old(pendingRequests), PendingId, id) else old(pendingRequests)
      ensures acceptedMatches == old(acceptedMatches)
      ensures chatTarget.None?
    {
      ok := store.AcceptMatchRequest(id);
      chatTarget := None;
      if ok {
        pendingRequests := Without(pendingRequests, PendingId, id);
      }
    }

    /**
     * Accepting the first request of a user who has no chat yet: the accept succeeds,
     * yet the page is sent to no chat and the two users still share none.
     */
    method AcceptOpensNoChat(store: Store, id: string) returns (ok: bool, chatTarget: Option<string>)
      requires store.Valid() && id in store.requests && user.Some?
      requires forall k :: k in store.chats ==> !(user.value in store.chats[k].participants && store.requests[id].requester_id in store.chats[k].participants)
      modifies this, store
      ensures ok && chatTarget.None?
      ensures forall k :: k in store.chats ==>
        !(user.value in store.chats[k].participants && old(store.requests)[id].requester_id in store.chats[k].participants)
    {
      ok, chatTarget := Accept(store, id);
    }

    /**
     * `handleAccept` as evidently intended: after a successful accept, open the chat of
     * the user and the requester (found or created as `createOrGetChat` does) and navigate there.
     */
    method AcceptAndOpenChat(store: Store, id: string, newId: string, now: int) returns (ok: bool, chatTarget: Option<string>)
      requires store.Valid() && newId != "" && newId !in store.chats
      modifies this, store
      ensures store.Valid() && ok == (id in old(store.requests))
      ensures store.requests == if ok then old(store.requests)[id := old(store.requests)[id].(status := Accepted)] else old(store.requests)
      ensures store.users == old(store.users)
      ensures pendingRequests == if ok then Without(old(pendingRequests), PendingId, id) else old(pendingRequests)
      ensures acceptedMatches == old(acceptedMatches)
      ensures ok && user.Some? ==>
        && chatTarget.Some? && chatTarget.value in store.chats
        && user.value in store.chats[chatTarget.value].participants
        && old(store.requests)[id].requester_id in store.chats[chatTarget.value].participants
      ensures ok && user.Some? ==> var a, b := user.value, old(store.requests)[id].requester_id;
        && ((exists k :: k in old(store.chats) && a in old(store.chats)[k].participants && b in old(store.chats)[k].participants) ==>
          store.chats == old(store.chats))
        && ((forall k :: k in old(store.chats) ==> !(a in old(store.chats)[k].participants && b in old(store.chats)[k].participants)) ==>
          chatTarget == Some(newId) && store.chats == old(store.chats)[newId := ChatDoc([a, b], Some(now))])
      ensures !(ok && user.Some?) ==> chatTarget.None? && store.chats == old(store.chats)
    {
      ok, chatTarget := Accept(store, id);
      if ok && user.Some? {
        var chatId := store.CreateOrGetChat(user.value, store.requests[id].requester_id, newId, now);
        chatTarget := Some(chatId);
      }
    }

    /** `handleDecline`: on success the request leaves the pending tab; on failure nothing changes here. */
    method Decline(store: Store, id: string) returns (ok: bool)
      requires store.Valid()
      modifies this, store
      ensures store.Valid() && ok == (id in old(store.requests))
      ensures store.requests == if ok then old(store.requests)[id := old(store.requests)[id].(status := Declined)] else old(store.requests)
      ensures store.users == old(store.users) && store.chats == old(store.chats)
      ensures pendingRequests == if ok then Without(old(pendingRequests), PendingId, id) else old(pendingRequests)
      ensures acceptedMatches == old(acceptedMatches)
    {
      ok := store.DeclineMatchRequest(id);
      if ok {
        pendingRequests := Without(pendingRequests, PendingId, id);
      }
    }

    /** `handleOpenChat`, reached from a match row's chat button: the chat of the user and the other party. */
    method OpenChat(store: Store, m: AcceptedItem, newId: string, now: int) returns (chatId: Option<string>)
      requires store.Valid() && newId != "" && newId !in store.chats
      modifies store
      ensures store.Valid()
      ensures user.None? ==> chatId.None? && store.chats == old(store.chats)
      ensures user.Some? ==>
        chatId.Some? && chatId.value in store.chats && user.value in store.chats[chatId.value].participants &&
        OtherParty(m.requester_id, m.receiver_id, user.value) in store.chats[chatId.value].participants
      ensures user.Some? ==> var a, b := user.value, OtherParty(m.requester_id, m.receiver_id, user.value);
        && ((exists k :: k in old(store.chats) && a in old(store.chats)[k].participants && b in old(store.chats)[k].participants) ==>
          store.chats == old(store.chats))
        && ((forall k :: k in old(store.chats) ==> !(a in old(store.chats)[k].participants && b in old(store.chats)[k].participants)) ==>
          chatId == Some(newId) && store.chats == old(store.chats)[newId := ChatDoc([a, b], Some(now))])
      ensures store.users == old(store.users) && store.requests == old(store.requests)
    {
      if user.None? {
        return None;
      }
      var other := OtherParty(m.requester_id, m.receiver_id, user.value);
      var id := store.CreateOrGetChat(user.value, other, newId, now);
      chatId := Some(id);
    }
  }
}
