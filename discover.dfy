/**
 * The discovery page (src/pages/Discover.tsx): the musician cards around a fixed
 * centre, without the signed-in user, each marked when the user has already sent
 * a request, and the "request to chat" action that keeps those marks in step.
 */
module Discover {
  import opened Wrappers
  import opened Types
  import opened Lists
  import opened UserService
  import FilterBar

  /** The fixed search centre (New York City). */
  const Center := Coord(40.7128, -74.0060)

  /** A musician card as the page builds it from a discovered profile. */
  datatype Card = Card(
    id: Option<string>,
    name: Option<string>,
    instrument: Option<string>,
    genres: Option<seq<string>>,
    skillLevel: Option<SkillLevel>,
    location: string,
    distance: real,
    imageUrl: Option<string>,
    bio: Option<string>,
    requested: bool)

  datatype RequestOutcome = NotSignedIn | AlreadyRequested | Sent | SendFailed

  /** `filters.distance || 25`: an absent or zero distance means the default radius. */
  function Radius(f: FilterOptions): (r: real)
    ensures f.distance.None? || f.distance.value == 0 ==> r == DefaultMaxDistance
    ensures f.distance.Some? && f.distance.value != 0 ==> r == f.distance.value as real
  {
    if f.distance.Some? && f.distance.value != 0 then f.distance.value as real else DefaultMaxDistance
  }

  /** Only the instrument, genres and skill level of the panel's filter reach the service. */
  function ServiceFilters(f: FilterOptions): (r: FilterOptions)
    ensures r.instrument == f.instrument && r.genres == f.genres && r.skillLevel == f.skillLevel
    ensures r.distance.None? && r.searchQuery.None?
  {
    FilterOptions(f.instrument, f.genres, f.skillLevel, None, None)
  }

  /** The search text and the radius of the panel's filter do not change which profiles the service screens. */
  lemma SearchQueryIgnored(f: FilterOptions, q: Option<string>, d: Option<int>)
    ensures ServiceFilters(f.(searchQuery := q, distance := d)) == ServiceFilters(f)
    ensures ServiceFilters(ServiceFilters(f)) == ServiceFilters(f)
  {
  }

  /** The slider of the filter panel sets the radius: its own value below the top, an unlimited radius at the top. */
  lemma RadiusFromSlider(s: FilterBar.FilterBarState)
    ensures FilterBar.SliderMin <= s.distance < FilterBar.SliderMax ==> Radius(FilterBar.Emit(s)) == s.distance as real
    ensures s.distance == FilterBar.SliderMax ==> Radius(FilterBar.Emit(s)) == FilterBar.Unlimited as real
    ensures Radius(NoFilters) == DefaultMaxDistance
  {
  }

  function ProfileUserId(n: Nearby): Option<string> { n.profile.user_id }

  /** `list.filter(p => p.user_id !== user.uid)`. */
  function ExcludeSelf(list: seq<Nearby>, uid: string): (r: seq<Nearby>)
    ensures forall n :: n in r <==> n in list && n.profile.user_id != Some(uid)
    ensures Subsequence(r, list)
  {
    WithoutIsSubsequence(list, ProfileUserId, Some(uid));
    Without(list, ProfileUserId, Some(uid))
  }

  /** The ids the user has sent requests to: the receivers of the requests the user made. */
  ghost function RequestedBy(all: seq<MatchRequest>, uid: string): set<string>
  {
    set q | q in all && q.requester_id == uid :: q.receiver_id
  }

  /** The card of a discovered profile; it is marked when its user id is in the requested set. */
  function CardOf(n: Nearby, requested: set<string>): (c: Card)
    ensures c.id == n.profile.user_id && c.name == n.profile.name && c.distance == n.distance
    ensures c.instrument == n.profile.instrument && c.genres == n.profile.genres && c.skillLevel == n.profile.skill_level
    ensures c.imageUrl == n.profile.image_url && c.bio == n.profile.bio && c.location == ""
    ensures c.requested <==> n.profile.user_id.Some? && n.profile.user_id.value in requested
  {
    var p := n.profile;
    Card(p.user_id, p.name, p.instrument, p.genres, p.skill_level, "", n.distance, p.image_url, p.bio,
      p.user_id.Some? && p.user_id.value in requested)
  }

  function Cards(list: seq<Nearby>, requested: set<string>): (r: seq<Card>)
    ensures |r| == |list|
    ensures forall i :: 0 <= i < |r| ==> r[i].id == list[i].profile.user_id && r[i].distance == list[i].distance
    ensures forall i :: 0 <= i < |r| ==> (r[i].requested <==> r[i].id.Some? && r[i].id.value in requested)
  {
    seq(|list|, i requires 0 <= i < |list| => CardOf(list[i], requested))
  }

  /** `musicians.map(m => m.id === receiverId ? { ...m, requested: true } : m)`. */
  function MarkRequested(cards: seq<Card>, receiverId: string): (r: seq<Card>)
    ensures |r| == |cards|
    ensures forall i :: 0 <= i < |r| ==> r[i] == cards[i].(requested := cards[i].requested || cards[i].id == Some(receiverId))
  {
    seq(|cards|, i requires 0 <= i < |cards| =>
      if cards[i].id == Some(receiverId) then cards[i].(requested := true) else cards[i])
  }

  /**
   * The cards built from a distance-sorted discovery result without the user's own
   * profile: none is the user's, each lies within the radius, each is marked exactly
   * when requested, and they stay in order of distance.
   */
  lemma ShownCards(list: seq<Nearby>, uid: string, requested: set<string>, radius: real)
    requires forall n :: n in list ==> n.distance <= radius
    requires SortedBy(list, NearbyDistance)
    ensures var cards := Cards(ExcludeSelf(list, uid), requested);
      && (forall c :: c in cards ==> c.distance <= radius && c.id != Some(uid))
      && (forall c :: c in cards ==> (c.requested <==> c.id.Some? && c.id.value in requested))
      && (forall i, j :: 0 <= i < j < |cards| ==> cards[i].distance <= cards[j].distance)
  {
    var visible := ExcludeSelf(list, uid);
    var cards := Cards(visible, requested);
    SubsequenceMembers(visible, list);
    forall c | c in cards ensures c.distance <= radius && c.id != Some(uid) {
      var i :| 0 <= i < |cards| && cards[i] == c;
      assert visible[i] in list;
    }
    SubsequenceKeepsSorted(visible, list, NearbyDistance);
    forall i, j | 0 <= i < j < |cards| ensures cards[i].distance <= cards[j].distance {
      assert NearbyDistance(visible[i]) <= NearbyDistance(visible[j]);
    }
  }

  class DiscoverPage {
    /** The signed-in user's id, when someone is signed in. */
    const user: Option<string>
    var musicians: seq<Card>
    var requestedUsers: set<string>
    var loading: bool

    /** The user's own card is never shown, and a card is marked exactly when its id is in the requested set. */
    ghost predicate Valid()
      reads this
    {
      && (user.Some? ==> forall c :: c in musicians ==> c.id != Some(user.value))
      && (forall c :: c in musicians ==> (c.requested <==> c.id.Some? && c.id.value in requestedUsers))
    }

    constructor (user: Option<string>)
      ensures Valid()
      ensures this.user == user && musicians == [] && requestedUsers == {} && loading
    {
      this.user := user;
      musicians := [];
      requestedUsers := {};
      loading := true;
    }

    /** The `forEach` over the user's requests that collects the receivers of the ones the user sent. */
    static method RequestedUserIds(all: seq<MatchRequest>, uid: string) returns (ids: set<string>)
      ensures forall id :: id in ids <==> exists q :: q in all && q.requester_id == uid && q.receiver_id == id
      ensures ids == RequestedBy(all, uid)
    {
      ids := {};
      for i := 0 to |all|
        invariant ids == RequestedBy(all[..i], uid)
      {
        assert all[..i + 1] == all[..i] + [all[i]];
        if all[i].requester_id == uid {
          ids := ids + {all[i].receiver_id};
        }
      }
      assert all[..|all|] == all;
    }

    /**
     * The load effect, for the panel's filter `f`. The user's requests come from a
     * service call that is an input here (`None` when it throws). `fetched` and
     * `list` expose what the discovery service fetched and returned.
     */
    method Load(store: Store, f: FilterOptions, dist: (Coord, Coord) -> real, allRequests: Option<seq<MatchRequest>>)
      returns (loaded: bool, ghost fetched: seq<ProfileDoc>, ghost list: seq<Nearby>)
      requires Valid()
      modifies this
      ensures Valid()
      ensures user.None? ==> !loaded && loading == old(loading)
      ensures user.Some? ==> !loading
      ensures user.Some? ==>
        |fetched| <= FetchLimit &&
        forall d :: d in fetched ==> d.visibility == Some(true) && exists id :: id in store.users && store.users[id] == d
      ensures loaded <==> user.Some? && allRequests.Some? && Survivors(fetched, Center, ServiceFilters(f), Radius(f), dist).Ok?
      ensures !loaded ==> musicians == old(musicians) && requestedUsers == old(requestedUsers)
      ensures loaded ==> requestedUsers == RequestedBy(allRequests.value, user.value)
      ensures loaded ==>
        SortedBy(list, NearbyDistance) &&
        multiset(list) == multiset(Survivors(fetched, Center, ServiceFilters(f), Radius(f), dist).value)
      ensures loaded ==> musicians == Cards(ExcludeSelf(list, user.value), requestedUsers)
      ensures loaded ==> forall c :: c in musicians ==> c.distance <= Radius(f) && c.id != Some(user.value)
      ensures loaded ==> forall i, j :: 0 <= i < j < |musicians| ==> musicians[i].distance <= musicians[j].distance
    {
      if user.None? {
        return false, [], [];
      }
      var uid := user.value;
      loading := true;
      var found;
      found, fetched := store.GetNearbyUsers(Center, ServiceFilters(f), Radius(f), dist);
      if found.Err? || allRequests.None? {
        loading := false;
        return false, fetched, [];
      }
      list := found.value;
      var ids := RequestedUserIds(allRequests.value, uid);
      requestedUsers := ids;
      musicians := Cards(ExcludeSelf(found.value, uid), ids);
      ShownCards(found.value, uid, ids, Radius(f));
      loading := false;
      loaded := true;
    }

    /**
     * `handleRequestChat`: nothing happens without a user or for an id already requested;
     * otherwise the request is sent (`sendOk` is false when the service call fails) and,
     * once sent, the id joins the requested set and its card is marked.
     */
    method RequestChat(store: Store, receiverId: string, sendOk: bool, newId: string, now: int) returns (outcome: RequestOutcome)
      requires Valid() && store.Valid() && newId !in store.requests
      modifies this, store
      ensures Valid() && store.Valid()
      ensures outcome == Sent <==> user.Some? && receiverId !in old(requestedUsers) && sendOk
      ensures outcome == Sent ==>
        && store.requests == old(store.requests)[newId := MatchRequest(user.value, receiverId, Pending, Some(now))]
        && requestedUsers == old(requestedUsers) + {receiverId}
        && musicians == MarkRequested(old(musicians), receiverId)
      ensures outcome != Sent ==>
        store.requests == old(store.requests) && requestedUsers == old(requestedUsers) && musicians == old(musicians)
      ensures outcome == AlreadyRequested <==> user.Some? && receiverId in old(requestedUsers)
      ensures store.users == old(store.users) && store.chats == old(store.chats) && loading == old(loading)
    {
      if user.None? {
        return NotSignedIn;
      }
      if receiverId in requestedUsers {
        return AlreadyRequested;
      }
      if !sendOk {
        return SendFailed;
      }
      var _ := store.SendMatchRequest(user.value, receiverId, newId, now);
      requestedUsers := requestedUsers + {receiverId};
      musicians := MarkRequested(musicians, receiverId);
      forall c | c in musicians ensures (c.requested <==> c.id.Some? && c.id.value in requestedUsers) {
        var i :| 0 <= i < |musicians| && musicians[i] == c;
        assert old(musicians)[i] in old(musicians);
      }
      forall c | c in musicians ensures c.id != Some(user.value) {
        var i :| 0 <= i < |musicians| && musicians[i] == c;
        assert old(musicians)[i] in old(musicians);
      }
      outcome := Sent;
    }
  }

  /**
   * Once a request is sent, a later click for the same user sends nothing and changes
   * nothing. Each handler runs to completion before the next starts.
   */
  method RequestTwice(page: DiscoverPage, store: Store, receiverId: string, id1: string, id2: string, now: int)
    returns (first: RequestOutcome, second: RequestOutcome)
    requires page.Valid() && store.Valid() && page.user.Some? && id1 !in store.requests && id2 !in store.requests && id1 != id2
    modifies page, store
    ensures first == Sent ==> second == AlreadyRequested
    ensures first == Sent ==> |store.requests| == |old(store.requests)| + 1
  {
    first := page.RequestChat(store, receiverId, true, id1, now);
    if first == Sent {
      second := page.RequestChat(store, receiverId, true, id2, now);
    } else {
      second := first;
    }
  }
}
