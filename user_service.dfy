/**
 * The backend operations of src/services/userService.ts over an in-memory store
 * with three tables (profiles, match requests, chats). Document ids that the
 * store generates, the clock and the distance formula are parameters.
 */
module UserService {
  import opened Wrappers
  import opened Types
  import opened Lists

  /** Both the discovery query limit and the inbox truncation. */
  const FetchLimit: nat := 50

  /** The default search radius in miles. */
  const DefaultMaxDistance: real := 25.0

  function Min(a: nat, b: nat): nat { if a < b then a else b }

  // ---------------------------------------------------------------------------
  // Query rows

  /** Every row is a stored document under its own id. */
  ghost predicate RowsOf<V>(rows: seq<Entry<V>>, table: map<string, V>)
  {
    forall i :: 0 <= i < |rows| ==> rows[i].id in table && rows[i].data == table[rows[i].id]
  }

  /** No document id occurs twice. */
  ghost predicate UniqueIds<V>(rows: seq<Entry<V>>)
  {
    forall i, j :: 0 <= i < j < |rows| ==> rows[i].id != rows[j].id
  }

  /** The document `id` is among the rows. */
  ghost predicate HasRow<V>(rows: seq<Entry<V>>, id: string)
  {
    exists i :: 0 <= i < |rows| && rows[i].id == id
  }

  /** Rows of one table are told apart by their ids. */
  lemma RowsWithDistinctEntriesHaveUniqueIds<V>(rows: seq<Entry<V>>, table: map<string, V>)
    requires RowsOf(rows, table) && Distinct(rows)
    ensures UniqueIds(rows)
  {
  }

  /** A reordering of the rows of a query keeps them rows of the table, with unique ids. */
  lemma PermutedRows<V>(rows: seq<Entry<V>>, perm: seq<Entry<V>>, table: map<string, V>)
    requires RowsOf(rows, table) && UniqueIds(rows) && multiset(perm) == multiset(rows)
    ensures RowsOf(perm, table) && UniqueIds(perm)
    ensures forall id :: HasRow(rows, id) ==> HasRow(perm, id)
    ensures forall i :: 0 <= i < |perm| ==> perm[i] in rows
  {
    forall i | 0 <= i < |perm| ensures perm[i] in rows {
      assert perm[i] in multiset(perm);
    }
    assert Distinct(rows);
    PermutationKeepsDistinct(rows, perm);
    RowsWithDistinctEntriesHaveUniqueIds(perm, table);
    forall id | HasRow(rows, id) ensures HasRow(perm, id) {
      var i :| 0 <= i < |rows| && rows[i].id == id;
      assert rows[i] in multiset(perm);
      var k :| 0 <= k < |perm| && perm[k] == rows[i];
    }
  }

  /** A reordering of rows that all satisfy a filter still satisfies it. */
  lemma PermutedRowsSatisfy<V>(rows: seq<Entry<V>>, perm: seq<Entry<V>>, p: V -> bool)
    requires multiset(perm) == multiset(rows) && forall i :: 0 <= i < |rows| ==> p(rows[i].data)
    ensures forall i :: 0 <= i < |perm| ==> p(perm[i].data)
  {
    forall i | 0 <= i < |perm| ensures p(perm[i].data) {
      assert perm[i] in multiset(rows);
      var k :| 0 <= k < |rows| && rows[k] == perm[i];
    }
  }

  /**
   * A query with equality filters: the matching documents of a table, each once,
   * in an order the store does not specify.
   */
  method Query<V>(table: map<string, V>, p: V -> bool) returns (rows: seq<Entry<V>>)
    ensures RowsOf(rows, table) && UniqueIds(rows)
    ensures forall i :: 0 <= i < |rows| ==> p(rows[i].data)
    ensures forall id :: id in table && p(table[id]) ==> HasRow(rows, id)
  {
    var left := set id | id in table && p(table[id]);
    rows := [];
    while left != {}
      invariant forall id :: id in left ==> id in table && p(table[id])
      invariant RowsOf(rows, table) && UniqueIds(rows)
      invariant forall i :: 0 <= i < |rows| ==> p(rows[i].data) && rows[i].id !in left
      invariant forall id :: id in table && p(table[id]) && id !in left ==> HasRow(rows, id)
      decreases left
    {
      var id :| id in left;
      ghost var before := rows;
      rows := rows + [Entry(id, table[id])];
      left := left - {id};
      assert rows[|before|].id == id;
      forall x | HasRow(before, x) ensures HasRow(rows, x) {
        var i :| 0 <= i < |before| && before[i].id == x;
        assert rows[i].id == x;
      }
    }
  }

  /** `created_at?.seconds || 0`: a missing timestamp sorts as 0. */
  function Seconds(t: Option<int>): int
  {
    if t.Some? then t.value else 0
  }

  function RequestAge(e: Entry<MatchRequest>): real { -(Seconds(e.data.created_at) as real) }

  function ChatAge(e: Entry<ChatDoc>): real { -(Seconds(e.data.created_at) as real) }

  ghost predicate RequestsNewestFirst(rows: seq<Entry<MatchRequest>>)
  {
    forall i, j :: 0 <= i < j < |rows| ==> Seconds(rows[j].data.created_at) <= Seconds(rows[i].data.created_at)
  }

  ghost predicate ChatsNewestFirst(rows: seq<Entry<ChatDoc>>)
  {
    forall i, j :: 0 <= i < j < |rows| ==> Seconds(rows[j].data.created_at) <= Seconds(rows[i].data.created_at)
  }

  /** The client-side sort `(a, b) => (b.created_at?.seconds || 0) - (a.created_at?.seconds || 0)`. */
  function SortRequestsNewestFirst(rows: seq<Entry<MatchRequest>>): (r: seq<Entry<MatchRequest>>)
    ensures multiset(r) == multiset(rows) && RequestsNewestFirst(r)
  {
    var r := SortBy(rows, RequestAge);
    assert forall i, j :: 0 <= i < j < |r| ==> RequestAge(r[i]) <= RequestAge(r[j]);
    r
  }

  function SortChatsNewestFirst(rows: seq<Entry<ChatDoc>>): (r: seq<Entry<ChatDoc>>)
    ensures multiset(r) == multiset(rows) && ChatsNewestFirst(r)
  {
    var r := SortBy(rows, ChatAge);
    assert forall i, j :: 0 <= i < j < |r| ==> ChatAge(r[i]) <= ChatAge(r[j]);
    r
  }

  predicate IsInbound(q: MatchRequest, userId: string)
  {
    q.receiver_id == userId && q.status == Pending
  }

  predicate IsAcceptedWith(q: MatchRequest, userId: string)
  {
    q.status == Accepted && (q.receiver_id == userId || q.requester_id == userId)
  }

  /** Cutting a newest-first list after `n` rows drops only rows no newer than every kept row. */
  lemma NewestPrefix(sorted: seq<Entry<MatchRequest>>, n: nat, table: map<string, MatchRequest>)
    requires RowsOf(sorted, table) && UniqueIds(sorted) && RequestsNewestFirst(sorted) && n <= |sorted|
    ensures RowsOf(sorted[..n], table) && UniqueIds(sorted[..n]) && RequestsNewestFirst(sorted[..n])
    ensures forall id, i :: HasRow(sorted, id) && !HasRow(sorted[..n], id) && 0 <= i < n ==>
      Seconds(table[id].created_at) <= Seconds(sorted[i].data.created_at)
  {
    forall id, i | HasRow(sorted, id) && !HasRow(sorted[..n], id) && 0 <= i < n
      ensures Seconds(table[id].created_at) <= Seconds(sorted[i].data.created_at)
    {
      var m :| 0 <= m < |sorted| && sorted[m].id == id;
      assert n <= m;
    }
  }

  /** The first 50 of the user's pending requests, newest first: the facts `getInboundRequests` returns. */
  lemma InboxPrefix(sorted: seq<Entry<MatchRequest>>, n: nat, table: map<string, MatchRequest>, userId: string)
    requires RowsOf(sorted, table) && UniqueIds(sorted) && RequestsNewestFirst(sorted) && n == Min(FetchLimit, |sorted|)
    requires forall i :: 0 <= i < |sorted| ==> IsInbound(sorted[i].data, userId)
    requires forall id :: id in table && IsInbound(table[id], userId) ==> HasRow(sorted, id)
    ensures var r := sorted[..n];
      && |r| <= FetchLimit
      && RowsOf(r, table) && UniqueIds(r) && RequestsNewestFirst(r)
      && (forall i :: 0 <= i < |r| ==> r[i].data.receiver_id == userId && r[i].data.status == Pending)
      && (|r| < FetchLimit ==> forall id :: id in table && IsInbound(table[id], userId) ==> HasRow(r, id))
      && (forall id, i :: id in table && IsInbound(table[id], userId) && !HasRow(r, id) && 0 <= i < |r| ==>
        Seconds(table[id].created_at) <= Seconds(r[i].data.created_at))
  {
    NewestPrefix(sorted, n, table);
    assert forall i :: 0 <= i < n ==> sorted[..n][i] == sorted[i];
    if n < FetchLimit {
      assert sorted[..n] == sorted;
    }
  }

  /**
   * Collecting rows into an object keyed by id and reading back `Object.values`:
   * each id once, in the order of its first occurrence.
   */
  method DedupById<V>(entries: seq<Entry<V>>) returns (values: seq<Entry<V>>)
    ensures UniqueIds(values)
    ensures forall k :: 0 <= k < |values| ==> values[k] in entries
    ensures forall j :: 0 <= j < |entries| ==> HasRow(values, entries[j].id)
  {
    var byId: map<string, Entry<V>> := map[];
    var order: seq<string> := [];
    for i := 0 to |entries|
      invariant forall k :: k in byId <==> k in order
      invariant Distinct(order)
      invariant forall k :: k in byId ==> byId[k].id == k && byId[k] in entries
      invariant forall j :: 0 <= j < i ==> entries[j].id in byId
    {
      var e := entries[i];
      if e.id !in byId {
        order := order + [e.id];
      }
      byId := byId[e.id := e];
    }
    values := seq(|order|, k requires 0 <= k < |order| => byId[order[k]]);
    forall j | 0 <= j < |entries| ensures HasRow(values, entries[j].id) {
      var k :| 0 <= k < |order| && order[k] == entries[j].id;
      assert values[k].id == entries[j].id;
    }
  }

  // ---------------------------------------------------------------------------
  // Profile merge-upsert

  function Pick<T>(given: Option<T>, kept: Option<T>): Option<T>
  {
    if given.Some? then given else kept
  }

  /** A merge write: the fields the patch carries replace the stored ones, the others stay. */
  function Merge(doc: ProfileDoc, patch: ProfileDoc): (r: ProfileDoc)
    ensures (patch.user_id.Some? ==> r.user_id == patch.user_id)
      && (patch.name.Some? ==> r.name == patch.name)
      && (patch.instrument.Some? ==> r.instrument == patch.instrument)
      && (patch.genres.Some? ==> r.genres == patch.genres)
      && (patch.skill_level.Some? ==> r.skill_level == patch.skill_level)
      && (patch.bio.Some? ==> r.bio == patch.bio)
      && (patch.location.Some? ==> r.location == patch.location)
      && (patch.audio_clips.Some? ==> r.audio_clips == patch.audio_clips)
      && (patch.image_url.Some? ==> r.image_url == patch.image_url)
      && (patch.image_gallery.Some? ==> r.image_gallery == patch.image_gallery)
      && (patch.video_clips.Some? ==> r.video_clips == patch.video_clips)
      && (patch.visibility.Some? ==> r.visibility == patch.visibility)
      && (patch.created_at.Some? ==> r.created_at == patch.created_at)
    ensures (patch.user_id.None? ==> r.user_id == doc.user_id)
      && (patch.name.None? ==> r.name == doc.name)
      && (patch.instrument.None? ==> r.instrument == doc.instrument)
      && (patch.genres.None? ==> r.genres == doc.genres)
      && (patch.skill_level.None? ==> r.skill_level == doc.skill_level)
      && (patch.bio.None? ==> r.bio == doc.bio)
      && (patch.location.None? ==> r.location == doc.location)
      && (patch.audio_clips.None? ==> r.audio_clips == doc.audio_clips)
      && (patch.image_url.None? ==> r.image_url == doc.image_url)
      && (patch.image_gallery.None? ==> r.image_gallery == doc.image_gallery)
      && (patch.video_clips.None? ==> r.video_clips == doc.video_clips)
      && (patch.visibility.None? ==> r.visibility == doc.visibility)
      && (patch.created_at.None? ==> r.created_at == doc.created_at)
  {
    ProfileDoc(
      Pick(patch.user_id, doc.user_id), Pick(patch.name, doc.name),
      Pick(patch.instrument, doc.instrument), Pick(patch.genres, doc.genres),
      Pick(patch.skill_level, doc.skill_level), Pick(patch.bio, doc.bio),
      Pick(patch.location, doc.location), Pick(patch.audio_clips, doc.audio_clips),
      Pick(patch.image_url, doc.image_url), Pick(patch.image_gallery, doc.image_gallery),
      Pick(patch.video_clips, doc.video_clips), Pick(patch.visibility, doc.visibility),
      Pick(patch.created_at, doc.created_at))
  }

  /** The document written by `createOrUpdateProfile`: the patch merged in, then the id and a new timestamp. */
  function Upserted(doc: ProfileDoc, patch: ProfileDoc, userId: string, now: int): (r: ProfileDoc)
    ensures r.user_id == Some(userId) && r.created_at == Some(now)
  {
    Merge(doc, patch).(user_id := Some(userId), created_at := Some(now))
  }

  /** Every field the patch carries overwrites the stored one. */
  lemma UpsertedTakesGivenFields(doc: ProfileDoc, patch: ProfileDoc, userId: string, now: int)
    ensures var r := Upserted(doc, patch, userId, now);
      && (patch.name.Some? ==> r.name == patch.name)
      && (patch.instrument.Some? ==> r.instrument == patch.instrument)
      && (patch.genres.Some? ==> r.genres == patch.genres)
      && (patch.skill_level.Some? ==> r.skill_level == patch.skill_level)
      && (patch.bio.Some? ==> r.bio == patch.bio)
      && (patch.location.Some? ==> r.location == patch.location)
      && (patch.audio_clips.Some? ==> r.audio_clips == patch.audio_clips)
      && (patch.image_url.Some? ==> r.image_url == patch.image_url)
      && (patch.image_gallery.Some? ==> r.image_gallery == patch.image_gallery)
      && (patch.video_clips.Some? ==> r.video_clips == patch.video_clips)
      && (patch.visibility.Some? ==> r.visibility == patch.visibility)
  {
  }

  /** Every field the patch leaves out keeps its stored value. */
  lemma UpsertedKeepsAbsentFields(doc: ProfileDoc, patch: ProfileDoc, userId: string, now: int)
    ensures var r := Upserted(doc, patch, userId, now);
      && (patch.name.None? ==> r.name == doc.name)
      && (patch.instrument.None? ==> r.instrument == doc.instrument)
      && (patch.genres.None? ==> r.genres == doc.genres)
      && (patch.skill_level.None? ==> r.skill_level == doc.skill_level)
      && (patch.bio.None? ==> r.bio == doc.bio)
      && (patch.location.None? ==> r.location == doc.location)
      && (patch.audio_clips.None? ==> r.audio_clips == doc.audio_clips)
      && (patch.image_url.None? ==> r.image_url == doc.image_url)
      && (patch.image_gallery.None? ==> r.image_gallery == doc.image_gallery)
      && (patch.video_clips.None? ==> r.video_clips == doc.video_clips)
      && (patch.visibility.None? ==> r.visibility == doc.visibility)
  {
  }

  /** Two successive merge writes are one write of the combined patch. */
  lemma MergeComposes(doc: ProfileDoc, p: ProfileDoc, q: ProfileDoc)
    ensures Merge(Merge(doc, p), q) == Merge(doc, Merge(p, q))
  {
  }

  /** An empty patch changes nothing, and writing the same patch twice is writing it once. */
  lemma MergeEmptyAndRepeated(doc: ProfileDoc, p: ProfileDoc)
    ensures Merge(doc, NoFields) == doc && Merge(NoFields, p) == p
    ensures Merge(Merge(doc, p), p) == Merge(doc, p)
  {
  }

  /** `getUserProfile` over the profile table: the stored document, or null when there is none. */
  function GetUserProfile(users: map<string, ProfileDoc>, userId: string): Option<ProfileDoc>
  {
    if userId in users then Some(users[userId]) else None
  }

  /**
   * `getUserProfile` resolves unless the stored profile lacks `created_at`: then
   * `data.created_at.toDate()` throws and the call rejects.
   */
  predicate ProfileReadable(users: map<string, ProfileDoc>, userId: string)
  {
    userId in users ==> users[userId].created_at.Some?
  }

  /** `existing?.image_gallery || []`. */
  function ListOr(l: Option<seq<string>>): seq<string>
  {
    if l.Some? then l.value else []
  }

  /** Removing a media URL twice leaves the list as removing it once; no occurrence is left. */
  lemma RemoveMediaIdempotent(list: seq<string>, url: string)
    ensures Remove(Remove(list, url), url) == Remove(list, url)
    ensures url !in Remove(list, url)
    ensures forall u :: u != url ==> multiset(Remove(list, url))[u] == multiset(list)[u]
  {
    WithoutIdempotent(list, Identity, url);
    forall u | u != url ensures multiset(Remove(list, url))[u] == multiset(list)[u] {
      WithoutCount(list, Identity, url, u);
    }
  }

  // ---------------------------------------------------------------------------
  // Discovery

  datatype ServiceError = MissingField

  /** A discovered profile with its computed distance. */
  datatype Nearby = Nearby(profile: ProfileDoc, distance: real)

  function NearbyDistance(n: Nearby): real { n.distance }

  predicate InstrumentFilterOn(f: FilterOptions) { Truthy(f.instrument) }

  predicate GenreFilterOn(f: FilterOptions) { f.genres.Some? && |f.genres.value| > 0 }

  predicate SkillFilterOn(f: FilterOptions) { Truthy(f.skillLevel) }

  predicate SharesGenre(mine: seq<string>, wanted: seq<string>)
  {
    exists g :: g in mine && g in wanted
  }

  /** The attribute filters a profile must pass when they are set (a missing field never matches). */
  ghost predicate PassesFilters(d: ProfileDoc, f: FilterOptions)
  {
    && (InstrumentFilterOn(f) ==> d.instrument == f.instrument)
    && (GenreFilterOn(f) ==> d.genres.Some? && SharesGenre(d.genres.value, f.genres.value))
    && (SkillFilterOn(f) ==> d.skill_level.Some? && Some(SkillName(d.skill_level.value)) == f.skillLevel)
  }

  /** What the discovery loop does with one fetched profile. */
  datatype Screening = Keep(distance: real) | Drop | Throw

  /**
   * One pass of the discovery loop body, in its order of checks. Reading a missing
   * timestamp, missing genres (when a genre filter is set) or a missing location
   * throws. A LocationData location has no latitude/longitude, so its distance is
   * NaN and the radius test fails.
   */
  function Screen(d: ProfileDoc, center: Coord, f: FilterOptions, maxDistance: real, dist: (Coord, Coord) -> real): (r: Screening)
    ensures d.created_at.None? ==> r == Throw
    ensures r == Throw ==> d.created_at.None? || (GenreFilterOn(f) && d.genres.None?) || d.location.None?
    ensures r.Keep? ==>
      && d.location.Some? && d.location.value.GeoPoint?
      && r.distance == dist(center, d.location.value.point) && r.distance <= maxDistance
    ensures d.location.Some? && d.location.value.Resolved? ==> !r.Keep?
  {
    if d.created_at.None? then Throw
    else if InstrumentFilterOn(f) && d.instrument != f.instrument then Drop
    else if GenreFilterOn(f) && d.genres.None? then Throw
    else if GenreFilterOn(f) && !SharesGenre(d.genres.value, f.genres.value) then Drop
    else if SkillFilterOn(f) && (d.skill_level.None? || Some(SkillName(d.skill_level.value)) != f.skillLevel) then Drop
    else match d.location
      case None => Throw
      case Some(GeoPoint(p)) => if dist(center, p) <= maxDistance then Keep(dist(center, p)) else Drop
      case Some(Resolved(_)) => Drop
  }

  /** A profile is kept exactly when it passes the filters, has a GeoPoint location and lies within the radius. */
  lemma ScreenKeeps(d: ProfileDoc, center: Coord, f: FilterOptions, maxDistance: real, dist: (Coord, Coord) -> real, x: real)
    ensures Screen(d, center, f, maxDistance, dist) == Keep(x) <==>
      && d.created_at.Some? && PassesFilters(d, f)
      && d.location.Some? && d.location.value.GeoPoint?
      && x == dist(center, d.location.value.point) && x <= maxDistance
  {
  }

  /** The profiles the discovery loop pushes, in fetch order, or the error that aborts it. */
  function Survivors(docs: seq<ProfileDoc>, center: Coord, f: FilterOptions, maxDistance: real, dist: (Coord, Coord) -> real): (r: Result<seq<Nearby>, ServiceError>)
    ensures r.Ok? <==> forall d :: d in docs ==> Screen(d, center, f, maxDistance, dist) != Throw
    ensures r.Ok? ==> forall n :: n in r.value ==> n.profile in docs && Screen(n.profile, center, f, maxDistance, dist) == Keep(n.distance)
    ensures r.Ok? ==> forall d :: d in docs && Screen(d, center, f, maxDistance, dist).Keep? ==>
      Nearby(d, Screen(d, center, f, maxDistance, dist).distance) in r.value
    decreases |docs|
  {
    if docs == [] then Ok([])
    else
      var init := docs[..|docs| - 1];
      var last := docs[|docs| - 1];
      assert docs == init + [last];
      match Survivors(init, center, f, maxDistance, dist)
      case Err(e) => Err(e)
      case Ok(kept) =>
        match Screen(last, center, f, maxDistance, dist)
        case Throw => Err(MissingField)
        case Drop => Ok(kept)
        case Keep(x) => Ok(kept + [Nearby(last, x)])
  }

  /** The discovery loop over the fetched profiles: push each kept one, stop at the first throw. */
  method ScreenAll(docs: seq<ProfileDoc>, center: Coord, f: FilterOptions, maxDistance: real, dist: (Coord, Coord) -> real)
    returns (r: Result<seq<Nearby>, ServiceError>)
    ensures r == Survivors(docs, center, f, maxDistance, dist)
  {
    var found: seq<Nearby> := [];
    for i := 0 to |docs|
      invariant Survivors(docs[..i], center, f, maxDistance, dist) == Ok(found)
    {
      var d := docs[i];
      assert docs[..i + 1] == docs[..i] + [d];
      match Screen(d, center, f, maxDistance, dist) {
        case Throw =>
          assert d in docs;
          var all := Survivors(docs, center, f, maxDistance, dist);
          assert all.Err? && all.error.MissingField?;
          return Err(MissingField);
        case Drop =>
        case Keep(x) =>
          found := found + [Nearby(d, x)];
      }
    }
    assert docs[..|docs|] == docs;
    r := Ok(found);
  }

  // ---------------------------------------------------------------------------
  // The store

  class Store {
    var users: map<string, ProfileDoc>
    var requests: map<string, MatchRequest>
    var chats: map<string, ChatDoc>

    /** Profiles are written only by the merge-upsert, which stamps the id and a timestamp; chat ids are non-empty. */
    ghost predicate Valid()
      reads this
    {
      && (forall id :: id in users ==> users[id].user_id == Some(id) && users[id].created_at.Some?)
      && "" !in chats
    }

    constructor ()
      ensures Valid()
      ensures users == map[] && requests == map[] && chats == map[]
    {
      users, requests, chats := map[], map[], map[];
    }

    /** The stored document as the base of a merge: a missing profile has no fields. */
    function ProfileOf(userId: string): ProfileDoc
      reads this
    {
      if userId in users then users[userId] else NoFields
    }

    /** `createOrUpdateProfile`: a merge-upsert that also sets `user_id` and resets `created_at`. */
    method CreateOrUpdateProfile(userId: string, patch: ProfileDoc, now: int)
      requires Valid()
      modifies this
      ensures Valid()
      ensures users == old(users)[userId := Upserted(old(ProfileOf(userId)), patch, userId, now)]
      ensures requests == old(requests) && chats == old(chats)
    {
      users := users[userId := Upserted(ProfileOf(userId), patch, userId, now)];
    }

    /** `sendMatchRequest`: adds one pending request under the id the store generates; no duplicate check. */
    method SendMatchRequest(requesterId: string, receiverId: string, newId: string, now: int) returns (id: string)
      requires Valid() && newId !in requests
      modifies this
      ensures Valid() && id == newId
      ensures requests == old(requests)[id := MatchRequest(requesterId, receiverId, Pending, Some(now))]
      ensures users == old(users) && chats == old(chats)
    {
      requests := requests[newId := MatchRequest(requesterId, receiverId, Pending, Some(now))];
      id := newId;
    }

    /** `updateDoc(..., { status })`: fails on a missing document, otherwise changes that status only. */
    method SetStatus(requestId: string, status: Status) returns (ok: bool)
      requires Valid()
      modifies this
      ensures Valid() && ok == (requestId in old(requests))
      ensures requests == if ok then old(requests)[requestId := old(requests)[requestId].(status := status)] else old(requests)
      ensures users == old(users) && chats == old(chats)
    {
      ok := requestId in requests;
      if ok {
        requests := requests[requestId := requests[requestId].(status := status)];
      }
    }

    method AcceptMatchRequest(requestId: string) returns (ok: bool)
      requires Valid()
      modifies this
      ensures Valid() && ok == (requestId in old(requests))
      ensures requests == if ok then old(requests)[requestId := old(requests)[requestId].(status := Accepted)] else old(requests)
      ensures users == old(users) && chats == old(chats)
    {
      ok := SetStatus(requestId, Accepted);
    }

    method DeclineMatchRequest(requestId: string) returns (ok: bool)
      requires Valid()
      modifies this
      ensures Valid() && ok == (requestId in old(requests))
      ensures requests == if ok then old(requests)[requestId := old(requests)[requestId].(status := Declined)] else old(requests)
      ensures users == old(users) && chats == old(chats)
    {
      ok := SetStatus(requestId, Declined);
    }

    /** `getInboundRequests`: pending requests received by the user, newest first, at most 50 of them. */
    method GetInboundRequests(userId: string) returns (r: seq<Entry<MatchRequest>>)
      ensures |r| <= FetchLimit
      ensures RowsOf(r, requests) && UniqueIds(r) && RequestsNewestFirst(r)
      ensures forall i :: 0 <= i < |r| ==> r[i].data.receiver_id == userId && r[i].data.status == Pending
      ensures |r| < FetchLimit ==> forall id :: id in requests && IsInbound(requests[id], userId) ==> HasRow(r, id)
      ensures forall id, i :: id in requests && IsInbound(requests[id], userId) && !HasRow(r, id) && 0 <= i < |r| ==>
        Seconds(requests[id].created_at) <= Seconds(r[i].data.created_at)
    {
      var inbound := (q: MatchRequest) => IsInbound(q, userId);
      var rows := Query(requests, inbound);
      var sorted := SortRequestsNewestFirst(rows);
      PermutedRows(rows, sorted, requests);
      PermutedRowsSatisfy(rows, sorted, inbound);
      forall i | 0 <= i < |sorted| ensures IsInbound(sorted[i].data, userId) {
        assert inbound(sorted[i].data);
      }
      forall id | id in requests && IsInbound(requests[id], userId) ensures HasRow(sorted, id) {
        assert inbound(requests[id]);
      }
      var n := Min(FetchLimit, |sorted|);
      InboxPrefix(sorted, n, requests, userId);
      r := sorted[..n];
    }

    /** `getAcceptedMatches`: accepted requests the user sent or received, each once, newest first. */
    method GetAcceptedMatches(userId: string) returns (r: seq<Entry<MatchRequest>>)
      ensures RowsOf(r, requests) && UniqueIds(r) && RequestsNewestFirst(r)
      ensures forall i :: 0 <= i < |r| ==> IsAcceptedWith(r[i].data, userId)
      ensures forall id :: id in requests && IsAcceptedWith(requests[id], userId) ==> HasRow(r, id)
    {
      var s1 := Query(requests, (q: MatchRequest) => q.receiver_id == userId && q.status == Accepted);
      var s2 := Query(requests, (q: MatchRequest) => q.requester_id == userId && q.status == Accepted);
      var entries := s1 + s2;
      assert RowsOf(entries, requests);
      var values := DedupById(entries);
      assert RowsOf(values, requests) by {
        forall k | 0 <= k < |values| ensures values[k].id in requests && values[k].data == requests[values[k].id] {
          assert values[k] in entries;
        }
      }
      r := SortRequestsNewestFirst(values);
      PermutedRows(values, r, requests);
      forall i | 0 <= i < |r| ensures IsAcceptedWith(r[i].data, userId) {
        assert r[i] in values;
        assert r[i] in entries;
      }
      forall id | id in requests && IsAcceptedWith(requests[id], userId) ensures HasRow(r, id) {
        if requests[id].receiver_id == userId {
          assert HasRow(s1, id);
          var j :| 0 <= j < |s1| && s1[j].id == id;
          assert entries[j] == s1[j];
        } else {
          assert HasRow(s2, id);
          var j :| 0 <= j < |s2| && s2[j].id == id;
          assert entries[|s1| + j] == s2[j];
        }
      }
    }

    /** `getOutboundPending`: the pending requests the user sent, in store order. */
    method GetOutboundPending(userId: string) returns (r: seq<Entry<MatchRequest>>)
      ensures RowsOf(r, requests) && UniqueIds(r)
      ensures forall i :: 0 <= i < |r| ==> r[i].data.requester_id == userId && r[i].data.status == Pending
      ensures forall id :: id in requests && requests[id].requester_id == userId && requests[id].status == Pending ==> HasRow(r, id)
    {
      r := Query(requests, (q: MatchRequest) => q.requester_id == userId && q.status == Pending);
    }

    /** The scan of `createOrGetChat`: the last chat of `a` (in store order) that also includes `b`. */
    method FindChat(a: string, b: string) returns (existing: Option<string>)
      ensures existing.Some? ==>
        existing.value in chats && a in chats[existing.value].participants && b in chats[existing.value].participants
      ensures existing.None? ==> forall id :: id in chats ==> !(a in chats[id].participants && b in chats[id].participants)
    {
      var rows := Query(chats, (c: ChatDoc) => a in c.participants);
      existing := None;
      for i := 0 to |rows|
        invariant existing.Some? ==>
          existing.value in chats && a in chats[existing.value].participants && b in chats[existing.value].participants
        invariant existing.None? ==> forall j :: 0 <= j < i ==> b !in rows[j].data.participants
      {
        if b in rows[i].data.participants {
          existing := Some(rows[i].id);
        }
      }
      if existing.None? {
        forall id | id in chats && a in chats[id].participants ensures b !in chats[id].participants {
          assert HasRow(rows, id);
        }
      }
    }

    /** `createOrGetChat`: an existing chat of both users, or exactly one new chat `[a, b]`. */
    method CreateOrGetChat(a: string, b: string, newId: string, now: int) returns (id: string)
      requires Valid() && newId != "" && newId !in chats
      modifies this
      ensures Valid()
      ensures (exists k :: k in old(chats) && a in old(chats)[k].participants && b in old(chats)[k].participants) ==>
        chats == old(chats) && id in chats && a in chats[id].participants && b in chats[id].participants
      ensures (forall k :: k in old(chats) ==> !(a in old(chats)[k].participants && b in old(chats)[k].participants)) ==>
        id == newId && chats == old(chats)[newId := ChatDoc([a, b], Some(now))]
      ensures users == old(users) && requests == old(requests)
    {
      var existing := FindChat(a, b);
      if existing.Some? && existing.value != "" {
        return existing.value;
      }
      chats := chats[newId := ChatDoc([a, b], Some(now))];
      id := newId;
    }

    /** Once `createOrGetChat(a, b)` has created a chat, `createOrGetChat(b, a)` finds that same chat. */
    method CreateOrGetChatIsSymmetric(a: string, b: string, id1: string, id2: string, now: int) returns (first: string, second: string)
      requires Valid() && id1 != "" && id1 !in chats && id2 != "" && id2 != id1 && id2 !in chats
      requires forall k :: k in chats ==> !(a in chats[k].participants && b in chats[k].participants)
      modifies this
      ensures first == second == id1
    {
      first := CreateOrGetChat(a, b, id1, now);
      assert a in chats[id1].participants && b in chats[id1].participants;
      second := CreateOrGetChat(b, a, id2, now);
    }

    /** `getUserChats`: the user's chats, newest first. */
    method GetUserChats(userId: string) returns (r: seq<Entry<ChatDoc>>)
      ensures RowsOf(r, chats) && UniqueIds(r) && ChatsNewestFirst(r)
      ensures forall i :: 0 <= i < |r| ==> userId in r[i].data.participants
      ensures forall id :: id in chats && userId in chats[id].participants ==> HasRow(r, id)
    {
      var rows := Query(chats, (c: ChatDoc) => userId in c.participants);
      r := SortChatsNewestFirst(rows);
      PermutedRows(rows, r, chats);
      forall i | 0 <= i < |r| ensures userId in r[i].data.participants {
        assert r[i] in rows;
      }
    }

    /**
     * `getNearbyUsers`: up to 50 visible profiles are fetched (`fetched`), screened in
     * fetch order, and the survivors sorted by ascending distance.
     */
    method GetNearbyUsers(center: Coord, f: FilterOptions, maxDistance: real, dist: (Coord, Coord) -> real)
      returns (r: Result<seq<Nearby>, ServiceError>, ghost fetched: seq<ProfileDoc>)
      ensures |fetched| <= FetchLimit
      ensures forall d :: d in fetched ==> d.visibility == Some(true) && exists id :: id in users && users[id] == d
      ensures r.Ok? <==> Survivors(fetched, center, f, maxDistance, dist).Ok?
      ensures r.Ok? ==> multiset(r.value) == multiset(Survivors(fetched, center, f, maxDistance, dist).value)
      ensures r.Ok? ==> SortedBy(r.value, NearbyDistance)
      ensures r.Ok? ==> forall n :: n in r.value ==>
        && n.profile in fetched && PassesFilters(n.profile, f)
        && n.profile.location.Some? && n.profile.location.value.GeoPoint?
        && n.distance == dist(center, n.profile.location.value.point) && n.distance <= maxDistance
      ensures r.Ok? && |fetched| < FetchLimit ==> forall id ::
        (id in users && users[id].visibility == Some(true) && Screen(users[id], center, f, maxDistance, dist).Keep?) ==>
        Nearby(users[id], Screen(users[id], center, f, maxDistance, dist).distance) in r.value
    {
      var docs := FetchVisible();
      fetched := docs;
      var found := ScreenAll(docs, center, f, maxDistance, dist);
      if found.Err? {
        return Err(found.error), fetched;
      }
      var sorted := SortBy(found.value, NearbyDistance);
      SameMembers(found.value, sorted);
      r := Ok(sorted);
      forall n | n in sorted
        ensures PassesFilters(n.profile, f)
          && n.profile.location.Some? && n.profile.location.value.GeoPoint?
          && n.distance == dist(center, n.profile.location.value.point) && n.distance <= maxDistance
      {
        ScreenKeeps(n.profile, center, f, maxDistance, dist, n.distance);
      }
    }

    /** The discovery query `where("visibility", "==", true), limit(50)`: all visible profiles when fewer than the limit come back. */
    method FetchVisible() returns (docs: seq<ProfileDoc>)
      ensures |docs| <= FetchLimit
      ensures forall d :: d in docs ==> d.visibility == Some(true) && exists id :: id in users && users[id] == d
      ensures |docs| < FetchLimit ==> forall id :: id in users && users[id].visibility == Some(true) ==> users[id] in docs
    {
      var visible := Query(users, (d: ProfileDoc) => d.visibility == Some(true));
      var rows := visible[..Min(FetchLimit, |visible|)];
      docs := seq(|rows|, i requires 0 <= i < |rows| => rows[i].data);
      forall d | d in docs ensures d.visibility == Some(true) && exists id :: id in users && users[id] == d {
        var i :| 0 <= i < |docs| && docs[i] == d;
        assert users[rows[i].id] == d;
      }
      if |docs| < FetchLimit {
        forall id | id in users && users[id].visibility == Some(true) ensures users[id] in docs {
          assert HasRow(visible, id);
          var i :| 0 <= i < |visible| && visible[i].id == id;
          assert docs[i] == users[id];
        }
      }
    }

    /** `removeGalleryImage`: the list update runs even when deleting the stored file failed (`finally`). */
    method RemoveGalleryImage(userId: string, url: string, deleted: bool, now: int) returns (ok: bool)
      requires Valid()
      modifies this
      ensures Valid() && ok == deleted
      ensures users == old(users)[userId := Upserted(old(ProfileOf(userId)),
        NoFields.(image_gallery := Some(Remove(ListOr(old(ProfileOf(userId)).image_gallery), url))), userId, now)]
      ensures users[userId].image_gallery == Some(Remove(ListOr(old(ProfileOf(userId)).image_gallery), url))
      ensures requests == old(requests) && chats == old(chats)
    {
      var next := Remove(ListOr(ProfileOf(userId).image_gallery), url);
      CreateOrUpdateProfile(userId, NoFields.(image_gallery := Some(next)), now);
      ok := deleted;
    }

    /** `removeVideoClip`: the same as the gallery removal, on the video list. */
    method RemoveVideoClip(userId: string, url: string, deleted: bool, now: int) returns (ok: bool)
      requires Valid()
      modifies this
      ensures Valid() && ok == deleted
      ensures users == old(users)[userId := Upserted(old(ProfileOf(userId)),
        NoFields.(video_clips := Some(Remove(ListOr(old(ProfileOf(userId)).video_clips), url))), userId, now)]
      ensures users[userId].video_clips == Some(Remove(ListOr(old(ProfileOf(userId)).video_clips), url))
      ensures requests == old(requests) && chats == old(chats)
    {
      var next := Remove(ListOr(ProfileOf(userId).video_clips), url);
      CreateOrUpdateProfile(userId, NoFields.(video_clips := Some(next)), now);
      ok := deleted;
    }
  }
}
