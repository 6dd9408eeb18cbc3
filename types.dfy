/**
 * The shared records of the application (src/types/user.ts), as documents of the
 * backing store: every field of a stored document may be missing, so every field
 * is an Option.
 */
module Types {
  import opened Wrappers

  /** A latitude/longitude pair in degrees. */
  datatype Coord = Coord(lat: real, lng: real)

  /** The richer location record written by the location picker. */
  datatype LocationData = LocationData(location: string, coords: Coord, place_id: string)

  /** A stored location is either a bare GeoPoint or a LocationData record. */
  datatype Location = GeoPoint(point: Coord) | Resolved(data: LocationData)

  datatype SkillLevel = Beginner | Intermediate | Advanced

  /** The stored (and displayed) spelling of a skill level. */
  function SkillName(l: SkillLevel): string
  {
    match l
    case Beginner => "Beginner"
    case Intermediate => "Intermediate"
    case Advanced => "Advanced"
  }

  datatype Status = Pending | Accepted | Declined

  /** A user profile document, also used for a partial profile passed to a merge-upsert. */
  datatype ProfileDoc = ProfileDoc(
    user_id: Option<string>,
    name: Option<string>,
    instrument: Option<string>,
    genres: Option<seq<string>>,
    skill_level: Option<SkillLevel>,
    bio: Option<string>,
    location: Option<Location>,
    audio_clips: Option<seq<string>>,
    image_url: Option<string>,
    image_gallery: Option<seq<string>>,
    video_clips: Option<seq<string>>,
    visibility: Option<bool>,
    created_at: Option<int>)

  /** A document with no fields: a missing profile, or an empty partial profile. */
  const NoFields := ProfileDoc(None, None, None, None, None, None, None, None, None, None, None, None, None)

  /** A match request document; `created_at` is a timestamp in seconds. */
  datatype MatchRequest = MatchRequest(requester_id: string, receiver_id: string, status: Status, created_at: Option<int>)

  /** A chat document. */
  datatype ChatDoc = ChatDoc(participants: seq<string>, created_at: Option<int>)

  /** A query result row: the document id spread together with the document's data. */
  datatype Entry<V> = Entry(id: string, data: V)

  /** The discovery filters; each field may be absent. */
  datatype FilterOptions = FilterOptions(
    instrument: Option<string>,
    genres: Option<seq<string>>,
    skillLevel: Option<string>,
    distance: Option<int>,
    searchQuery: Option<string>)

  const NoFilters := FilterOptions(None, None, None, None, None)

  /** A JavaScript truthiness test on an optional string: absent and "" are both false. */
  predicate Truthy(s: Option<string>)
  {
    s.Some? && s.value != ""
  }
}
