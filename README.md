# Jammr core, modelled in Dafny

Jammr is a web application where musicians find each other. A user keeps a profile
(instrument, genres, skill level, a location, media). They browse nearby musicians
through a filter panel and send "request to chat" match requests. On the matches page
they accept or decline received requests and open a chat with accepted matches. A
location picker turns typed text into a stored location, and a geocoding client turns
coordinates into a readable place name.

The project models the data layer and the page logic built on it:

- `user_service.dfy`: the backend service over the document store. The store is a class
  with three tables (profiles, match requests, chats). Firestore queries run in an order
  the store does not specify, and the merge-upsert of a profile, the request inbox, the
  accepted matches, the chat lookup and creation, and nearby-musician discovery work
  over it.
- `filter_bar.dfy`: the discovery filter panel. It covers the genre toggle, the
  lower-cased option values and their mapping back, the slider, and the filter object
  the panel emits.
- `location_autocomplete.dfy`: the location picker, a class with the component's state
  and one method per handler (search effect, keyboard, select, focus, blur, hover).
- `discover.dfy`: the discovery page. It turns the service result into cards, marks
  the ones already requested, and sends requests.
- `matches.dfy`: the matches page. It builds the pending and accepted lists, shows each
  row under the other user's name, and handles accept, decline and open chat.
- `musician_card.dfy`: the avatar initials, the skill badge style, the genre badges and
  the card buttons.
- `geocoding.dfy`: the reverse and forward geocoding client and its fallbacks.
- `text.dfy` and `lists.dfy`: the JavaScript string and array operations these rely on.
  The string operations are ASCII case mapping, `trim`, `split` and `join`. The array
  operations are `filter` and a stable `sort`.
- `types.dfy` and `wrappers.dfy`: the records of `src/types/user.ts`, plus `Option` and
  `Result`.

Everything the original program gets from outside becomes a parameter:

- store-generated document ids (`newId`) and the clock (`now`, in seconds);
- the distance formula (`dist`) and the number formatter `toFixed(2)` (`fmt`);
- HTTP replies (`Reply`);
- the results of calls whose code is not shown (`allRequests`, `SearchOutcome`,
  `Lookup`, `convert`).

## Model

| member | source | states |
|---|---|---|
| Text.LowerStr | src/components/FilterBar.tsx:102 | lower-casing keeps the length and maps each character to its lower-case form |
| Text.UpperStr | src/components/MusicianCard.tsx:29 | upper-casing keeps the length and maps each character to its upper-case form |
| Text.LowerStrIgnoresCase | src/components/MusicianCard.tsx:32 | lower-casing is idempotent and ignores a prior upper-casing |
| Text.CapitaliseLowerRoundTrip | src/components/FilterBar.tsx:112 | capitalising the lower-cased text gives the text back exactly when it is a title word (both directions) |
| Text.Capitalise | src/components/FilterBar.tsx:112 | capitalising only changes the case of the first character, which is never a lower-case letter afterwards; the length is kept |
| Text.LeadEnd | src/components/FilterBar.tsx:58 | the leading white space ends at the first non-space character |
| Text.TrailStart | src/components/FilterBar.tsx:58 | the trailing white space starts after the last non-space character |
| Text.Trim | src/components/FilterBar.tsx:58 | the result is a slice of the input with only white space cut on either side, and it neither starts nor ends with white space |
| Text.TrimIdempotent | src/components/FilterBar.tsx:58 | trimming twice is trimming once |
| Text.JoinSplit | src/components/MusicianCard.tsx:25-28 | joining the pieces of a split with the same separator gives the text back |
| Text.SplitPiecesLackSeparator | src/components/MusicianCard.tsx:26 | no piece of a split contains the separator |
| Text.JoinEmptyIff | src/services/geocodingService.ts:31 | joining non-empty parts gives the empty string exactly when there are no parts |
| Lists.Without | src/pages/Matches.tsx:79 | an element survives the filter exactly when it was there and does not have the key; the list does not grow |
| Lists.WithoutAppend | src/components/FilterBar.tsx:51 | filtering distributes over concatenation |
| Lists.WithoutCount | src/services/userService.ts:262 | every element without the key keeps its number of occurrences; elements with the key are all removed |
| Lists.WithoutIdempotent | src/pages/Matches.tsx:104 | filtering twice is filtering once |
| Lists.WithoutIsSubsequence | src/pages/Discover.tsx:37 | filtering keeps the survivors in their original order |
| Lists.SubsequenceMembers | src/pages/Discover.tsx:37 | a subsequence holds only elements of the original |
| Lists.SubsequenceKeepsSorted | src/pages/Discover.tsx:37 | leaving elements out of a sorted list keeps it sorted |
| Lists.Remove | src/services/userService.ts:262 | the removed value is gone and every other value keeps its membership |
| Lists.InsertBy | src/services/userService.ts:219 | inserting into a sorted list keeps it sorted and adds exactly the element |
| Lists.SortBy | src/services/userService.ts:219 | the result is sorted by the key and is a permutation of the input |
| Lists.PermutationKeepsDistinct | src/services/userService.ts:76 | reordering a list without duplicates leaves it without duplicates |
| UserService.Query | src/services/userService.ts:64-74 | the rows are stored documents under their ids, each id once, all matching the filter, and every matching document is among them |
| UserService.PermutedRows | src/services/userService.ts:76 | re-sorting query rows keeps them stored rows with unique ids, and keeps every id |
| UserService.PermutedRowsSatisfy | src/services/userService.ts:76 | re-sorting query rows keeps them matching the query's filter |
| UserService.SortRequestsNewestFirst | src/services/userService.ts:76 | the comparator `(b.created_at?.seconds \|\| 0) - (a.created_at?.seconds \|\| 0)` orders requests newest first, as a permutation |
| UserService.SortChatsNewestFirst | src/services/userService.ts:131 | the same newest-first order for chats, as a permutation |
| UserService.NewestPrefix | src/services/userService.ts:76 | `slice(0, 50)` of a newest-first list keeps stored rows with unique ids in order, and every request it cuts off is no newer than any it keeps |
| UserService.InboxPrefix | src/services/userService.ts:76 | the inbox slice holds at most 50 received pending requests, newest first; it holds all of them when fewer than 50 come back, and any left out are no newer than the ones shown |
| UserService.DedupById | src/services/userService.ts:89-91 | collecting rows into an object by id keeps each id once, only rows that were given, and every id that was given |
| UserService.Merge | src/services/userService.ts:29-33 | every field the patch carries replaces the stored one, and every other field keeps its stored value |
| UserService.Upserted | src/services/userService.ts:29-33 | the written profile always carries the user's id and the new timestamp |
| UserService.UpsertedTakesGivenFields | src/services/userService.ts:29-33 | every field present in the patch overwrites the stored one |
| UserService.UpsertedKeepsAbsentFields | src/services/userService.ts:29-33 | every field absent from the patch keeps its stored value |
| UserService.MergeComposes | src/services/userService.ts:29-33 | two successive merge writes are one merge write of the combined patch |
| UserService.MergeEmptyAndRepeated | src/services/userService.ts:29-33 | an empty patch changes nothing, and merging the same patch twice is merging it once |
| UserService.RemoveMediaIdempotent | src/services/userService.ts:262 | removing a URL leaves none of it, changes no other URL's count, and a second removal changes nothing |
| UserService.Screen | src/services/userService.ts:184-215 | a profile without a timestamp throws; a throw needs a missing timestamp, genres or location; a kept profile has a GeoPoint within the radius at the computed distance; a place-record location is never kept |
| UserService.ScreenKeeps | src/services/userService.ts:184-215 | a fetched profile is kept exactly when it has a timestamp, passes the set filters, has a GeoPoint location and lies within the radius, and its distance is then the computed one (both directions) |
| UserService.Survivors | src/services/userService.ts:184-216 | the loop succeeds exactly when no profile throws, and it then keeps exactly the profiles that pass the screen |
| UserService.ScreenAll | src/services/userService.ts:184-216 | the loop computes exactly the survivors, or the error of the first throwing profile |
| UserService.Store.CreateOrUpdateProfile | src/services/userService.ts:27-34 | only the user's profile changes, into the merge-upsert of the old one; the invariant is kept |
| UserService.Store.SendMatchRequest | src/services/userService.ts:37-46 | exactly one new pending request under the returned id; nothing else changes |
| UserService.Store.SetStatus | src/services/userService.ts:51 | an update of a missing request fails and changes nothing; otherwise only that request's status changes |
| UserService.Store.AcceptMatchRequest | src/services/userService.ts:49-52 | only the request's status becomes accepted; a missing request fails |
| UserService.Store.DeclineMatchRequest | src/services/userService.ts:55-58 | only the request's status becomes declined; a missing request fails |
| UserService.Store.GetInboundRequests | src/services/userService.ts:61-77 | at most 50 received pending requests, newest first, each once; all of them when fewer than 50 come back; any left out are no newer than the ones returned |
| UserService.Store.GetAcceptedMatches | src/services/userService.ts:80-92 | every accepted request the user sent or received, each once, newest first, and nothing else |
| UserService.Store.GetOutboundPending | src/services/userService.ts:95-102 | exactly the pending requests the user sent, each once |
| UserService.Store.FindChat | src/services/userService.ts:108-116 | finds a chat whose participants include both users, or reports that none exists |
| UserService.Store.CreateOrGetChat | src/services/userService.ts:105-123 | returns an existing chat of both users unchanged, or adds exactly one chat `[a, b]` when there is none |
| UserService.Store.CreateOrGetChatIsSymmetric | src/services/userService.ts:105-123 | after a chat of `a` and `b` is created, asking for `b` and `a` returns that same chat |
| UserService.Store.GetUserChats | src/services/userService.ts:125-132 | exactly the user's chats, each once, newest first |
| UserService.Store.FetchVisible | src/services/userService.ts:174-181 | at most 50 visible stored profiles; all visible profiles when fewer come back |
| UserService.Store.GetNearbyUsers | src/services/userService.ts:169-220 | fails exactly when the loop throws; otherwise a distance-sorted permutation of the survivors, each fetched, passing the filters, with a GeoPoint within the radius; every qualifying profile when fewer than 50 were fetched |
| UserService.Store.RemoveGalleryImage | src/services/userService.ts:257-265 | the gallery is rewritten without the URL even when deleting the file fails; the failure is reported |
| UserService.Store.RemoveVideoClip | src/services/userService.ts:268-276 | the same for the video list |
| FilterBar.ToggleGenre | src/components/FilterBar.tsx:49-53 | the toggled genre flips its membership and every other genre keeps its membership |
| FilterBar.ToggleKeepsOthers | src/components/FilterBar.tsx:49-53 | apart from the toggled genre, the selection is unchanged, in order |
| FilterBar.ToggleTwice | src/components/FilterBar.tsx:49-53 | toggling an unselected genre twice gives the selection back |
| FilterBar.OptionValue | src/components/FilterBar.tsx:102 | an option value is lower-case and as long as its name |
| FilterBar.OnInstrumentChange | src/components/FilterBar.tsx:96 | the "all instruments" value clears the instrument; any other value is stored as it is |
| FilterBar.OnSkillLevelChange | src/components/FilterBar.tsx:112 | the "all levels" value clears the skill level; any other value is stored capitalised, differing from it only in case |
| FilterBar.EmitInstrument | src/components/FilterBar.tsx:59 | no instrument, an empty one or "all instruments" emits none; any other is emitted capitalised, differing from it only in case |
| FilterBar.SliderToDistance | src/components/FilterBar.tsx:62 | below the top the slider value is the radius; the top value 100 sends 999999 |
| FilterBar.Emit | src/components/FilterBar.tsx:56-64 | the emitted filter carries the selected genres and skill, the emitted instrument, the trimmed query (with no white space at either end) and the slider's radius, which is never smaller than the slider value |
| FilterBar.EmitIgnoresPadding | src/components/FilterBar.tsx:58 | white space typed around the query does not change the emitted filter |
| FilterBar.TitleWordRoundTrip | src/components/FilterBar.tsx:112 | a title-word name survives lower-casing then capitalisation |
| FilterBar.InstrumentChoiceRoundTrip | src/components/FilterBar.tsx:96-102 | choosing a listed instrument emits exactly its listed name; "All Instruments" and no choice emit none |
| FilterBar.SkillChoiceRoundTrip | src/components/FilterBar.tsx:112-118 | choosing a listed skill level stores its listed name, which is the stored spelling; "All Levels" clears it |
| LocationAutocomplete.NextIndex | src/components/LocationAutocomplete.tsx:69-74 | ArrowDown highlights an entry of the list, wrapping from the last to the first |
| LocationAutocomplete.PrevIndex | src/components/LocationAutocomplete.tsx:75-80 | ArrowUp highlights an entry of the list, wrapping from the first or none to the last |
| LocationAutocomplete.ArrowsUndoEachOther | src/components/LocationAutocomplete.tsx:69-80 | from a highlighted entry, ArrowDown then ArrowUp, or ArrowUp then ArrowDown, comes back |
| LocationAutocomplete.DownPressesWrap | src/components/LocationAutocomplete.tsx:69-74 | repeated ArrowDown walks down the list and starts again from the top past the end |
| LocationAutocomplete.DownPressesCycle | src/components/LocationAutocomplete.tsx:69-74 | as many ArrowDown presses as there are suggestions return to the same entry |
| LocationAutocomplete.SelectionSource | src/components/LocationAutocomplete.tsx:100-120 | a suggestion with a place id and a successful details lookup is replaced by the fetched details; in every other case the suggestion itself is used |
| LocationAutocomplete.Autocomplete.constructor | src/components/LocationAutocomplete.tsx:28-32 | the initial state: no suggestions, nothing highlighted, hidden and unfocused |
| LocationAutocomplete.Autocomplete.RunSearch | src/components/LocationAutocomplete.tsx:37-62 | a search runs only for two or more characters in a focused input; a non-list reply gives an empty shown list, and a failure empties the list; otherwise the list is cleared and hidden |
| LocationAutocomplete.Autocomplete.SelectSuggestion | src/components/LocationAutocomplete.tsx:94-121 | selecting shows the chosen name, closes the list, leaves the input and reports the converted place |
| LocationAutocomplete.Autocomplete.KeyDown | src/components/LocationAutocomplete.tsx:65-92 | keys do nothing while the list is hidden or empty; otherwise each key moves, selects or closes as specified, only Enter on a highlighted entry leaves the input, and the highlight stays in range |
| LocationAutocomplete.Autocomplete.InputChange | src/components/LocationAutocomplete.tsx:123-125 | typing only changes the text |
| LocationAutocomplete.Autocomplete.Focus | src/components/LocationAutocomplete.tsx:127-132 | focusing reopens the list when there are suggestions |
| LocationAutocomplete.Autocomplete.Blur | src/components/LocationAutocomplete.tsx:134-141 | blurring leaves the input, hides the list and clears the highlight |
| LocationAutocomplete.Autocomplete.HoverSuggestion | src/components/LocationAutocomplete.tsx:182 | hovering a rendered suggestion highlights it |
| Discover.Radius | src/pages/Discover.tsx:35 | an absent or zero distance means the 25-mile default; any other distance is used as is |
| Discover.ServiceFilters | src/pages/Discover.tsx:31-35 | only the instrument, genres and skill level are passed to the service |
| Discover.SearchQueryIgnored | src/pages/Discover.tsx:31-35 | the search text and the radius of the panel's filter do not change the filters the service receives |
| Discover.RadiusFromSlider | src/pages/Discover.tsx:35 | the radius searched is the slider value below the top, the unlimited radius at the top, and 25 with no filter |
| Discover.ExcludeSelf | src/pages/Discover.tsx:37 | the user's own profile is dropped, every other profile is kept, in order |
| Discover.CardOf | src/pages/Discover.tsx:51-62 | a card copies the profile's id, name, instrument, genres, skill level, image, bio and distance, has an empty location, and is marked exactly when its id was requested |
| Discover.Cards | src/pages/Discover.tsx:51-62 | one card per profile, with its id and distance, marked exactly when its id was requested |
| Discover.MarkRequested | src/pages/Discover.tsx:87 | only the card of the receiver becomes marked; every other card is unchanged |
| Discover.ShownCards | src/pages/Discover.tsx:37-62 | the shown cards exclude the user, lie within the radius, are marked exactly when requested, and stay in order of distance |
| Discover.DiscoverPage.constructor | src/pages/Discover.tsx:16-19 | no cards, no requested users, and loading |
| Discover.DiscoverPage.RequestedUserIds | src/pages/Discover.tsx:41-47 | the collected ids are exactly the receivers of the requests the user sent |
| Discover.DiscoverPage.Load | src/pages/Discover.tsx:26-68 | without a user nothing happens; it loads exactly when the requests arrive and no fetched profile throws; then the requested set is the receivers of the user's requests and the cards are those of the service's distance-sorted survivors without the user, within the radius and in order; otherwise cards and set are kept; loading ends either way |
| Discover.DiscoverPage.RequestChat | src/pages/Discover.tsx:73-94 | a request is sent exactly when signed in, not yet requested and the call succeeds; then the id joins the requested set and its card is marked; otherwise nothing changes |
| Discover.RequestTwice | src/pages/Discover.tsx:77-80 | a second click for the same user, started after the first request was stored, is refused as already requested, and only one request is stored |
| Matches.OtherParty | src/pages/Matches.tsx:47 | the other user is the receiver when the user sent the request and the requester otherwise |
| Matches.DisplayName | src/pages/Matches.tsx:31 | a row shows the profile's name when it is present and non-empty, and the fallback id otherwise |
| Matches.PendingItemOf | src/pages/Matches.tsx:27-38 | a pending row carries the request's id, requester and status, under the requester's display name |
| Matches.AcceptedItemOf | src/pages/Matches.tsx:46-60 | a match row carries the request's id and both users, under the other user's display name |
| Matches.PendingTab | src/pages/Matches.tsx:26-40 | one pending row per inbox request, in the inbox order |
| Matches.AcceptedTab | src/pages/Matches.tsx:45-62 | one match row per accepted request, in the service's order |
| Matches.IdsOfRows | src/pages/Matches.tsx:26-62 | rows copying the ids of newest-first stored requests list those requests newest first, each once, and all of them |
| Matches.PendingTabOfInbox | src/pages/Matches.tsx:25-41 | the pending tab shows at most 50 received pending requests, each once, newest first, under the requester's name; all of them below 50, and any left out are no newer than every shown row |
| Matches.AcceptedTabOfMatches | src/pages/Matches.tsx:44-63 | the matches tab shows every accepted request of the user exactly once, newest first, under the other user's name |
| Matches.RemovalKeepsOthersInOrder | src/pages/Matches.tsx:79 | removing a request from the pending tab drops exactly its rows and keeps the rest in order |
| Matches.MatchesPage.constructor | src/pages/Matches.tsx:17-18 | both lists start empty |
| Matches.MatchesPage.Load | src/pages/Matches.tsx:21-68 | a `getUserProfile` that rejects (a stored profile without `created_at`) sends the effect to its `catch`: a failing requester lookup leaves both tabs unset, and a failing match lookup leaves the matches tab unset; otherwise the pending tab shows at most 50 received pending requests, each once and newest first, all of them below 50 and the newest otherwise, and the matches tab shows every accepted request of the user once, newest first; each row is under the other user's name; on a store whose profiles all came from the merge-upsert both tabs are set |
| Matches.MatchesPage.Accept | src/pages/Matches.tsx:72-89 | on success only that request becomes accepted and leaves the pending tab, and the chat navigated to is undefined; a failure changes nothing |
| Matches.MatchesPage.AcceptOpensNoChat | src/pages/Matches.tsx:74-84 | accepting a request from someone with no shared chat succeeds, yet leads to no chat and creates none |
| Matches.MatchesPage.AcceptAndOpenChat | src/pages/Matches.tsx:72-89 | on success the request is accepted and leaves the pending tab, and the page opens a chat holding both users: the existing one with the chats unchanged, or exactly one new chat of the pair |
| Matches.MatchesPage.Decline | src/pages/Matches.tsx:100-108 | on success only that request becomes declined and leaves the pending tab; a failure changes nothing |
| Matches.MatchesPage.OpenChat | src/pages/Matches.tsx:90-98 | with a user, opens a chat holding the user and the other party: an existing one with the chats unchanged, or exactly one new chat of the pair |
| MusicianCard.HeadsOfSplitFrom | src/components/MusicianCard.tsx:25-28 | the first characters of the split pieces are the characters that start a word |
| MusicianCard.Initials | src/components/MusicianCard.tsx:25-29 | the initials hold no space and no lower-case letter, and are never longer than the name |
| MusicianCard.InitialsAreWordStarts | src/components/MusicianCard.tsx:25-29 | the initials are the upper-cased first characters of the non-empty words, in order, with no space and no longer than the name |
| MusicianCard.SkillColor | src/components/MusicianCard.tsx:31-42 | the style is one of the four badge styles, and the beginner style exactly for "beginner" in any case |
| MusicianCard.SkillColorProperties | src/components/MusicianCard.tsx:31-42 | the badge style ignores case, each stored level gets its own style, and any other text gets the default |
| MusicianCard.StoredLevelStyled | src/components/MusicianCard.tsx:31-42 | every stored skill level gets a style of its own, never the default |
| MusicianCard.ShownGenres | src/components/MusicianCard.tsx:82 | at most three genre badges: the first ones, in order |
| MusicianCard.RequestButtonOf | src/components/MusicianCard.tsx:103-113 | the request button is disabled and reads "Requested" exactly when the musician was requested, and reads "Request to Chat" otherwise |
| MusicianCard.OnClick | src/components/MusicianCard.tsx:96-113 | a click reports the card's id, and only a click on the request button of a requested musician reports nothing |
| MusicianCard.ClickReportsCardId | src/components/MusicianCard.tsx:96-108 | both buttons report exactly the card's id; the request button reports nothing exactly when the musician was requested, which is when it is disabled |
| MusicianCard.Render | src/components/MusicianCard.tsx:24-113 | rendering throws exactly when the name, skill level or genres are missing; otherwise the initials are the upper-cased word starts, the badge has the style of the card's own level (never the default), the genres shown are exactly the first three (or all when fewer), and the button is the one for the card's requested flag |
| Geocoding.Present | src/services/geocodingService.ts:26-29 | only non-empty parts are kept, never more than given |
| Geocoding.PresentOfThree | src/services/geocodingService.ts:26-29 | the parts are the city, the subdivision and the country, in that order, each only when present |
| Geocoding.PlaceNameShape | src/services/geocodingService.ts:26-31 | the name lists the present parts separated by ", ", and is the coordinate text when none is present; it is never empty when a part is present |
| Geocoding.PlaceParts | src/services/geocodingService.ts:26-29 | the successive pushes build exactly the present parts |
| Geocoding.NameOrCoordinates | src/services/geocodingService.ts:31 | `join \|\| coordinates` gives the joined parts when there are any, and the coordinates otherwise |
| Geocoding.GetPlaceNameFromCoordinates | src/services/geocodingService.ts:13-37 | a reply gives the place name of its parts; a non-OK status or an error gives the coordinates |
| Geocoding.GetCoordinatesFromPlaceName | src/services/geocodingService.ts:40-63 | the result is always a valid GeoPoint: the first result's coordinates when it is in range, and New York City when there is no result, the first one is out of range, or the status is not OK or the request fails |
| Geocoding.GetLocationInfo | src/services/geocodingService.ts:66-97 | the call rejects exactly when the input is out of the GeoPoint range; otherwise the coordinates are the input, the name and parts come from a reply, and a failure gives the coordinate text and no parts |
| Geocoding.SameNameBothWays | src/services/geocodingService.ts:85 | the detailed record exists exactly for in-range input, and then names a place exactly as the plain reverse lookup does |

## Left out

- Network and store failures of page loads: the store never fails. A failure is
  modelled only where its outcome is an input: `allRequests`, `sendOk`, `deleted`,
  `SearchOutcome`, `Lookup` and `Reply`. Accept and decline fail only on a missing request.
- `getAllRequestsForUser` is not part of this model. `src/services/userService.ts` does
  not define it. Its result is the input `allRequests` of `DiscoverPage.Load`, and
  `None` stands for a call that throws.
- `getLocationSuggestions`, `getPlaceDetails` and `convertToLocationData` are not part of
  this model. Their results are the inputs `SearchOutcome`, `Lookup` and `convert`.
- `calculateDistance` (the Haversine formula, floating point): the distance is an
  uninterpreted function `dist`. A LocationData-shaped location has no latitude or
  longitude, so the formula gives NaN and the radius test fails. The model drops such
  profiles.
- `toFixed(2)` is the uninterpreted formatter `fmt`. The MusicianCard `Math.round` of
  the distance is not modelled (floating point).
- Uploads, `deleteFileByUrl`, `sendMessage` and `subscribeToMessages`: storage and live
  subscriptions, outside the modelled core. Whether the file deletion succeeded is the
  input `deleted`.
- Timers: the 300 ms search debounce, the 150 ms blur delay, the 1 s navigation delay,
  and responses that arrive after the input changed. Each effect runs once, at once.
- Toasts, console logging and layout.
- Text: case mapping covers ASCII letters only, and lengths count characters rather
  than UTF-16 code units.
- LocationAutocomplete.Autocomplete.RunSearch: reads the suggestion list as input and
  does not model which query produced it.
- UserService.Store.GetNearbyUsers: states sortedness and permutation but not that the
  sort is stable. `Lists.SortBy` is stable, as `Array.prototype.sort` is.
- Discover.DiscoverPage.Load: the panel's `searchQuery` is emitted but never passed to
  the service, so it has no effect on discovery, as in the code.
- UserService.Store.SendMatchRequest: there is no check for a duplicate request. The
  discovery page's requested set refuses a second click only once the first send has
  finished.
- Discover.RequestTwice: handlers run to completion one at a time. Overlapping clicks are
  not modelled: a second click during the first `sendMatchRequest` still sees the old
  requested set and can send a duplicate request.
- UserService.Store.CreateOrUpdateProfile: every update resets `created_at` to the
  current time, as the code does.
- Chat ids are generated by the store (`newId`, non-empty). Accepting a request creates
  no chat (see Findings).

## Findings

| source | as written | input that shows it | evidently intended | confidence | as-written member | corrected member |
|---|---|---|---|---|---|---|
| src/pages/Matches.tsx:74-84 | the page navigates to the value `acceptMatchRequest` resolves to, which is nothing, so it opens the chat `undefined`; no chat is created for the new match | accepting a pending request whose requester shares no chat with the user | after accepting, open the chat of the user and the requester | high; not executed | Matches.MatchesPage.AcceptOpensNoChat | Matches.MatchesPage.AcceptAndOpenChat |
