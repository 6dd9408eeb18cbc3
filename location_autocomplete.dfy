/**
 * The location picker (src/components/LocationAutocomplete.tsx): the search guard,
 * the keyboard state machine over the suggestion list and the selection fallback.
 * The suggestion search, the place-details lookup and the conversion to a
 * LocationData record belong to the geocoding client and are inputs here.
 */
module LocationAutocomplete {
  import opened Wrappers
  import opened Types

  /** A search suggestion: the text shown and, when the provider has one, its place id. */
  datatype Suggestion = Suggestion(displayName: string, placeId: Option<string>, coords: Coord)

  datatype Key = ArrowDown | ArrowUp | Enter | Escape | OtherKey

  /** What the suggestion search produced: a list, something that is not a list, or an error. */
  datatype SearchOutcome = Results(list: seq<Suggestion>) | NotAList | SearchFailed

  /** What the place-details lookup produced: details, null, or an error. */
  datatype Lookup = Details(place: Suggestion) | NoDetails | LookupFailed

  /** The shortest text that triggers a search. */
  const MinQueryLength: nat := 2

  /** The highlighted entry after ArrowDown: the next one, wrapping from the last to the first. */
  function NextIndex(i: int, n: nat): (r: int)
    requires n > 0
    ensures -1 <= i ==> 0 <= r < n
    ensures i == n - 1 ==> r == 0
  {
    if i < n - 1 then i + 1 else 0
  }

  /** The highlighted entry after ArrowUp: the previous one, wrapping from the first (or none) to the last. */
  function PrevIndex(i: int, n: nat): (r: int)
    requires n > 0
    ensures i < n ==> 0 <= r < n
    ensures i <= 0 ==> r == n - 1
  {
    if i > 0 then i - 1 else n - 1
  }

  /** ArrowDown then ArrowUp, and ArrowUp then ArrowDown, come back to a highlighted entry. */
  lemma ArrowsUndoEachOther(i: int, n: nat)
    requires 0 <= i < n
    ensures PrevIndex(NextIndex(i, n), n) == i
    ensures NextIndex(PrevIndex(i, n), n) == i
  {
  }

  /** The highlighted entry after `k` presses of ArrowDown. */
  function DownPresses(i: int, n: nat, k: nat): (r: int)
    requires n > 0
    decreases k
  {
    if k == 0 then i else DownPresses(NextIndex(i, n), n, k - 1)
  }

  /** Pressing ArrowDown walks down the list and, past the last entry, starts again from the first. */
  lemma {:induction false} DownPressesWrap(i: int, n: nat, k: nat)
    requires 0 <= i < n
    ensures i + k < n ==> DownPresses(i, n, k) == i + k
    ensures i + k >= n ==> DownPresses(i, n, k) == DownPresses(0, n, i + k - n)
    decreases k
  {
    if k > 0 {
      DownPressesWrap(NextIndex(i, n), n, k - 1);
    }
  }

  /** As many ArrowDown presses as there are suggestions come back to the highlighted entry. */
  lemma DownPressesCycle(i: int, n: nat)
    requires 0 <= i < n
    ensures DownPresses(i, n, n) == i
  {
    DownPressesWrap(i, n, n);
    DownPressesWrap(0, n, i);
  }

  /** The record handed to the LocationData conversion: the details when they were fetched, else the suggestion. */
  function SelectionSource(s: Suggestion, lookup: Lookup): (r: Suggestion)
    ensures r == s || (Truthy(s.placeId) && lookup == Details(r))
    ensures !Truthy(s.placeId) || !lookup.Details? ==> r == s
    ensures Truthy(s.placeId) && lookup.Details? ==> r == lookup.place
  {
    if Truthy(s.placeId) then
      match lookup
      case Details(d) => d
      case NoDetails => s
      case LookupFailed => s
    else s
  }

  class Autocomplete {
    /** The input's text (the `value` the parent echoes back from `onChange`). */
    var text: string
    var suggestions: seq<Suggestion>
    var isLoading: bool
    var showSuggestions: bool
    var selectedIndex: int
    var isFocused: bool
    /** The last record passed to `onLocationSelect`. */
    var selected: Option<LocationData>

    /** The highlighted index is -1 or, while there are suggestions, one of them. */
    ghost predicate Valid()
      reads this
    {
      -1 <= selectedIndex && (suggestions != [] ==> selectedIndex < |suggestions|)
    }

    /** The dropdown is rendered only while shown, focused and non-empty. */
    predicate DropdownVisible()
      reads this
    {
      showSuggestions && isFocused && |suggestions| > 0
    }

    /** A search runs only for at least two characters typed into the focused input. */
    predicate SearchAllowed()
      reads this
    {
      |text| >= MinQueryLength && isFocused
    }

    constructor (value: string)
      ensures Valid()
      ensures text == value && suggestions == [] && !isLoading && !showSuggestions
      ensures selectedIndex == -1 && !isFocused && selected == None
    {
      text := value;
      suggestions := [];
      isLoading := false;
      showSuggestions := false;
      selectedIndex := -1;
      isFocused := false;
      selected := None;
    }

    /** The debounced search effect, with the search's outcome as input. */
    method RunSearch(outcome: SearchOutcome)
      requires Valid()
      modifies this
      ensures Valid()
      ensures text == old(text) && isFocused == old(isFocused) && selected == old(selected)
      ensures !old(SearchAllowed()) ==>
        suggestions == [] && !showSuggestions && selectedIndex == old(selectedIndex) && isLoading == old(isLoading)
      ensures old(SearchAllowed()) ==> !isLoading
      ensures old(SearchAllowed()) && !outcome.SearchFailed? ==>
        suggestions == (if outcome.Results? then outcome.list else []) && showSuggestions && selectedIndex == -1
      ensures old(SearchAllowed()) && outcome.SearchFailed? ==>
        suggestions == [] && showSuggestions == old(showSuggestions) && selectedIndex == old(selectedIndex)
    {
      if |text| >= MinQueryLength && isFocused {
        isLoading := true;
        match outcome {
          case Results(list) =>
            suggestions := list;
            showSuggestions := true;
            selectedIndex := -1;
          case NotAList =>
            suggestions := [];
            showSuggestions := true;
            selectedIndex := -1;
          case SearchFailed =>
            suggestions := [];
        }
        isLoading := false;
      } else {
        suggestions := [];
        showSuggestions := false;
      }
    }

    /** `handleSuggestionSelect`: show the chosen name, close the list, leave the input, report the place. */
    method SelectSuggestion(s: Suggestion, lookup: Lookup, convert: Suggestion -> LocationData)
      requires Valid()
      modifies this
      ensures Valid()
      ensures text == s.displayName && !showSuggestions && selectedIndex == -1 && !isFocused
      ensures selected == Some(convert(SelectionSource(s, lookup)))
      ensures suggestions == old(suggestions) && isLoading == old(isLoading)
    {
      text := s.displayName;
      showSuggestions := false;
      selectedIndex := -1;
      isFocused := false;
      selected := Some(convert(SelectionSource(s, lookup)));
    }

    /** `handleKeyDown`. */
    method KeyDown(k: Key, lookup: Lookup, convert: Suggestion -> LocationData)
      requires Valid()
      modifies this
      ensures Valid()
      ensures !old(showSuggestions) || old(|suggestions|) == 0 ==>
        text == old(text) && suggestions == old(suggestions) && isLoading == old(isLoading)
        && showSuggestions == old(showSuggestions) && selectedIndex == old(selectedIndex)
        && isFocused == old(isFocused) && selected == old(selected)
      ensures old(showSuggestions) && old(|suggestions|) > 0 ==> match k
        case ArrowDown => selectedIndex == NextIndex(old(selectedIndex), old(|suggestions|))
          && showSuggestions && selected == old(selected) && text == old(text)
        case ArrowUp => selectedIndex == PrevIndex(old(selectedIndex), old(|suggestions|))
          && showSuggestions && selected == old(selected) && text == old(text)
        case Enter => if 0 <= old(selectedIndex) < old(|suggestions|) then
            var s := old(suggestions[selectedIndex]);
            text == s.displayName && !showSuggestions && selectedIndex == -1 && !isFocused
            && selected == Some(convert(SelectionSource(s, lookup)))
          else selectedIndex == old(selectedIndex) && showSuggestions && selected == old(selected) && text == old(text)
        case Escape => !showSuggestions && selectedIndex == -1 && selected == old(selected) && text == old(text)
        case OtherKey => selectedIndex == old(selectedIndex) && showSuggestions && selected == old(selected) && text == old(text)
      ensures !(old(showSuggestions) && k == Enter && 0 <= old(selectedIndex) < old(|suggestions|)) ==> isFocused == old(isFocused)
      ensures suggestions == old(suggestions) && isLoading == old(isLoading)
    {
      if !showSuggestions || |suggestions| == 0 {
        return;
      }
      match k {
        case ArrowDown =>
          selectedIndex := NextIndex(selectedIndex, |suggestions|);
        case ArrowUp =>
          selectedIndex := PrevIndex(selectedIndex, |suggestions|);
        case Enter =>
          if 0 <= selectedIndex < |suggestions| {
            SelectSuggestion(suggestions[selectedIndex], lookup, convert);
          }
        case Escape =>
          showSuggestions := false;
          selectedIndex := -1;
        case OtherKey =>
      }
    }

    /** `handleInputChange`: the parent stores the new text. */
    method InputChange(v: string)
      requires Valid()
      modifies this
      ensures Valid()
      ensures text == v && suggestions == old(suggestions) && showSuggestions == old(showSuggestions)
      ensures selectedIndex == old(selectedIndex) && isFocused == old(isFocused) && selected == old(selected)
      ensures isLoading == old(isLoading)
    {
      text := v;
    }

    /** `handleFocus`: reopen the list when there are suggestions. */
    method Focus()
      requires Valid()
      modifies this
      ensures Valid()
      ensures isFocused && showSuggestions == (old(showSuggestions) || old(|suggestions|) > 0)
      ensures text == old(text) && suggestions == old(suggestions) && selectedIndex == old(selectedIndex)
      ensures selected == old(selected) && isLoading == old(isLoading)
    {
      isFocused := true;
      if |suggestions| > 0 {
        showSuggestions := true;
      }
    }

    /** `handleBlur`, with its delayed hide applied at once. */
    method Blur()
      requires Valid()
      modifies this
      ensures Valid()
      ensures !isFocused && !showSuggestions && selectedIndex == -1
      ensures text == old(text) && suggestions == old(suggestions) && selected == old(selected)
      ensures isLoading == old(isLoading)
    {
      isFocused := false;
      showSuggestions := false;
      selectedIndex := -1;
    }

    /** Hovering over a rendered suggestion highlights it. */
    method HoverSuggestion(index: int)
      requires Valid() && DropdownVisible() && 0 <= index < |suggestions|
      modifies this
      ensures Valid()
      ensures selectedIndex == index
      ensures text == old(text) && suggestions == old(suggestions) && showSuggestions == old(showSuggestions)
      ensures isFocused == old(isFocused) && selected == old(selected) && isLoading == old(isLoading)
    {
      selectedIndex := index;
    }
  }
}
