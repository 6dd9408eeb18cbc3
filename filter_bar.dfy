/**
 * The discovery filter panel (src/components/FilterBar.tsx): its state, the genre
 * toggle, the mapping from the lower-cased option values back to the stored
 * vocabulary, and the filter object it emits.
 */
module FilterBar {
  import opened Wrappers
  import opened Types
  import opened Text
  import opened Lists

  const Instruments: seq<string> :=
    ["All Instruments", "Guitar", "Bass", "Drums", "Piano", "Vocals", "Saxophone", "Violin", "Other"]
  const Genres: seq<string> := ["Rock", "Jazz", "Blues", "Pop", "Metal", "Classical", "Electronic", "Hip Hop"]
  const SkillLevels: seq<string> := ["All Levels", "Beginner", "Intermediate", "Advanced"]

  /** The option values that mean "no filter". */
  const AllInstruments: string := "all instruments"
  const AllLevels: string := "all levels"

  /** The slider runs from 1 to 100; its top value means "unlimited", sent as a very large radius. */
  const SliderMin: int := 1
  const SliderMax: int := 100
  const Unlimited: int := 999999

  datatype FilterBarState = FilterBarState(
    distance: int,
    selectedGenres: seq<string>,
    instrument: Option<string>,
    skillLevel: Option<string>,
    searchQuery: string)

  const Initial := FilterBarState(25, [], None, None, "")

  /** `toggleGenre`: drop every occurrence of a selected genre, or append an unselected one. */
  function ToggleGenre(prev: seq<string>, genre: string): (r: seq<string>)
    ensures genre in r <==> genre !in prev
    ensures forall g :: g != genre ==> (g in r <==> g in prev)
  {
    if genre in prev then Remove(prev, genre) else prev + [genre]
  }

  /** The other genres keep their membership and their relative order. */
  lemma ToggleKeepsOthers(prev: seq<string>, genre: string)
    ensures Remove(ToggleGenre(prev, genre), genre) == Remove(prev, genre)
  {
    if genre in prev {
      WithoutIdempotent(prev, Identity, genre);
    } else {
      WithoutAppend(prev, [genre], Identity, genre);
      assert Without([genre], Identity, genre) == [];
    }
  }

  /** Toggling an unselected genre twice gives the selection back. */
  lemma ToggleTwice(prev: seq<string>, genre: string)
    requires genre !in prev
    ensures ToggleGenre(ToggleGenre(prev, genre), genre) == prev
  {
    WithoutAppend(prev, [genre], Identity, genre);
    WithoutNothingToRemove(prev, Identity, genre);
    assert Without([genre], Identity, genre) == [];
  }

  /** The value of a select option: its name, lower-cased. */
  function OptionValue(name: string): (r: string)
    ensures LowerStr(r) == r && |r| == |name|
  {
    LowerStrIgnoresCase(name);
    LowerStr(name)
  }

  /** The instrument select's change handler. */
  function OnInstrumentChange(v: string): (r: Option<string>)
    ensures r.None? <==> v == AllInstruments
    ensures r.Some? ==> r.value == v
  {
    if v == AllInstruments then None else Some(v)
  }

  /** The skill select's change handler: "all levels" clears, other values are capitalised. */
  function OnSkillLevelChange(v: string): (r: Option<string>)
    ensures r.None? <==> v == AllLevels
    ensures r.Some? ==> LowerStr(r.value) == LowerStr(v) && (v != "" ==> !IsLowerAscii(r.value[0]))
  {
    if v == AllLevels then None else Some(Capitalise(v))
  }

  /** The instrument as emitted: absent, empty or "all instruments" clear it, otherwise it is capitalised. */
  function EmitInstrument(i: Option<string>): (r: Option<string>)
    ensures r.None? <==> i.None? || i.value == "" || i.value == AllInstruments
    ensures r.Some? ==> LowerStr(r.value) == LowerStr(i.value) && !IsLowerAscii(r.value[0])
  {
    if Truthy(i) && i.value != AllInstruments then Some(Capitalise(i.value)) else None
  }

  /** The radius sent for a slider value. */
  function SliderToDistance(v: int): (r: int)
    ensures SliderMin <= v < SliderMax ==> r == v
    ensures v == SliderMax ==> r == Unlimited && r > SliderMax
  {
    if v == SliderMax then Unlimited else v
  }

  /** The filter object the panel emits whenever its state changes. */
  function Emit(s: FilterBarState): (r: FilterOptions)
    ensures r.genres == Some(s.selectedGenres)
    ensures r.skillLevel == s.skillLevel
    ensures r.instrument == EmitInstrument(s.instrument)
    ensures r.searchQuery == Some(Trim(s.searchQuery))
    ensures r.searchQuery.value == [] ||
      (!IsSpace(r.searchQuery.value[0]) && !IsSpace(r.searchQuery.value[|r.searchQuery.value| - 1]))
    ensures r.distance == Some(SliderToDistance(s.distance))
    ensures SliderMin <= s.distance <= SliderMax ==> r.distance.value >= s.distance
  {
    FilterOptions(
      EmitInstrument(s.instrument), Some(s.selectedGenres), s.skillLevel,
      Some(SliderToDistance(s.distance)), Some(Trim(s.searchQuery)))
  }

  /** Leading or trailing white space typed into the search box does not change the emitted filter. */
  lemma EmitIgnoresPadding(s: FilterBarState)
    ensures Emit(s.(searchQuery := Trim(s.searchQuery))) == Emit(s)
  {
    TrimIdempotent(s.searchQuery);
  }

  /** A name spelled as a title word survives lower-casing and then capitalisation. */
  lemma TitleWordRoundTrip(name: string)
    requires IsTitleWord(name)
    ensures Capitalise(OptionValue(name)) == name
  {
    CapitaliseLowerRoundTrip(name);
  }

  /** Choosing a listed instrument emits its listed name; "All Instruments" and no choice emit nothing. */
  lemma InstrumentChoiceRoundTrip()
    ensures EmitInstrument(OnInstrumentChange(OptionValue(Instruments[0]))) == None
    ensures EmitInstrument(None) == None
    ensures forall i :: 1 <= i < |Instruments| ==> EmitInstrument(OnInstrumentChange(OptionValue(Instruments[i]))) == Some(Instruments[i])
  {
    assert OptionValue(Instruments[0]) == AllInstruments;
    forall i | 1 <= i < |Instruments|
      ensures EmitInstrument(OnInstrumentChange(OptionValue(Instruments[i]))) == Some(Instruments[i])
    {
      var name := Instruments[i];
      assert IsTitleWord(name);
      TitleWordRoundTrip(name);
      assert OptionValue(name) != AllInstruments by {
        assert |OptionValue(name)| == |name| < |AllInstruments|;
      }
    }
  }

  /** Choosing a listed skill level stores its listed name, which is the stored spelling; "All Levels" clears it. */
  lemma SkillChoiceRoundTrip()
    ensures OnSkillLevelChange(OptionValue(SkillLevels[0])) == None
    ensures forall i :: 1 <= i < |SkillLevels| ==> OnSkillLevelChange(OptionValue(SkillLevels[i])) == Some(SkillLevels[i])
    ensures forall l: SkillLevel :: OnSkillLevelChange(OptionValue(SkillName(l))) == Some(SkillName(l))
  {
    assert OptionValue(SkillLevels[0]) == AllLevels;
    forall l: SkillLevel ensures OnSkillLevelChange(OptionValue(SkillName(l))) == Some(SkillName(l)) {
      var name := SkillName(l);
      assert IsTitleWord(name);
      TitleWordRoundTrip(name);
      assert OptionValue(name) != AllLevels by {
        assert |OptionValue(name)| == |name| != |AllLevels|;
      }
    }
    assert SkillLevels[1..] == [SkillName(Beginner), SkillName(Intermediate), SkillName(Advanced)];
  }
}
