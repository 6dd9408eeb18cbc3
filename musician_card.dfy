/**
 * The presentation helpers of a musician's card (src/components/MusicianCard.tsx):
 * the avatar initials, the skill badge style, the genre badges and the two buttons.
 */
module MusicianCard {
  import opened Wrappers
  import opened Types
  import opened Text
  import Discover

  // ---------------------------------------------------------------------------
  // Initials

  /**
   * `words.map(n => n[0]).join("")`: the first character of every word; an empty
   * word has no first character and `join` writes `undefined` as nothing.
   */
  function Heads(words: seq<string>): string
    decreases |words|
  {
    if words == [] then []
    else (if words[0] == [] then [] else [words[0][0]]) + Heads(words[1..])
  }

  /** The avatar initials: the heads of the space-separated words, upper-cased. */
  function Initials(name: string): (r: string)
    ensures ' ' !in r && |r| <= |name|
    ensures forall i :: 0 <= i < |r| ==> !IsLowerAscii(r[i])
  {
    HeadsOfSplitFrom(name, []);
    WordStartsAreNotSpaces(name, true);
    UpperStr(Heads(Split(name, ' ')))
  }

  /** A reference definition: every non-space character that starts the name or follows a space. */
  function WordStarts(s: string, afterSpace: bool): string
    decreases |s|
  {
    if s == [] then []
    else (if s[0] != ' ' && afterSpace then [s[0]] else []) + WordStarts(s[1..], s[0] == ' ')
  }

  lemma {:induction false} HeadsOfSplitFrom(s: string, cur: string)
    ensures Heads(SplitFrom(s, ' ', cur)) == (if cur == [] then [] else [cur[0]]) + WordStarts(s, cur == [])
    decreases |s|
  {
    var pieces := SplitFrom(s, ' ', cur);
    if s == [] {
      assert pieces == [cur];
    } else if s[0] == ' ' {
      HeadsOfSplitFrom(s[1..], []);
      assert pieces[0] == cur && pieces[1..] == SplitFrom(s[1..], ' ', []);
    } else {
      HeadsOfSplitFrom(s[1..], cur + [s[0]]);
    }
  }

  lemma {:induction false} WordStartsAreNotSpaces(s: string, afterSpace: bool)
    ensures ' ' !in WordStarts(s, afterSpace) && |WordStarts(s, afterSpace)| <= |s|
    decreases |s|
  {
    if s != [] {
      WordStartsAreNotSpaces(s[1..], s[0] == ' ');
    }
  }

  /** The initials are the upper-cased first characters of the non-empty words of the name, in order. */
  lemma InitialsAreWordStarts(name: string)
    ensures Initials(name) == UpperStr(WordStarts(name, true))
    ensures ' ' !in Initials(name) && |Initials(name)| <= |name|
  {
    HeadsOfSplitFrom(name, []);
    WordStartsAreNotSpaces(name, true);
  }

  // ---------------------------------------------------------------------------
  // Skill badge

  const BeginnerStyle: string := "bg-green-500/10 text-green-700 border-green-200"
  const IntermediateStyle: string := "bg-blue-500/10 text-blue-700 border-blue-200"
  const AdvancedStyle: string := "bg-purple-500/10 text-purple-700 border-purple-200"
  const DefaultStyle: string := "bg-muted text-muted-foreground"

  /** `getSkillColor`: a style per skill level, chosen on the lower-cased name. */
  function SkillColor(skill: string): (r: string)
    ensures r in [BeginnerStyle, IntermediateStyle, AdvancedStyle, DefaultStyle]
    ensures r == BeginnerStyle <==> LowerStr(skill) == "beginner"
  {
    var key := LowerStr(skill);
    if key == "beginner" then BeginnerStyle
    else if key == "intermediate" then IntermediateStyle
    else if key == "advanced" then AdvancedStyle
    else DefaultStyle
  }

  /** The style ignores letter case, each stored level has its own style, and other text gets the default. */
  lemma SkillColorProperties(skill: string)
    ensures SkillColor(LowerStr(skill)) == SkillColor(skill) && SkillColor(UpperStr(skill)) == SkillColor(skill)
    ensures SkillColor(SkillName(Beginner)) == BeginnerStyle
    ensures SkillColor(SkillName(Intermediate)) == IntermediateStyle
    ensures SkillColor(SkillName(Advanced)) == AdvancedStyle
    ensures SkillColor(skill) == DefaultStyle <==> LowerStr(skill) !in ["beginner", "intermediate", "advanced"]
  {
    LowerStrIgnoresCase(skill);
    assert LowerStr(SkillName(Beginner)) == "beginner";
    assert LowerStr(SkillName(Intermediate)) == "intermediate";
    assert LowerStr(SkillName(Advanced)) == "advanced";
  }

  /** Every stored skill level has a style of its own, never the default one. */
  lemma StoredLevelStyled(l: SkillLevel)
    ensures SkillColor(SkillName(l)) != DefaultStyle
  {
    SkillColorProperties(SkillName(l));
  }

  // ---------------------------------------------------------------------------
  // Genres and buttons

  /** The maximum number of genre badges on a card. */
  const MaxGenreBadges: nat := 3

  /** `genres.slice(0, 3)`. */
  function ShownGenres(genres: seq<string>): (r: seq<string>)
    ensures |r| == if |genres| < MaxGenreBadges then |genres| else MaxGenreBadges
    ensures r == genres[..|r|]
  {
    if |genres| <= MaxGenreBadges then genres else genres[..MaxGenreBadges]
  }

  /** What the request button shows. */
  datatype RequestButton = RequestButton(disabled: bool, caption: string)

  /** The request button of a card; `requested` may be missing, which counts as not requested. */
  function RequestButtonOf(requested: Option<bool>): (b: RequestButton)
    ensures b.disabled <==> requested == Some(true)
    ensures b.caption == if requested == Some(true) then "Requested" else "Request to Chat"
  {
    if requested == Some(true) then RequestButton(true, "Requested") else RequestButton(false, "Request to Chat")
  }

  datatype CardButton = ViewProfileButton | RequestChatButton

  /** What a click on a card button reports to the page. */
  datatype CardEvent = ViewProfile(id: string) | RequestChat(id: string)

  function OnClick(b: CardButton, id: string, requested: Option<bool>): (r: Option<CardEvent>)
    ensures r.Some? ==> r.value.id == id
    ensures r.None? <==> b == RequestChatButton && requested == Some(true)
  {
    match b
    case ViewProfileButton => Some(ViewProfile(id))
    case RequestChatButton => if requested == Some(true) then None else Some(RequestChat(id))
  }

  /** Both buttons report exactly the card's id; the request button reports nothing once it shows "Requested". */
  lemma ClickReportsCardId(b: CardButton, id: string, requested: Option<bool>)
    ensures OnClick(b, id, requested).Some? ==> OnClick(b, id, requested).value.id == id
    ensures OnClick(RequestChatButton, id, requested).None? <==> requested == Some(true)
    ensures OnClick(RequestChatButton, id, requested).None? <==> RequestButtonOf(requested).disabled
    ensures OnClick(ViewProfileButton, id, requested) == Some(ViewProfile(id))
  {
  }

  // ---------------------------------------------------------------------------
  // Rendering a card

  /** What a rendered card derives from its musician. */
  datatype CardView = CardView(initials: string, skillStyle: string, genres: seq<string>, button: RequestButton)

  /**
   * Rendering a discovery card: `musician.name.split`, `skill.toLowerCase()` and
   * `musician.genres.slice` each throw (`None`) when the profile lacks that field.
   */
  function Render(c: Discover.Card): (r: Option<CardView>)
    ensures r.None? <==> c.name.None? || c.skillLevel.None? || c.genres.None?
    ensures r.Some? ==> r.value.initials == UpperStr(WordStarts(c.name.value, true))
    ensures r.Some? ==> r.value.skillStyle == SkillColor(SkillName(c.skillLevel.value)) && r.value.skillStyle != DefaultStyle
    ensures r.Some? ==> r.value.genres == ShownGenres(c.genres.value)
    ensures r.Some? ==>
      |r.value.genres| <= MaxGenreBadges && |r.value.genres| <= |c.genres.value| &&
      r.value.genres == c.genres.value[..|r.value.genres|]
    ensures r.Some? ==> r.value.button == RequestButtonOf(Some(c.requested))
    ensures r.Some? ==> (r.value.button.disabled <==> c.requested)
  {
    if c.name.None? || c.skillLevel.None? || c.genres.None? then None
    else
      InitialsAreWordStarts(c.name.value);
      StoredLevelStyled(c.skillLevel.value);
      var style := SkillColor(SkillName(c.skillLevel.value));
      Some(CardView(Initials(c.name.value), style, ShownGenres(c.genres.value), RequestButtonOf(Some(c.requested))))
  }
}
