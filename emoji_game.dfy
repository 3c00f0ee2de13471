/**
 * The emoji picker: each draw shows the drawn member a question and six
 * answers taken from one of three fixed fifteen-entry themes.
 */
module EmojiGame {
  import opened Wrappers
  import opened Collections
  import opened Roster
  import opened Draw

  /** One answer: a glyph and its caption. */
  datatype Emoji = Emoji(emoji: string, name: string)

  /** A theme: its question and its fifteen answers. */
  datatype EmojiSet = EmojiSet(question: string, emojis: seq<Emoji>)

  /** The keys of the theme table, in declaration order. */
  datatype ThemeKey = Animals | Transport | Sports

  /** What one draw shows: a question and six answers. */
  datatype Prompt = Prompt(question: string, emojis: seq<Emoji>)

  const ThemeSize: nat := 15
  const ShownCount: nat := 6

  /** The question each theme asks. */
  function Question(key: ThemeKey): string
  {
    match key
    case Animals => "Pick an animal that describes you today:"
    case Transport => "Pick a transport that matches your energy today:"
    case Sports => "Which sport describes you today?"
  }

  /** The glyph of answer `k` of the animals theme. */
  function AnimalsGlyph(k: nat): string
    requires k < ThemeSize
  {
    ["🦁", "🦊", "🐢", "🦋", "🦉", "🐝", "🦅", "🐼",
     "🐬", "🦄", "🐌", "🦆", "🦁", "🐵", "🦈"][k]
  }

  /** The caption of answer `k` of the animals theme. */
  function AnimalsCaption(k: nat): string
    requires k < ThemeSize
  {
    [
      "Lion - natural born leader",
      "Fox - smart and adaptable",
      "Turtle - steady and reliable",
      "Butterfly - in transformation",
      "Owl - night thinker",
      "Bee - super productive",
      "Eagle - high achiever",
      "Panda - chill and relaxed",
      "Dolphin - playful and friendly",
      "Unicorn - feeling special",
      "Snail - taking it slow",
      "Duck - going with the flow",
      "Lion - feeling powerful",
      "Monkey - full of energy",
      "Shark - unstoppable"][k]
  }

  /** The glyph of answer `k` of the transport theme. */
  function TransportGlyph(k: nat): string
    requires k < ThemeSize
  {
    ["🚀", "🚂", "🚲", "🏃", "🚗", "🛵", "🚁", "🚶",
     "⛵", "🏎️", "🚌", "🛸", "🚤", "🦽", "🛹"][k]
  }

  /** The caption of answer `k` of the transport theme. */
  function TransportCaption(k: nat): string
    requires k < ThemeSize
  {
    [
      "Rocket - sky-high energy",
      "Train - steady and reliable",
      "Bicycle - eco-friendly pace",
      "Runner - self-powered",
      "Car - in control",
      "Scooter - quick and agile",
      "Helicopter - overseeing everything",
      "Walking - taking it easy",
      "Sailboat - going with the flow",
      "Race car - super charged",
      "Bus - team player",
      "UFO - feeling otherworldly",
      "Speedboat - cutting through",
      "Wheelchair - persistent",
      "Skateboard - cool and casual"][k]
  }

  /** The glyph of answer `k` of the sports theme. */
  function SportsGlyph(k: nat): string
    requires k < ThemeSize
  {
    ["⚽", "🎾", "🏊‍♂️", "🏃‍♂️", "🧗‍♀️", "🏄‍♂️", "🤸‍♂️", "🏋️‍♂️",
     "🎯", "⛳", "🥋", "🧘‍♂️", "🤾‍♂️", "🏹", "🏂"][k]
  }

  /** The caption of answer `k` of the sports theme. */
  function SportsCaption(k: nat): string
    requires k < ThemeSize
  {
    [
      "Soccer - team player",
      "Tennis - precise and focused",
      "Swimming - going with the flow",
      "Running - on my own path",
      "Climbing - overcoming challenges",
      "Surfing - riding the waves",
      "Gymnastics - flexible and balanced",
      "Weight lifting - feeling strong",
      "Darts - focused on targets",
      "Golf - strategic and patient",
      "Martial arts - disciplined",
      "Yoga - mindful and centered",
      "Handball - dynamic and fast",
      "Archery - aiming high",
      "Snowboarding - adventurous"][k]
  }

  /** Answer `k` of theme `key`: its glyph and its caption. */
  function Entry(key: ThemeKey, k: nat): Emoji
    requires k < ThemeSize
  {
    match key
    case Animals => Emoji(AnimalsGlyph(k), AnimalsCaption(k))
    case Transport => Emoji(TransportGlyph(k), TransportCaption(k))
    case Sports => Emoji(SportsGlyph(k), SportsCaption(k))
  }

  /** The theme table; every theme has exactly fifteen answers. */
  function Theme(key: ThemeKey): (t: EmojiSet)
    ensures |t.emojis| == ThemeSize
  {
    EmojiSet(Question(key), seq(ThemeSize, k requires 0 <= k < ThemeSize => Entry(key, k)))
  }

  /** The animal glyphs differ, except that answers 0 and 12 are both the lion. */
  lemma AnimalsGlyphsDistinct()
    ensures forall i, j :: 0 <= i < j < ThemeSize && !(i == 0 && j == 12) ==> AnimalsGlyph(i) != AnimalsGlyph(j)
  {
    forall i, j | 0 <= i < j < ThemeSize && !(i == 0 && j == 12)
      ensures AnimalsGlyph(i) != AnimalsGlyph(j)
    {
      assert AnimalsGlyph(i)[0] != AnimalsGlyph(j)[0];
    }
  }

  /** The transport glyphs are pairwise different. */
  lemma TransportGlyphsDistinct()
    ensures forall i, j :: 0 <= i < j < ThemeSize ==> TransportGlyph(i) != TransportGlyph(j)
  {
    forall i, j | 0 <= i < j < ThemeSize
      ensures TransportGlyph(i) != TransportGlyph(j)
    {
      assert TransportGlyph(i)[0] != TransportGlyph(j)[0];
    }
  }

  /** The sport glyphs are pairwise different. */
  lemma SportsGlyphsDistinct()
    ensures forall i, j :: 0 <= i < j < ThemeSize ==> SportsGlyph(i) != SportsGlyph(j)
  {
    forall i, j | 0 <= i < j < ThemeSize
      ensures SportsGlyph(i) != SportsGlyph(j)
    {
      assert SportsGlyph(i)[0] != SportsGlyph(j)[0];
    }
  }

  /** The two lion answers have different captions. */
  lemma LionCaptionsDiffer()
    ensures AnimalsCaption(0) != AnimalsCaption(12)
  {
    assert AnimalsCaption(0)[7] != AnimalsCaption(12)[7];
  }

  /** No two animal answers are the same record: the two lions have different captions. */
  lemma AnimalsDistinct()
    ensures Distinct(Theme(Animals).emojis)
  {
    AnimalsGlyphsDistinct();
    LionCaptionsDiffer();
    var s := Theme(Animals).emojis;
    forall i, j | 0 <= i < j < |s| ensures s[i] != s[j] {
      assert s[i].emoji == AnimalsGlyph(i) && s[j].emoji == AnimalsGlyph(j);
      assert s[i].name == AnimalsCaption(i) && s[j].name == AnimalsCaption(j);
    }
  }

  /** No two transport answers are the same record. */
  lemma TransportDistinct()
    ensures Distinct(Theme(Transport).emojis)
  {
    TransportGlyphsDistinct();
    var s := Theme(Transport).emojis;
    forall i, j | 0 <= i < j < |s| ensures s[i] != s[j] {
      assert s[i].emoji == TransportGlyph(i) && s[j].emoji == TransportGlyph(j);
    }
  }

  /** No two sport answers are the same record. */
  lemma SportsDistinct()
    ensures Distinct(Theme(Sports).emojis)
  {
    SportsGlyphsDistinct();
    var s := Theme(Sports).emojis;
    forall i, j | 0 <= i < j < |s| ensures s[i] != s[j] {
      assert s[i].emoji == SportsGlyph(i) && s[j].emoji == SportsGlyph(j);
    }
  }

  /** No two answers of a theme are the same record. */
  lemma ThemeDistinct(key: ThemeKey)
    ensures Distinct(Theme(key).emojis)
  {
    match key
    case Animals => AnimalsDistinct();
    case Transport => TransportDistinct();
    case Sports => SportsDistinct();
  }

  /** Distinct glyphs are not guaranteed: two animal answers share the lion glyph. */
  lemma AnimalsShareAGlyph()
    ensures exists i, j :: 0 <= i < j < ThemeSize
              && Entry(Animals, i).emoji == Entry(Animals, j).emoji
              && Entry(Animals, i) != Entry(Animals, j)
  {
    LionCaptionsDiffer();
    assert Entry(Animals, 0).emoji == Entry(Animals, 12).emoji;
  }

  /** `s` rearranged by the index permutation `perm`: position k holds `s[perm[k]]`. */
  function Shuffled(s: seq<Emoji>, perm: seq<nat>): seq<Emoji>
    requires forall k :: 0 <= k < |perm| ==> perm[k] < |s|
  {
    seq(|perm|, k requires 0 <= k < |perm| => s[perm[k]])
  }

  /** Rearranging a sequence without repetitions by a permutation gives a permutation of it. */
  lemma ShuffledIsPermutation(s: seq<Emoji>, perm: seq<nat>)
    requires Distinct(s) && IsPermutation(perm, |s|)
    ensures Distinct(Shuffled(s, perm))
    ensures multiset(Shuffled(s, perm)) == multiset(s)
  {
    var r := Shuffled(s, perm);
    assert Distinct(r) by {
      forall i, j | 0 <= i < j < |r| ensures r[i] != r[j] {
        assert perm[i] != perm[j];
      }
    }
    forall x ensures x in r <==> x in s {
      if x in s {
        var k :| 0 <= k < |s| && s[k] == x;
        PermutationIsOnto(perm, |s|, k);
        var p :| 0 <= p < |perm| && perm[p] == k;
        assert r[p] == x;
      }
    }
    SameElementsSameMultiset(r, s);
  }

  /** The answers shown for a theme: its first six entries after shuffling by `perm`. */
  function FirstShown(theme: seq<Emoji>, perm: seq<nat>): seq<Emoji>
    requires |theme| >= ShownCount && IsPermutation(perm, |theme|)
  {
    Shuffled(theme, perm)[..ShownCount]
  }

  /**
   * The six answers shown come from six different positions of the theme:
   * no record twice, and none the theme does not hold.
   */
  lemma FirstShownFromTheme(theme: seq<Emoji>, perm: seq<nat>)
    requires Distinct(theme) && |theme| >= ShownCount && IsPermutation(perm, |theme|)
    ensures |FirstShown(theme, perm)| == ShownCount
    ensures Distinct(FirstShown(theme, perm))
    ensures multiset(FirstShown(theme, perm)) <= multiset(theme)
  {
    var shuffled := Shuffled(theme, perm);
    ShuffledIsPermutation(theme, perm);
    var shown := FirstShown(theme, perm);
    assert Distinct(shown) by {
      forall i, j | 0 <= i < j < |shown| ensures shown[i] != shown[j] {
        assert shown[i] == shuffled[i] && shown[j] == shuffled[j];
      }
    }
    assert forall x :: x in shown ==> x in multiset(theme);
    DistinctSubMultiset(shown, theme);
  }

  /** A theme a prompt can be drawn from: fifteen answers, no two the same record. */
  predicate Drawable(theme: EmojiSet) {
    |theme.emojis| == ThemeSize && Distinct(theme.emojis)
  }

  /** The prompt drawn from `theme` with the shuffle `perm`: its question and the answers shown. */
  function PromptFrom(theme: EmojiSet, perm: seq<nat>): Prompt
    requires |theme.emojis| == ThemeSize && IsPermutation(perm, ThemeSize)
  {
    Prompt(theme.question, FirstShown(theme.emojis, perm))
  }

  /**
   * One draw's question and answers: the question of the theme `key` and
   * six of its answers, the first six of the shuffle `perm`.
   */
  function GetRandomEmojis(key: ThemeKey, perm: seq<nat>): (r: Prompt)
    requires IsPermutation(perm, ThemeSize)
    ensures r.question == Question(key)
    ensures |r.emojis| == ShownCount
    ensures r.emojis == Shuffled(Theme(key).emojis, perm)[..ShownCount]
    ensures Distinct(r.emojis)
    ensures multiset(r.emojis) <= multiset(Theme(key).emojis)
  {
    ThemeDistinct(key);
    FirstShownFromTheme(Theme(key).emojis, perm);
    PromptFrom(Theme(key), perm)
  }

  /** The theme table as a map from each key to its theme. */
  function ThemeTable(): map<ThemeKey, EmojiSet>
  {
    map[Animals := Theme(Animals), Transport := Theme(Transport), Sports := Theme(Sports)]
  }

  /** Every key is in the table and maps to its theme. */
  lemma ThemeTableHoldsThemes()
    ensures forall key :: key in ThemeTable() && ThemeTable()[key] == Theme(key)
  {
    forall key ensures key in ThemeTable() && ThemeTable()[key] == Theme(key) {
      if key == Animals {
      } else if key == Transport {
      } else {
        assert key == Sports;
      }
    }
  }

  /** A session holding the theme table draws its prompts as GetRandomEmojis does. */
  lemma TablePrompt(themes: map<ThemeKey, EmojiSet>, key: ThemeKey, perm: seq<nat>)
    requires forall k :: k in themes && themes[k] == Theme(k)
    requires IsPermutation(perm, ThemeSize)
    ensures themes[key] == Theme(key)
    ensures PromptFrom(themes[key], perm) == GetRandomEmojis(key, perm)
  {
  }

  /** One emoji-game screen: the frozen active pool and the draw history. */
  class EmojiSession {
    var teamMembers: seq<Member>
    var pickedMembers: seq<Member>
    var currentPick: Option<Member>
    var currentEmojis: Option<Prompt>
    var error: string
    /** The theme table prompts are drawn from; it never changes. */
    const themes: map<ThemeKey, EmojiSet>

    ghost predicate Valid()
      reads this
    {
      && SessionInvariant(teamMembers, Ids(pickedMembers))
      && forall key :: key in themes && Drawable(themes[key])
    }

    /** The themes are the fixed table. */
    predicate UsesThemeTable() {
      forall key :: key in themes && themes[key] == Theme(key)
    }

    /** The candidates of the next draw. */
    function Candidates(): seq<Member>
      reads this
    {
      Available(teamMembers, Ids(pickedMembers))
    }

    /**
     * A screen after its one roster fetch: `fetched` is the list the team
     * endpoint returned, or None if the request failed. The pool keeps only
     * the active members.
     */
    constructor (fetched: Option<seq<Member>>)
      ensures Valid()
      ensures teamMembers == (if fetched.Some? then ActiveOnly(fetched.value) else [])
      ensures pickedMembers == [] && currentPick == None && currentEmojis == None
      ensures error == (if fetched.Some? then "" else LoadFailedMessage)
      ensures UsesThemeTable()
    {
      teamMembers := if fetched.Some? then ActiveOnly(fetched.value) else [];
      pickedMembers := [];
      currentPick := None;
      currentEmojis := None;
      error := if fetched.Some? then "" else LoadFailedMessage;
      var table := ThemeTable();
      ThemeTableHoldsThemes();
      forall key ensures Drawable(table[key]) {
        ThemeDistinct(key);
      }
      themes := table;
    }

    /**
     * Draw a member: `i` is the random index into the candidates, `key` the
     * random theme and `perm` the shuffle of its answers. With no candidates
     * left the history is kept, the pick and the prompt are cleared and the
     * "all picked" message is shown.
     */
    method Pick(i: nat, key: ThemeKey, perm: seq<nat>)
      requires Valid()
      requires Candidates() != [] ==> i < |Candidates()| && IsPermutation(perm, ThemeSize)
      modifies this
      ensures Valid()
      ensures teamMembers == old(teamMembers)
      ensures old(Candidates()) == [] ==>
                && pickedMembers == old(pickedMembers)
                && currentPick == None && currentEmojis == None
                && error == AllPickedMessage
                && Candidates() == []
      ensures old(Candidates()) != [] ==>
                && pickedMembers == old(pickedMembers) + [old(Candidates())[i]]
                && currentPick == Some(old(Candidates())[i])
                && currentEmojis == Some(PromptFrom(themes[key], perm))
                && error == ""
      ensures currentPick.Some? ==>
                && currentPick.value in teamMembers
                && currentPick.value.id !in Ids(old(pickedMembers))
      ensures DistinctIds(teamMembers) ==>
                (currentPick.Some? <==> |old(pickedMembers)| < |teamMembers|)
    {
      var available := Available(teamMembers, Ids(pickedMembers));
      if DistinctIds(teamMembers) {
        ExhaustedIff(teamMembers, Ids(pickedMembers));
      }
      if available == [] {
        error := AllPickedMessage;
        currentPick := None;
        currentEmojis := None;
        return;
      }
      var picked := available[i];
      DrawKeepsInvariant(teamMembers, Ids(pickedMembers), i);
      assert Ids(pickedMembers + [picked]) == Ids(pickedMembers) + [picked.id];
      currentPick := Some(picked);
      pickedMembers := pickedMembers + [picked];
      currentEmojis := Some(PromptFrom(themes[key], perm));
      error := "";
    }

    /** Start over: forget every draw and prompt, keep the pool. */
    method Reset()
      requires Valid()
      modifies this
      ensures Valid()
      ensures teamMembers == old(teamMembers)
      ensures pickedMembers == [] && currentPick == None && currentEmojis == None && error == ""
      ensures Candidates() == teamMembers
    {
      pickedMembers := [];
      currentPick := None;
      currentEmojis := None;
      error := "";
      NothingTakenAllAvailable(teamMembers);
    }

    /**
     * While nothing has been drawn, an enabled draw button always finds a
     * candidate, and an empty pool always disables it.
     */
    lemma FreshDrawEnabled(loading: bool)
      requires Valid() && pickedMembers == []
      ensures !PickDisabled(loading, teamMembers) ==> Candidates() != []
      ensures teamMembers == [] ==> PickDisabled(loading, teamMembers)
    {
      EnabledFreshDrawSucceeds(loading, teamMembers);
    }
  }
}
