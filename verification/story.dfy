/** The generated adoption story (src/lib/utils/story.ts): `list` renders a
    human list and `buildPetStory` assembles the paragraphs. */
module Story {
  import opened Wrappers
  import opened Strings
  import opened Seqs

  /** `list`: "", the single item, or "a, b and c". The source reverses the
      array to take the last item off and reverses the rest back. */
  function List(items: seq<string>): (r: string)
    ensures items == [] ==> r == []
    ensures |items| == 1 ==> r == items[0]
  {
    if |items| == 0 then ""
    else if |items| == 1 then items[0]
    else
      var rev := Reverse(items);
      var last := rev[0];
      var rest := Reverse(rev[1..]);
      Join(rest, ", ") + " and " + last
  }

  /** For two or more items: all but the last joined by ", ", then " and ", then the last. */
  lemma ListShape(items: seq<string>)
    requires |items| >= 2
    ensures List(items) == Join(items[..|items| - 1], ", ") + " and " + items[|items| - 1]
  {
    var rev := Reverse(items);
    assert Reverse(rev[1..]) == items[..|items| - 1];
  }

  /** The fields of `StoryInput`; absent and null optional fields are None. */
  datatype StoryInput = StoryInput(
    name: string,
    species: string,
    breed: Option<string>,
    age: Option<string>,
    energyLevel: Option<string>,
    personalityTraits: seq<string>,
    goodWith: seq<string>,
    training: Option<string>,
    medicalNeeds: Option<string>,
    idealHome: Option<string>)

  /** JavaScript truthiness of an optional string. */
  predicate Given(v: Option<string>) { v.Some? && v.value != [] }

  /** The paragraphs in the order the source pushes them. */
  datatype Paragraphs = Paragraphs(
    intro: string,
    traits: Option<string>,
    social: Option<string>,
    care: Option<string>,
    closing: string)

  function Lines(p: Paragraphs): (r: seq<string>)
    ensures r != [] && r[0] == p.intro && r[|r| - 1] == p.closing
  {
    [p.intro] + OptLine(p.traits) + OptLine(p.social) + OptLine(p.care) + [p.closing]
  }

  function OptLine(v: Option<string>): seq<string> {
    if v.Some? then [v.value] else []
  }

  const LookingFor: string := " looking for a calm, loving home. "
  const Brighter: string := ", making every day feel a little brighter."
  const Thrive: string := " will thrive with someone who offers steady routines, gentle guidance, and plenty of affection."

  /** `age ? age.trim() : null` (a null is dropped by the later filter, as is ""). */
  function TrimGiven(v: Option<string>): string {
    if Given(v) then Trim(v.value) else ""
  }

  /** The intro words: age, breed and lower-cased species, blanks dropped; the
      raw species when none is left. */
  function Intro(species: string, breed: Option<string>, age: Option<string>): string {
    var bits := NonEmpty([TrimGiven(age), TrimGiven(breed), Lower(species)]);
    if |bits| > 0 then Join(bits, " ") else species
  }

  function EnergySentence(name: string, energy: Option<string>): string {
    if Given(energy) then name + " is " + Lower(energy.value) + "." else ""
  }

  /** The first paragraph, trimmed as a whole. */
  function IntroLine(name: string, species: string, breed: Option<string>, age: Option<string>, energy: Option<string>): string {
    Trim(name + " is a " + Intro(species, breed, age) + LookingFor + EnergySentence(name, energy))
  }

  /** The personality paragraph, from the non-empty traits. */
  function TraitsLine(name: string, traits: seq<string>): (r: Option<string>)
    ensures r.Some? <==> traits != []
    ensures r.Some? ==> r.value != []
  {
    if |traits| > 0 then Some(name + " is " + List(LowerAll(traits)) + Brighter) else None
  }

  /** The social paragraph, from the non-empty "good with" entries and the training note. */
  function SocialLine(name: string, good: seq<string>, training: Option<string>): (r: Option<string>)
    ensures r.Some? <==> good != [] || Given(training)
    ensures r.Some? ==> r.value != []
  {
    if |good| > 0 || Given(training) then
      var bits :=
        (if |good| > 0 then ["does well with " + List(LowerAll(good))] else [])
        + (if Given(training) then [Lower(training.value)] else []);
      Some(name + " " + Join(bits, " and ") + ".")
    else None
  }

  /** The care-notes paragraph, present exactly when there are medical needs. */
  function CareLine(name: string, medical: Option<string>): (r: Option<string>)
    ensures r.Some? <==> Given(medical)
    ensures r.Some? ==> r.value != []
  {
    if Given(medical) then Some(name + " has the following care notes: " + Trim(medical.value) + ".") else None
  }

  /** The closing paragraph: the ideal home when one is given, else the fixed "thrive" sentence. */
  function Closing(name: string, ideal: Option<string>): (r: string)
    ensures r != []
    ensures Given(ideal) ==> IsPrefix("Ideal home: ", r) && r[|r| - 1] == '.' && r[12..|r| - 1] == Trim(ideal.value)
    ensures !Given(ideal) ==> IsPrefix(name, r) && |r| == |name| + |Thrive| && r[|name|..] == Thrive
  {
    if Given(ideal) then "Ideal home: " + Trim(ideal.value) + "." else name + Thrive
  }

  /** The paragraphs `buildPetStory` produces, before they are joined. */
  function BuildParagraphs(input: StoryInput): (p: Paragraphs)
    ensures p.traits.Some? <==> NonEmpty(input.personalityTraits) != []
    ensures p.social.Some? <==> NonEmpty(input.goodWith) != [] || Given(input.training)
    ensures p.care.Some? <==> Given(input.medicalNeeds)
  {
    Paragraphs(
      IntroLine(input.name, input.species, input.breed, input.age, input.energyLevel),
      TraitsLine(input.name, NonEmpty(input.personalityTraits)),
      SocialLine(input.name, NonEmpty(input.goodWith), input.training),
      CareLine(input.name, input.medicalNeeds),
      Closing(input.name, input.idealHome))
  }

  /** `buildPetStory`: the non-empty paragraphs joined by blank lines. */
  function BuildPetStory(input: StoryInput): string {
    Join(NonEmpty(Lines(BuildParagraphs(input))), "\n\n")
  }

  lemma IntroLineNonEmpty(name: string, species: string, breed: Option<string>, age: Option<string>, energy: Option<string>)
    ensures IntroLine(name, species, breed, age, energy) != []
  {
    var whole := name + " is a " + Intro(species, breed, age) + LookingFor + EnergySentence(name, energy);
    assert whole[|name| + 1] == 'i';
    TrimNonEmpty(whole, |name| + 1);
  }

  predicate AllNonEmpty(ls: seq<string>) { forall k :: 0 <= k < |ls| ==> ls[k] != [] }

  predicate OptNonEmpty(v: Option<string>) { v.Some? ==> v.value != [] }

  lemma LinesNonEmpty(p: Paragraphs)
    requires p.intro != [] && p.closing != []
    requires OptNonEmpty(p.traits) && OptNonEmpty(p.social) && OptNonEmpty(p.care)
    ensures AllNonEmpty(Lines(p))
  {
  }

  /** Every paragraph is non-empty, so the final filter drops none of them and
      the story is exactly the paragraphs joined by blank lines. */
  lemma StoryParagraphs(input: StoryInput)
    ensures BuildPetStory(input) == Join(Lines(BuildParagraphs(input)), "\n\n")
  {
    var p := BuildParagraphs(input);
    IntroLineNonEmpty(input.name, input.species, input.breed, input.age, input.energyLevel);
    LinesNonEmpty(p);
    NonEmptyOfNonEmpty(Lines(p));
  }

  /** When the name does not start with whitespace, the story begins with
      the name followed by " is a ". */
  lemma StoryStartsWithName(input: StoryInput)
    requires input.name != [] && !IsSpace(input.name[0])
    ensures IsPrefix(input.name + " is a ", BuildPetStory(input))
  {
    IntroLineStart(input.name, input.species, input.breed, input.age, input.energyLevel);
    var ls := Lines(BuildParagraphs(input));
    assert BuildPetStory(input) == Join(ls, "\n\n") by { StoryParagraphs(input); }
    JoinStartsWithFirst(ls, "\n\n");
  }

  /** The first paragraph keeps the name and " is a " at its start. */
  lemma IntroLineStart(name: string, species: string, breed: Option<string>, age: Option<string>, energy: Option<string>)
    requires name != [] && !IsSpace(name[0])
    ensures IsPrefix(name + " is a ", IntroLine(name, species, breed, age, energy))
  {
    var pre := name + " is a ";
    var intro := Intro(species, breed, age);
    var q := intro + LookingFor + EnergySentence(name, energy);
    var whole := name + " is a " + intro + LookingFor + EnergySentence(name, energy);
    assert whole == pre + q;
    assert TrimStart(whole) == whole by {
      assert whole[0] == name[0];
    }
    assert TrimEnd(pre + q) == pre + TrimEnd(q) by {
      assert q[|intro| + 1] == 'l';
      TrimEndKeepsPrefix(pre, q);
    }
    assert IntroLine(name, species, breed, age, energy) == pre + TrimEnd(q);
    assert (pre + TrimEnd(q))[..|pre|] == pre;
  }

  lemma JoinStartsWithFirst(ls: seq<string>, sep: string)
    requires ls != []
    ensures IsPrefix(ls[0], Join(ls, sep))
  {
    if |ls| > 1 {
      JoinCons(ls[0], ls[1..], sep);
      assert ls == [ls[0]] + ls[1..];
    }
  }

  /** Empty personality traits never affect the story. */
  lemma TraitsIgnoreEmpty(input: StoryInput, a: seq<string>, b: seq<string>)
    ensures BuildPetStory(input.(personalityTraits := a + [""] + b))
         == BuildPetStory(input.(personalityTraits := a + b))
  {
    assert NonEmpty(a + [""] + b) == NonEmpty(a + b) by { DropEmpty(a, b); }
    var i1 := input.(personalityTraits := a + [""] + b);
    var i2 := input.(personalityTraits := a + b);
    assert BuildParagraphs(i1) == BuildParagraphs(i2);
  }

  /** Empty "good with" entries never affect the story. */
  lemma GoodWithIgnoreEmpty(input: StoryInput, a: seq<string>, b: seq<string>)
    ensures BuildPetStory(input.(goodWith := a + [""] + b))
         == BuildPetStory(input.(goodWith := a + b))
  {
    assert NonEmpty(a + [""] + b) == NonEmpty(a + b) by { DropEmpty(a, b); }
    var i1 := input.(goodWith := a + [""] + b);
    var i2 := input.(goodWith := a + b);
    assert BuildParagraphs(i1) == BuildParagraphs(i2);
  }

  lemma DropEmpty(a: seq<string>, b: seq<string>)
    ensures NonEmpty(a + [""] + b) == NonEmpty(a + b)
  {
    NonEmptyConcat(a + [""], b);
    NonEmptyConcat(a, [""]);
    NonEmptyConcat(a, b);
    assert NonEmpty([""]) == [];
  }
}
