/** The two constant option catalogs that populate the alignment and race
    selectors, and the rule that derives a character's size from its race. */
module Catalogs {

  /** One entry of the alignment selector: the text shown (`label` in
      BasicInfo.tsx) and the value stored. */
  datatype AlignmentOption = AlignmentOption(labelText: string, value: string)

  /** One entry of the race selector; `size` is the size category of the race. */
  datatype RaceOption = RaceOption(labelText: string, value: string, size: string)

  const AlignmentOptions: seq<AlignmentOption> := [
    AlignmentOption("Lawful Good", "lawful-good"),
    AlignmentOption("Neutral Good", "neutral-good"),
    AlignmentOption("Chaotic Good", "chaotic-good"),
    AlignmentOption("Lawful Neutral", "lawful-neutral"),
    AlignmentOption("Neutral", "neutral"),
    AlignmentOption("Chaotic Neutral", "chaotic-neutral"),
    AlignmentOption("Lawful Evil", "lawful-evil"),
    AlignmentOption("Neutral Evil", "neutral-evil"),
    AlignmentOption("Chaotic Evil", "chaotic-evil")
  ]

  const RaceOptions: seq<RaceOption> := [
    RaceOption("Human", "human", "Medium"),
    RaceOption("Elf", "elf", "Medium"),
    RaceOption("Dwarf", "dwarf", "Medium"),
    RaceOption("Halfling", "halfling", "Small")
  ]

  /** The values of the alignment options, in order: the `key` and `value` of
      each rendered `<option>`. */
  function AlignmentValues(): seq<string>
  {
    seq(|AlignmentOptions|, i requires 0 <= i < |AlignmentOptions| => AlignmentOptions[i].value)
  }

  /** The values of the race options, in order. */
  function RaceValues(): seq<string>
  {
    seq(|RaceOptions|, i requires 0 <= i < |RaceOptions| => RaceOptions[i].value)
  }

  /** No value occurs twice in `vs`. */
  predicate Distinct(vs: seq<string>)
  {
    forall i, j :: 0 <= i < j < |vs| ==> vs[i] != vs[j]
  }

  /** The size shown in the read-only size field for a given race value. The
      comparison is exact string equality, so any value other than "halfling",
      including one that is not in the race catalog, yields "Medium". */
  function DerivedSize(race: string): (size: string)
    ensures size == "Small" || size == "Medium"
    ensures size == "Small" <==> race == "halfling"
  {
    if race == "halfling" then "Small" else "Medium"
  }

  /** The size rule agrees with the size column of every race option. */
  lemma RaceSizesAgree()
    ensures forall i :: 0 <= i < |RaceOptions| ==> DerivedSize(RaceOptions[i].value) == RaceOptions[i].size
  {
  }

  /** A race value is Small-sized by the size rule exactly when the catalog
      lists it with size "Small". */
  lemma SmallExactlyForCataloguedSmall(race: string)
    ensures DerivedSize(race) == "Small" <==>
            exists i :: 0 <= i < |RaceOptions| && RaceOptions[i].value == race && RaceOptions[i].size == "Small"
  {
    if race == "halfling" {
      assert RaceOptions[3].value == race;
    }
  }

  /** The alignment values are nine distinct keys. */
  lemma AlignmentValuesDistinct()
    ensures |AlignmentValues()| == 9
    ensures Distinct(AlignmentValues())
  {
  }

  /** The race values are four distinct keys. */
  lemma RaceValuesDistinct()
    ensures |RaceValues()| == 4
    ensures Distinct(RaceValues())
  {
  }
}
