/** The character record edited by the form, its default value, and the
    single-field update performed by the form's change handler. */
module CharacterRecord {
  import opened Catalogs

  /** What a numeric field (level, age, height) can hold. Its default is a
      number; every edit stores the control's raw text unconverted. */
  datatype FieldValue = Number(n: int) | Text(s: string)

  /** The thirteen fields of a character record. Text fields hold strings;
      the three numeric fields hold a FieldValue. */
  datatype CharacterFormData = CharacterFormData(
    name: string,
    alignment: string,
    playerName: string,
    charLevel: FieldValue,
    deity: string,
    homeland: string,
    campaign: string,
    race: string,
    gender: string,
    age: FieldValue,
    height: FieldValue,
    hair: string,
    eyes: string)

  /** The field names; each editable control carries one of them. */
  datatype FieldName =
    | Name | Alignment | PlayerName | CharLevel | Deity | Homeland | Campaign
    | Race | Gender | Age | Height | Hair | Eyes

  /** The `name` attribute of the control bound to field `f`. */
  function FieldKey(f: FieldName): string
  {
    match f
    case Name => "name"
    case Alignment => "alignment"
    case PlayerName => "playerName"
    case CharLevel => "charLevel"
    case Deity => "deity"
    case Homeland => "homeland"
    case Campaign => "campaign"
    case Race => "race"
    case Gender => "gender"
    case Age => "age"
    case Height => "height"
    case Hair => "hair"
    case Eyes => "eyes"
  }

  /** The fields edited through a number input. */
  predicate IsNumeric(f: FieldName)
  {
    f == CharLevel || f == Age || f == Height
  }

  /** The value of field `f` of `rec`, text fields seen as Text. */
  function Get(rec: CharacterFormData, f: FieldName): FieldValue
  {
    match f
    case Name => Text(rec.name)
    case Alignment => Text(rec.alignment)
    case PlayerName => Text(rec.playerName)
    case CharLevel => rec.charLevel
    case Deity => Text(rec.deity)
    case Homeland => Text(rec.homeland)
    case Campaign => Text(rec.campaign)
    case Race => Text(rec.race)
    case Gender => Text(rec.gender)
    case Age => rec.age
    case Height => rec.height
    case Hair => Text(rec.hair)
    case Eyes => Text(rec.eyes)
  }

  /** The record a fresh form starts from. */
  function Initial(): (r: CharacterFormData)
    ensures Get(r, CharLevel) == Number(1)
    ensures Get(r, Age) == Number(0) && Get(r, Height) == Number(0)
    ensures Get(r, Race) == Text("human")
    ensures forall f :: !IsNumeric(f) && f != Race ==> Get(r, f) == Text("")
  {
    CharacterFormData(
      name := "", alignment := "", playerName := "", charLevel := Number(1),
      deity := "", homeland := "", campaign := "", race := "human",
      gender := "", age := Number(0), height := Number(0), hair := "", eyes := "")
  }

  /** The record after a change event on field `f` whose control produced
      `raw`: field `f` holds `raw` exactly as given, numeric or not, and every
      other field is as in `rec`. */
  function Update(rec: CharacterFormData, f: FieldName, raw: string): (r: CharacterFormData)
    ensures Get(r, f) == Text(raw)
    ensures forall g :: g != f ==> Get(r, g) == Get(rec, g)
  {
    match f
    case Name => rec.(name := raw)
    case Alignment => rec.(alignment := raw)
    case PlayerName => rec.(playerName := raw)
    case CharLevel => rec.(charLevel := Text(raw))
    case Deity => rec.(deity := raw)
    case Homeland => rec.(homeland := raw)
    case Campaign => rec.(campaign := raw)
    case Race => rec.(race := raw)
    case Gender => rec.(gender := raw)
    case Age => rec.(age := Text(raw))
    case Height => rec.(height := Text(raw))
    case Hair => rec.(hair := raw)
    case Eyes => rec.(eyes := raw)
  }

  /** Two records that agree on every field are the same record. */
  lemma {:induction false} Extensionality(a: CharacterFormData, b: CharacterFormData)
    requires forall f :: Get(a, f) == Get(b, f)
    ensures a == b
  {
    assert Get(a, Name) == Get(b, Name);
    assert Get(a, Alignment) == Get(b, Alignment);
    assert Get(a, PlayerName) == Get(b, PlayerName);
    assert Get(a, CharLevel) == Get(b, CharLevel);
    assert Get(a, Deity) == Get(b, Deity);
    assert Get(a, Homeland) == Get(b, Homeland);
    assert Get(a, Campaign) == Get(b, Campaign);
    assert Get(a, Race) == Get(b, Race);
    assert Get(a, Gender) == Get(b, Gender);
    assert Get(a, Age) == Get(b, Age);
    assert Get(a, Height) == Get(b, Height);
    assert Get(a, Hair) == Get(b, Hair);
    assert Get(a, Eyes) == Get(b, Eyes);
  }

  /** Updates of two different fields commute. */
  lemma UpdatesCommute(rec: CharacterFormData, f: FieldName, x: string, g: FieldName, y: string)
    requires f != g
    ensures Update(Update(rec, f, x), g, y) == Update(Update(rec, g, y), f, x)
  {
    Extensionality(Update(Update(rec, f, x), g, y), Update(Update(rec, g, y), f, x));
  }

  /** Of two successive updates of the same field only the last one is seen. */
  lemma LastWriteWins(rec: CharacterFormData, f: FieldName, x: string, y: string)
    ensures Update(Update(rec, f, x), f, y) == Update(rec, f, y)
  {
    Extensionality(Update(Update(rec, f, x), f, y), Update(rec, f, y));
  }

  /** An update that writes the value a field already holds leaves the record as it was. */
  lemma UpdateWithCurrentValue(rec: CharacterFormData, f: FieldName, raw: string)
    requires Get(rec, f) == Text(raw)
    ensures Update(rec, f, raw) == rec
  {
    Extensionality(Update(rec, f, raw), rec);
  }

  /** Only a race update can change the derived size. */
  lemma SizeFollowsOnlyRace(rec: CharacterFormData, f: FieldName, raw: string)
    requires f != Race
    ensures DerivedSize(Update(rec, f, raw).race) == DerivedSize(rec.race)
  {
    assert Get(Update(rec, f, raw), Race) == Get(rec, Race);
  }

  /** Each control names a different field, and none is named "size": the
      read-only size control never writes into the record. */
  lemma FieldKeysIdentifyFields()
    ensures forall f, g :: FieldKey(f) == FieldKey(g) ==> f == g
    ensures forall f :: FieldKey(f) != "size"
  {
  }

  /** The default race is one of the race options; the default alignment is
      not one of the alignment options. */
  lemma DefaultsAgainstCatalogs()
    ensures Initial().race in RaceValues()
    ensures Initial().alignment !in AlignmentValues()
  {
    assert RaceValues()[0] == "human";
  }

  /** One change event: the name of the control and the value it produced. */
  datatype ChangeEvent = ChangeEvent(field: FieldName, value: string)

  /** The record after handling `events` in order, starting from `rec`. */
  function ApplyEvents(rec: CharacterFormData, events: seq<ChangeEvent>): CharacterFormData
    decreases |events|
  {
    if events == [] then rec
    else
      var last := events[|events| - 1];
      Update(ApplyEvents(rec, events[..|events| - 1]), last.field, last.value)
  }

  /** `events[i]` is the last event that writes field `f`. */
  predicate IsLastWrite(events: seq<ChangeEvent>, i: int, f: FieldName)
  {
    0 <= i < |events| && events[i].field == f &&
    forall j :: i < j < |events| ==> events[j].field != f
  }

  /** After a series of events, a field no event touched keeps its value. */
  lemma {:induction false} ApplyEventsUntouched(rec: CharacterFormData, events: seq<ChangeEvent>, f: FieldName)
    requires forall i :: 0 <= i < |events| ==> events[i].field != f
    ensures Get(ApplyEvents(rec, events), f) == Get(rec, f)
    decreases |events|
  {
    if events != [] {
      ApplyEventsUntouched(rec, events[..|events| - 1], f);
    }
  }

  /** After a series of events, a touched field holds the value of the last
      event that wrote it. */
  lemma {:induction false} ApplyEventsLastWrite(rec: CharacterFormData, events: seq<ChangeEvent>, i: int, f: FieldName)
    requires IsLastWrite(events, i, f)
    ensures Get(ApplyEvents(rec, events), f) == Text(events[i].value)
    decreases |events|
  {
    if i < |events| - 1 {
      var prefix := events[..|events| - 1];
      assert IsLastWrite(prefix, i, f);
      ApplyEventsLastWrite(rec, prefix, i, f);
    }
  }

  /** No two events of `events` write the same field. */
  predicate FieldsDistinct(events: seq<ChangeEvent>)
  {
    forall i, j :: 0 <= i < j < |events| ==> events[i].field != events[j].field
  }

  /** Events on pairwise different fields give the same record in any order. */
  lemma ReorderDistinctEvents(rec: CharacterFormData, xs: seq<ChangeEvent>, ys: seq<ChangeEvent>)
    requires FieldsDistinct(xs) && FieldsDistinct(ys)
    requires multiset(xs) == multiset(ys)
    ensures ApplyEvents(rec, xs) == ApplyEvents(rec, ys)
  {
    forall f
      ensures Get(ApplyEvents(rec, xs), f) == Get(ApplyEvents(rec, ys), f)
    {
      if i :| 0 <= i < |xs| && xs[i].field == f {
        assert xs[i] in multiset(ys);
        var k :| 0 <= k < |ys| && ys[k] == xs[i];
        ApplyEventsLastWrite(rec, xs, i, f);
        ApplyEventsLastWrite(rec, ys, k, f);
      } else {
        forall k | 0 <= k < |ys|
          ensures ys[k].field != f
        {
          assert ys[k] in multiset(xs);
        }
        ApplyEventsUntouched(rec, xs, f);
        ApplyEventsUntouched(rec, ys, f);
      }
    }
    Extensionality(ApplyEvents(rec, xs), ApplyEvents(rec, ys));
  }
}
