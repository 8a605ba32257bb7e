# Character creation form: basic information

A Dafny model of the logic inside the basic-information form of a Pathfinder
character creator (`src/BasicInfo/BasicInfo.tsx`). The form holds a
13-field character record in one state cell. Each editable control's change
handler replaces the record with a copy in which the control's own field
holds the control's raw value. The submit handler passes the current record
to a callback supplied by the embedding page. Two constant option catalogs fill
the alignment and race selectors. A read-only size field shows "Small" for a
halfling and "Medium" for any other race.

Files:

- `catalogs.dfy` (module `Catalogs`): the alignment and race catalogs and the
  size rule, with lemmas that tie the rule to the race catalog's size column
  and show that the catalog values are distinct.
- `record.dfy` (module `CharacterRecord`): the record `CharacterFormData`, the
  13 field names and the `name` attribute of each field's control, the default
  record, and the single-field `Update`. It also has the update laws:
  - nothing else changes;
  - updates of different fields commute;
  - the last write wins;
  - a series of change events (`ApplyEvents`) leaves each field at its last
    written value or its original value;
  - events on distinct fields give the same record in any order.
- `form.dfy` (module `CharacterForm`): class `Form`, whose `formData` field is
  the state cell. It has a ghost trace of handled change events and a ghost log
  of submitted records, which stands for the `onSubmit` callback.
  `HandleInputChange` and `HandleSubmit` are the two handlers. The file ends
  with two client methods: a halfling/submit walk-through and a check that
  two forms stay independent.

Modelling choices:

- Field values. Text fields are `string`. The numeric fields `charLevel`, `age`
  and `height` are `FieldValue = Number(int) | Text(string)`. Their defaults
  are numbers. The change handler stores the control's `value` without
  coercion, and a DOM control's value is a string, so any edit leaves
  `Text(raw)` in the field. The model keeps that string and does not convert
  it to a number.
- The change event names a field. Every control wired to the change handler
  carries a `name` attribute equal to one of the 13 record keys (`FieldKey`).
  So the handler takes a `FieldName`, and `FieldKeysIdentifyFields` shows that
  the keys pick exactly one field and that "size" is not among them.
- The size comparison is strict string equality. `race` only ever holds
  strings: the default "human", or a value from a change event.
- The record does not constrain `alignment` and `race` to their catalogs. The
  code stores whatever the select produces, and its default alignment "" is
  not an alignment option (`DefaultsAgainstCatalogs`). The model follows the
  code.

## Model

| member | source | states |
|---|---|---|
| Catalogs.DerivedSize | src/BasicInfo/BasicInfo.tsx:177 | the size is "Small" exactly when the race is "halfling" and "Medium" for every other string, including values that are not in the catalog |
| Catalogs.RaceSizesAgree | src/BasicInfo/BasicInfo.tsx:35-40 | for every race option, the size rule applied to its value gives the option's size column |
| Catalogs.SmallExactlyForCataloguedSmall | src/BasicInfo/BasicInfo.tsx:35-40 | a race is sized "Small" by the rule if and only if the race catalog lists it with size "Small" |
| Catalogs.AlignmentValuesDistinct | src/BasicInfo/BasicInfo.tsx:23-33 | the alignment catalog has 9 values and no two are equal, so they can serve as the option keys |
| Catalogs.RaceValuesDistinct | src/BasicInfo/BasicInfo.tsx:35-40 | the race catalog has 4 values and no two are equal, so they can serve as the option keys |
| CharacterRecord.Initial | src/BasicInfo/BasicInfo.tsx:46-60 | the default record has level 1, age 0 and height 0 as numbers, race "human", and every other field, alignment included, set to "" |
| CharacterRecord.Update | src/BasicInfo/BasicInfo.tsx:65-69 | the updated field holds the raw control value unconverted, even for a numeric field, and every other field keeps its previous value |
| CharacterRecord.Extensionality | src/BasicInfo/BasicInfo.tsx:7-21 | a record is determined by the values of its 13 fields |
| CharacterRecord.UpdatesCommute | src/BasicInfo/BasicInfo.tsx:66-69 | updates of two different fields give the same record in either order |
| CharacterRecord.LastWriteWins | src/BasicInfo/BasicInfo.tsx:66-69 | two successive updates of one field equal the second update alone |
| CharacterRecord.UpdateWithCurrentValue | src/BasicInfo/BasicInfo.tsx:66-69 | writing the value a field already holds leaves the record unchanged |
| CharacterRecord.SizeFollowsOnlyRace | src/BasicInfo/BasicInfo.tsx:172-179 | an update of any field other than race leaves the displayed size unchanged |
| CharacterRecord.FieldKeysIdentifyFields | src/BasicInfo/BasicInfo.tsx:96-224 | the controls' name attributes are pairwise different, so a change event selects one field, and none of them is "size", so the read-only size control never writes the record |
| CharacterRecord.DefaultsAgainstCatalogs | src/BasicInfo/BasicInfo.tsx:46-60 | the default race "human" is a race option value; the default alignment "" is not an alignment option value |
| CharacterRecord.ApplyEventsUntouched | src/BasicInfo/BasicInfo.tsx:62-70 | after any series of change events, a field that no event wrote keeps its original value |
| CharacterRecord.ApplyEventsLastWrite | src/BasicInfo/BasicInfo.tsx:62-70 | after any series of change events, a written field holds the value of the last event that wrote it |
| CharacterRecord.ReorderDistinctEvents | src/BasicInfo/BasicInfo.tsx:62-70 | change events on pairwise different fields give the same record in any order |
| CharacterForm.Form.constructor | src/BasicInfo/BasicInfo.tsx:46-60 | a new form holds the default record, has handled no events and has submitted nothing |
| CharacterForm.Form.HandleInputChange | src/BasicInfo/BasicInfo.tsx:62-70 | the state cell is replaced by the single-field update of its previous value, the event is appended to the trace, and the submission log is unchanged |
| CharacterForm.Form.HandleSubmit | src/BasicInfo/BasicInfo.tsx:72-75 | the current record, unchanged, is appended once to the submission log and returned as the value given to the callback; the state cell is not modified |
| CharacterForm.FieldsOfValidForm | src/BasicInfo/BasicInfo.tsx:46-70 | in a form, each field holds its default until some change event writes it, and then the value of the last event that wrote it |

## Left out

- Rendering: labels, `htmlFor` associations, input `type` attributes and the JSX markup (src/BasicInfo/BasicInfo.tsx:93-228). They are presentation only.
- React's `useState` scheduling and re-rendering. The state cell is a plain field that each handler replaces synchronously.
- `e.preventDefault()` in the submit handler. It is a browser side effect.
- `JSON.stringify` and `JSON.parse` round trip of the catalogs (src/BasicInfo/BasicInfo.tsx:42-43, 111, 165). These are library calls. The catalogs are constant sequences here.
- How a browser number input turns typed text into its `value` string. This is native control behaviour.
- What the `onSubmit` callback does with the record. Only its receipt of the record is modelled, as a ghost log.
- JavaScript numbers are floating point. The numeric defaults are the integers 1 and 0, and the handler never stores a number, so `int` covers every number the record can hold.
- A change event whose target name is not a record key. The computed key would then add an extra property. No control wired to the handler has such a name, so the model takes the field as a `FieldName`.
