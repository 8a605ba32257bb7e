/** The character form as a state machine: one mutable state cell holding the
    current record, a change handler that replaces it, and a submit handler
    that hands it to the embedding caller's callback. */
module CharacterForm {
  import opened Catalogs
  import opened CharacterRecord

  class Form {
    /** The current record (the `formData` state cell). */
    var formData: CharacterFormData
    /** Every record handed to the `onSubmit` callback, oldest first. */
    ghost var submitted: seq<CharacterFormData>
    /** Every change event handled so far, oldest first. */
    ghost var events: seq<ChangeEvent>

    /** The current record is the default record with the handled events applied. */
    ghost predicate Valid()
      reads this
    {
      formData == ApplyEvents(Initial(), events)
    }

    /** A freshly mounted form holds the defaults and has submitted nothing. */
    constructor ()
      ensures Valid()
      ensures formData == Initial() && events == [] && submitted == []
    {
      formData := Initial();
      events := [];
      submitted := [];
    }

    /** Handles a change on the control named `FieldKey(field)` whose value is now `value`. */
    method HandleInputChange(field: FieldName, value: string)
      requires Valid()
      modifies this
      ensures Valid()
      ensures formData == Update(old(formData), field, value)
      ensures events == old(events) + [ChangeEvent(field, value)]
      ensures submitted == old(submitted)
    {
      formData := Update(formData, field, value);
      events := events + [ChangeEvent(field, value)];
      assert events[..|events| - 1] == old(events);
    }

    /** Handles a submission: `sent` is the record passed to the callback, once. */
    method HandleSubmit() returns (sent: CharacterFormData)
      modifies this`submitted
      ensures sent == formData
      ensures submitted == old(submitted) + [sent]
    {
      sent := formData;
      submitted := submitted + [sent];
    }

    /** The text shown in the read-only size field. */
    function Size(): string
      reads this
    {
      DerivedSize(formData.race)
    }
  }

  /** In a valid form every field holds its default unless some handled event
      wrote it, in which case it holds the value of the last such event. */
  lemma FieldsOfValidForm(form: Form, f: FieldName)
    requires form.Valid()
    ensures (forall i :: 0 <= i < |form.events| ==> form.events[i].field != f) ==>
              Get(form.formData, f) == Get(Initial(), f)
    ensures forall i :: IsLastWrite(form.events, i, f) ==>
              Get(form.formData, f) == Text(form.events[i].value)
  {
    if forall i :: 0 <= i < |form.events| ==> form.events[i].field != f {
      ApplyEventsUntouched(Initial(), form.events, f);
    }
    forall i | IsLastWrite(form.events, i, f)
      ensures Get(form.formData, f) == Text(form.events[i].value)
    {
      ApplyEventsLastWrite(Initial(), form.events, i, f);
    }
  }

  /** Choosing "halfling" shows "Small"; the record reaches the callback with
      the edited fields and every other default. */
  method HalflingScenario()
  {
    var form := new Form();
    assert form.Size() == "Medium";
    form.HandleInputChange(Race, "halfling");
    assert form.Size() == "Small";
    form.HandleInputChange(Name, "Elora");
    form.HandleInputChange(CharLevel, "5");
    var sent := form.HandleSubmit();
    assert sent == Initial().(race := "halfling", name := "Elora", charLevel := Text("5"));
    assert form.submitted == [sent];
  }

  /** Two mounted forms do not share state. */
  method IndependentForms()
  {
    var a := new Form();
    var b := new Form();
    a.HandleInputChange(Name, "Elora");
    assert b.formData == Initial();
    var sentA := a.HandleSubmit();
    assert b.submitted == [];
  }
}
