/**
 * The journal-entry form's state and handlers: the draft it edits, adding and
 * removing rows of workers, equipment and materials, the quantity inputs, and the
 * submit gate that hands the draft on only when it passes the schema.
 */
module WorkJournalForm {
  import opened Wrappers
  import opened Dates
  import opened JsNumber
  import opened JsArray
  import opened JournalSchema

  /** What a submit attempt does: hand the validated draft on, or show the errors. */
  datatype SubmitOutcome = Saved(entry: FormValues) | Rejected(errors: seq<FieldError>)

  /** Each group's remove button is rendered only while the group has more than one row. */
  predicate RemoveShown(rows: nat) {
    rows > 1
  }

  /** Removing an offered row leaves the group with one row fewer, and at least one. */
  lemma OfferedRemovalKeepsARow<T>(s: seq<T>, i: int)
    requires RemoveShown(|s|) && 0 <= i < |s|
    ensures |SpliceOne(s, i)| == |s| - 1 >= 1
  {
    SpliceOneAt(s, i);
  }

  /** The form: the draft's fields, which the handlers replace one at a time. */
  class JournalForm {
    var date: Option<CalendarDate>
    var activities: string
    var weatherConditions: string
    var notes: Option<string>
    var workers: seq<Worker>
    var equipment: seq<Equipment>
    var materials: seq<Material>

    /** The draft as the schema sees it. */
    function Values(): FormValues
      reads this
    {
      FormValues(date, activities, weatherConditions, notes, workers, equipment, materials)
    }

    /** Every group has a row: true of the opening draft, and kept by the add buttons and
        by the remove buttons, which are offered only while a group has two rows or more. */
    ghost predicate EveryGroupHasARow()
      reads this
    {
      |workers| >= 1 && |equipment| >= 1 && |materials| >= 1
    }

    /** The form opens on the default draft dated `today`. */
    constructor (today: CalendarDate)
      ensures Values() == DefaultValues(today)
      ensures EveryGroupHasARow()
    {
      var v := DefaultValues(today);
      date, activities, weatherConditions, notes := v.date, v.activities, v.weatherConditions, v.notes;
      workers, equipment, materials := v.workers, v.equipment, v.materials;
    }

    method AddWorker()
      modifies this
      ensures Values() == old(Values()).(workers := old(workers) + [DefaultWorker])
      ensures old(EveryGroupHasARow()) ==> EveryGroupHasARow()
    {
      workers := workers + [DefaultWorker];
    }

    /** Removes the worker at `index` with splice semantics: a copy of the list is
        spliced and written back. */
    method RemoveWorker(index: int)
      modifies this
      ensures Values() == old(Values()).(workers := SpliceOne(old(workers), index))
      ensures old(EveryGroupHasARow() && RemoveShown(|workers|)) && 0 <= index < old(|workers|)
              ==> EveryGroupHasARow()
    {
      var updated := SpliceOne(workers, index);
      if RemoveShown(|workers|) && 0 <= index < |workers| {
        OfferedRemovalKeepsARow(workers, index);
      }
      workers := updated;
    }

    method AddEquipment()
      modifies this
      ensures Values() == old(Values()).(equipment := old(equipment) + [DefaultEquipment])
      ensures old(EveryGroupHasARow()) ==> EveryGroupHasARow()
    {
      equipment := equipment + [DefaultEquipment];
    }

    method RemoveEquipment(index: int)
      modifies this
      ensures Values() == old(Values()).(equipment := SpliceOne(old(equipment), index))
      ensures old(EveryGroupHasARow() && RemoveShown(|equipment|)) && 0 <= index < old(|equipment|)
              ==> EveryGroupHasARow()
    {
      var updated := SpliceOne(equipment, index);
      if RemoveShown(|equipment|) && 0 <= index < |equipment| {
        OfferedRemovalKeepsARow(equipment, index);
      }
      equipment := updated;
    }

    method AddMaterial()
      modifies this
      ensures Values() == old(Values()).(materials := old(materials) + [DefaultMaterial])
      ensures old(EveryGroupHasARow()) ==> EveryGroupHasARow()
    {
      materials := materials + [DefaultMaterial];
    }

    method RemoveMaterial(index: int)
      modifies this
      ensures Values() == old(Values()).(materials := SpliceOne(old(materials), index))
      ensures old(EveryGroupHasARow() && RemoveShown(|materials|)) && 0 <= index < old(|materials|)
              ==> EveryGroupHasARow()
    {
      var updated := SpliceOne(materials, index);
      if RemoveShown(|materials|) && 0 <= index < |materials| {
        OfferedRemovalKeepsARow(materials, index);
      }
      materials := updated;
    }

    /** The quantity input of equipment row `index`: the typed text goes through parseInt,
        so text with no leading digits stores NaN. */
    method SetEquipmentQuantity(index: nat, input: string)
      requires index < |equipment|
      modifies this
      ensures Values() == old(Values()).(equipment :=
        old(equipment)[index := old(equipment)[index].(quantity := ParseInt(input))])
      ensures old(EveryGroupHasARow()) ==> EveryGroupHasARow()
    {
      equipment := equipment[index := equipment[index].(quantity := ParseInt(input))];
    }

    /** The quantity input of material row `index`, parsed the same way. */
    method SetMaterialQuantity(index: nat, input: string)
      requires index < |materials|
      modifies this
      ensures Values() == old(Values()).(materials :=
        old(materials)[index := old(materials)[index].(quantity := ParseInt(input))])
      ensures old(EveryGroupHasARow()) ==> EveryGroupHasARow()
    {
      materials := materials[index := materials[index].(quantity := ParseInt(input))];
    }

    /** Submitting: the draft is handed on only when it passes the whole schema;
        otherwise every failing field's message is shown and nothing is handed on. */
    method Submit() returns (outcome: SubmitOutcome)
      ensures outcome.Saved? <==> IsValid(Values())
      ensures outcome.Saved? ==> outcome.entry == Values()
      ensures outcome.Rejected? ==> outcome.errors == Validate(Values()) && outcome.errors != []
    {
      var v := Values();
      var errors := Validate(v);
      ValidateEmptyIffValid(v);
      if errors == [] {
        outcome := Saved(v);
      } else {
        outcome := Rejected(errors);
      }
    }
  }

  /** Through the buttons a group never loses its last row, so the "at least one worker"
      message is never shown for a draft the form opened. */
  lemma NoWorkersMessageWithARow(v: FormValues)
    requires |v.workers| >= 1
    ensures FieldError(WorkersPath, NoWorkers) !in Validate(v)
  {
    ValidateExact(v, FieldError(WorkersPath, NoWorkers));
  }

  /** Pressing "Aggiungi" for workers and then removing the new last row gives back
      exactly the draft there was before. */
  method AddWorkerThenRemoveLast(form: JournalForm)
    modifies form
    ensures form.Values() == old(form.Values())
  {
    var before := form.workers;
    form.AddWorker();
    form.RemoveWorker(|form.workers| - 1);
    AppendThenSpliceLast(before, DefaultWorker);
  }
}
