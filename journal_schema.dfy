/**
 * The journal entry draft of the work-journal form and its validation schema:
 * which fields fail, in which order the failures are reported, and with which
 * message each failing field is shown.
 */
module JournalSchema {
  import opened Wrappers
  import opened Dates
  import opened JsNumber

  datatype Worker = Worker(name: string, qualification: string)
  datatype Equipment = Equipment(name: string, quantity: Number)
  datatype Material = Material(name: string, quantity: Number, invoiceRef: Option<string>)

  /** One journal entry draft, as the form holds it. */
  datatype FormValues = FormValues(
    date: Option<CalendarDate>,
    activities: string,
    weatherConditions: string,
    notes: Option<string>,
    workers: seq<Worker>,
    equipment: seq<Equipment>,
    materials: seq<Material>)

  /** The field an error is attached to: a top-level field, a whole group, or one
      field of one row ("workers.0.name" and the like). */
  datatype FieldPath =
    | DatePath
    | ActivitiesPath
    | WeatherConditionsPath
    | WorkersPath
    | WorkerNamePath(row: nat)
    | WorkerQualificationPath(row: nat)
    | EquipmentNamePath(row: nat)
    | EquipmentQuantityPath(row: nat)
    | MaterialNamePath(row: nat)
    | MaterialQuantityPath(row: nat)

  datatype FieldError = FieldError(path: FieldPath, message: string)

  const DateRequired := "La data è obbligatoria"
  const ActivitiesTooShort := "Inserire una descrizione delle attività di almeno 5 caratteri"
  const WeatherMissing := "Inserire le condizioni meteo"
  const NoWorkers := "Inserire almeno un operaio"
  const WorkerNameRequired := "Nome richiesto"
  const QualificationRequired := "Qualifica richiesta"
  const EquipmentNameRequired := "Nome attrezzatura richiesto"
  const MaterialNameRequired := "Nome materiale richiesto"
  const InvalidQuantity := "Inserire una quantità valida"
  /** The schema library's own message for a number field holding NaN. */
  const NotANumber := "Expected number, received nan"

  // ---------------------------------------------------------------------------
  // The draft the form opens with.
  // ---------------------------------------------------------------------------

  const DefaultWorker := Worker("", "")
  const DefaultEquipment := Equipment("", Num(1))
  const DefaultMaterial := Material("", Num(1), Some(""))

  /** The opening draft: today's date, empty texts, one empty row in each group. */
  function DefaultValues(today: CalendarDate): (v: FormValues)
    ensures v.date == Some(today)
    ensures |v.workers| == 1 && |v.equipment| == 1 && |v.materials| == 1
    ensures v.equipment[0].quantity == Num(1) && v.materials[0].quantity == Num(1)
  {
    FormValues(Some(today), "", "", Some(""), [DefaultWorker], [DefaultEquipment], [DefaultMaterial])
  }

  // ---------------------------------------------------------------------------
  // The schema as a checker: every rule in field order, every failure reported.
  // ---------------------------------------------------------------------------

  /** The minimum-length rule of a string field. */
  function MinLength(s: string, min: nat, path: FieldPath, message: string): seq<FieldError> {
    if |s| < min then [FieldError(path, message)] else []
  }

  /** The rule of a quantity field: a number (not NaN) of at least 1. */
  function QuantityErrors(q: Number, path: FieldPath): seq<FieldError> {
    match q
    case NaN => [FieldError(path, NotANumber)]
    case Num(n) => if n < 1 then [FieldError(path, InvalidQuantity)] else []
  }

  function WorkerErrors(w: Worker, row: nat): seq<FieldError> {
    MinLength(w.name, 2, WorkerNamePath(row), WorkerNameRequired)
    + MinLength(w.qualification, 2, WorkerQualificationPath(row), QualificationRequired)
  }

  function EquipmentErrors(e: Equipment, row: nat): seq<FieldError> {
    MinLength(e.name, 2, EquipmentNamePath(row), EquipmentNameRequired)
    + QuantityErrors(e.quantity, EquipmentQuantityPath(row))
  }

  /** The invoice reference is optional and has no rule. */
  function MaterialErrors(m: Material, row: nat): seq<FieldError> {
    MinLength(m.name, 2, MaterialNamePath(row), MaterialNameRequired)
    + QuantityErrors(m.quantity, MaterialQuantityPath(row))
  }

  /** The errors of every row of a group, row by row in list order. */
  function RowErrors<T>(rows: seq<T>, check: (T, nat) -> seq<FieldError>): seq<FieldError> {
    if rows == [] then []
    else RowErrors(rows[..|rows| - 1], check) + check(rows[|rows| - 1], |rows| - 1)
  }

  /** The whole schema: date, activities, weather, the worker count, then the rows
      of workers, equipment and materials. Notes never fail. */
  function Validate(v: FormValues): (errs: seq<FieldError>)
    ensures errs == [] ==>
      v.date.Some? && |v.activities| >= 5 && |v.weatherConditions| >= 3 && |v.workers| >= 1
    ensures v.date.None? ==> errs[0] == FieldError(DatePath, DateRequired)
  {
    (if v.date.None? then [FieldError(DatePath, DateRequired)] else [])
    + MinLength(v.activities, 5, ActivitiesPath, ActivitiesTooShort)
    + MinLength(v.weatherConditions, 3, WeatherConditionsPath, WeatherMissing)
    + (if |v.workers| < 1 then [FieldError(WorkersPath, NoWorkers)] else [])
    + RowErrors(v.workers, WorkerErrors)
    + RowErrors(v.equipment, EquipmentErrors)
    + RowErrors(v.materials, MaterialErrors)
  }

  // ---------------------------------------------------------------------------
  // The schema as a table: for each field, the message it must carry, if any.
  // ---------------------------------------------------------------------------

  function QuantityMessage(q: Number): Option<string> {
    match q
    case NaN => Some(NotANumber)
    case Num(n) => if n < 1 then Some(InvalidQuantity) else None
  }

  /** The message the field at `p` must show, or None when it passes (or has no row). */
  function Expected(v: FormValues, p: FieldPath): Option<string> {
    match p
    case DatePath => if v.date == None then Some(DateRequired) else None
    case ActivitiesPath => if |v.activities| < 5 then Some(ActivitiesTooShort) else None
    case WeatherConditionsPath => if |v.weatherConditions| < 3 then Some(WeatherMissing) else None
    case WorkersPath => if v.workers == [] then Some(NoWorkers) else None
    case WorkerNamePath(i) =>
      if i < |v.workers| && |v.workers[i].name| < 2 then Some(WorkerNameRequired) else None
    case WorkerQualificationPath(i) =>
      if i < |v.workers| && |v.workers[i].qualification| < 2 then Some(QualificationRequired) else None
    case EquipmentNamePath(i) =>
      if i < |v.equipment| && |v.equipment[i].name| < 2 then Some(EquipmentNameRequired) else None
    case EquipmentQuantityPath(i) =>
      if i < |v.equipment| then QuantityMessage(v.equipment[i].quantity) else None
    case MaterialNamePath(i) =>
      if i < |v.materials| && |v.materials[i].name| < 2 then Some(MaterialNameRequired) else None
    case MaterialQuantityPath(i) =>
      if i < |v.materials| then QuantityMessage(v.materials[i].quantity) else None
  }

  /** A quantity the schema accepts. */
  predicate ValidQuantity(q: Number) {
    q.Num? && q.value >= 1
  }

  /** The schema as one statement: a date; activities of 5 characters or more;
      weather of 3 or more; at least one worker; every name and qualification of 2
      or more; every equipment and material quantity a number of at least 1. */
  predicate IsValid(v: FormValues) {
    && v.date.Some?
    && |v.activities| >= 5
    && |v.weatherConditions| >= 3
    && |v.workers| >= 1
    && (forall w :: w in v.workers ==> |w.name| >= 2 && |w.qualification| >= 2)
    && (forall e :: e in v.equipment ==> |e.name| >= 2 && ValidQuantity(e.quantity))
    && (forall m :: m in v.materials ==> |m.name| >= 2 && ValidQuantity(m.quantity))
  }

  // ---------------------------------------------------------------------------
  // The checker reports exactly the table.
  // ---------------------------------------------------------------------------

  /** An error is reported for a group exactly when some row reports it. */
  lemma {:induction false} InRowErrors<T>(rows: seq<T>, check: (T, nat) -> seq<FieldError>, e: FieldError)
    ensures e in RowErrors(rows, check) <==> exists j :: 0 <= j < |rows| && e in check(rows[j], j)
  {
    if rows != [] {
      var init := rows[..|rows| - 1];
      InRowErrors(init, check, e);
      assert forall j :: 0 <= j < |init| ==> init[j] == rows[j];
    }
  }

  lemma WorkerRowsExact(v: FormValues, e: FieldError)
    ensures e in RowErrors(v.workers, WorkerErrors)
        <==> (e.path.WorkerNamePath? || e.path.WorkerQualificationPath?) && Expected(v, e.path) == Some(e.message)
  {
    InRowErrors(v.workers, WorkerErrors, e);
    if (e.path.WorkerNamePath? || e.path.WorkerQualificationPath?) && Expected(v, e.path) == Some(e.message) {
      var j := e.path.row;
      assert e in WorkerErrors(v.workers[j], j);
    }
  }

  lemma EquipmentRowsExact(v: FormValues, e: FieldError)
    ensures e in RowErrors(v.equipment, EquipmentErrors)
        <==> (e.path.EquipmentNamePath? || e.path.EquipmentQuantityPath?) && Expected(v, e.path) == Some(e.message)
  {
    InRowErrors(v.equipment, EquipmentErrors, e);
    if (e.path.EquipmentNamePath? || e.path.EquipmentQuantityPath?) && Expected(v, e.path) == Some(e.message) {
      var j := e.path.row;
      assert e in EquipmentErrors(v.equipment[j], j);
    }
  }

  lemma MaterialRowsExact(v: FormValues, e: FieldError)
    ensures e in RowErrors(v.materials, MaterialErrors)
        <==> (e.path.MaterialNamePath? || e.path.MaterialQuantityPath?) && Expected(v, e.path) == Some(e.message)
  {
    InRowErrors(v.materials, MaterialErrors, e);
    if (e.path.MaterialNamePath? || e.path.MaterialQuantityPath?) && Expected(v, e.path) == Some(e.message) {
      var j := e.path.row;
      assert e in MaterialErrors(v.materials[j], j);
    }
  }

  /** Validation reports an error exactly for each failing field, with that field's message. */
  lemma ValidateExact(v: FormValues, e: FieldError)
    ensures e in Validate(v) <==> Expected(v, e.path) == Some(e.message)
  {
    WorkerRowsExact(v, e);
    EquipmentRowsExact(v, e);
    MaterialRowsExact(v, e);
  }

  /** Validation passes (reports nothing) exactly when the draft satisfies the schema. */
  lemma ValidateEmptyIffValid(v: FormValues)
    ensures Validate(v) == [] <==> IsValid(v)
  {
    if IsValid(v) {
      if Validate(v) != [] {
        var e := Validate(v)[0];
        ValidateExact(v, e);
        assert false;
      }
    } else {
      var p := FailingField(v);
      ValidateExact(v, FieldError(p, Expected(v, p).value));
    }
  }

  /** A field that fails in a draft that does not satisfy the schema. */
  ghost function FailingField(v: FormValues): (p: FieldPath)
    requires !IsValid(v)
    ensures Expected(v, p).Some?
  {
    if v.date.None? then DatePath
    else if |v.activities| < 5 then ActivitiesPath
    else if |v.weatherConditions| < 3 then WeatherConditionsPath
    else if v.workers == [] then WorkersPath
    else if exists i :: 0 <= i < |v.workers| && |v.workers[i].name| < 2 then
      var i :| 0 <= i < |v.workers| && |v.workers[i].name| < 2; WorkerNamePath(i)
    else if exists i :: 0 <= i < |v.workers| && |v.workers[i].qualification| < 2 then
      var i :| 0 <= i < |v.workers| && |v.workers[i].qualification| < 2; WorkerQualificationPath(i)
    else if exists i :: 0 <= i < |v.equipment| && |v.equipment[i].name| < 2 then
      var i :| 0 <= i < |v.equipment| && |v.equipment[i].name| < 2; EquipmentNamePath(i)
    else if exists i :: 0 <= i < |v.equipment| && !ValidQuantity(v.equipment[i].quantity) then
      var i :| 0 <= i < |v.equipment| && !ValidQuantity(v.equipment[i].quantity); EquipmentQuantityPath(i)
    else if exists i :: 0 <= i < |v.materials| && |v.materials[i].name| < 2 then
      var i :| 0 <= i < |v.materials| && |v.materials[i].name| < 2; MaterialNamePath(i)
    else
      assert exists i :: 0 <= i < |v.materials| && !ValidQuantity(v.materials[i].quantity);
      var i :| 0 <= i < |v.materials| && !ValidQuantity(v.materials[i].quantity); MaterialQuantityPath(i)
  }

  // ---------------------------------------------------------------------------
  // Errors come in field order, so no field is reported twice.
  // ---------------------------------------------------------------------------

  /** The section of the form a field belongs to, in schema order. */
  function GroupOf(p: FieldPath): nat {
    match p
    case DatePath => 0
    case ActivitiesPath => 1
    case WeatherConditionsPath => 2
    case WorkersPath => 3
    case WorkerNamePath(_) => 4
    case WorkerQualificationPath(_) => 4
    case EquipmentNamePath(_) => 5
    case EquipmentQuantityPath(_) => 5
    case MaterialNamePath(_) => 6
    case MaterialQuantityPath(_) => 6
  }

  /** The position of a field within its section: row by row, the name first. */
  function SlotOf(p: FieldPath): nat {
    match p
    case WorkerNamePath(i) => 2 * i
    case WorkerQualificationPath(i) => 2 * i + 1
    case EquipmentNamePath(i) => 2 * i
    case EquipmentQuantityPath(i) => 2 * i + 1
    case MaterialNamePath(i) => 2 * i
    case MaterialQuantityPath(i) => 2 * i + 1
    case _ => 0
  }

  predicate Precedes(p: FieldPath, q: FieldPath) {
    GroupOf(p) < GroupOf(q) || (GroupOf(p) == GroupOf(q) && SlotOf(p) < SlotOf(q))
  }

  predicate InFieldOrder(errs: seq<FieldError>) {
    forall a, b :: 0 <= a < b < |errs| ==> Precedes(errs[a].path, errs[b].path)
  }

  lemma OrderedConcat(xs: seq<FieldError>, ys: seq<FieldError>)
    requires InFieldOrder(xs) && InFieldOrder(ys)
    requires forall x, y :: x in xs && y in ys ==> Precedes(x.path, y.path)
    ensures InFieldOrder(xs + ys)
  {
    var zs := xs + ys;
    forall a, b | 0 <= a < b < |zs|
      ensures Precedes(zs[a].path, zs[b].path)
    {
      if b < |xs| {
        assert zs[a] == xs[a] && zs[b] == xs[b];
      } else if a >= |xs| {
        assert zs[a] == ys[a - |xs|] && zs[b] == ys[b - |xs|];
      } else {
        assert zs[a] in xs && zs[b] in ys;
      }
    }
  }

  /** The rows of a group report in row order, each inside its own slots. */
  lemma {:induction false} RowErrorsInOrder<T>(rows: seq<T>, check: (T, nat) -> seq<FieldError>, g: nat)
    requires forall r, j: nat :: InFieldOrder(check(r, j))
    requires forall r, j: nat, e :: e in check(r, j) ==> GroupOf(e.path) == g && 2 * j <= SlotOf(e.path) < 2 * j + 2
    ensures InFieldOrder(RowErrors(rows, check))
    ensures forall e :: e in RowErrors(rows, check) ==> GroupOf(e.path) == g && SlotOf(e.path) < 2 * |rows|
  {
    if rows != [] {
      var init, j := rows[..|rows| - 1], |rows| - 1;
      RowErrorsInOrder(init, check, g);
      OrderedConcat(RowErrors(init, check), check(rows[j], j));
    }
  }

  /** Appending a section after the earlier sections keeps the field order. */
  lemma AppendSection(xs: seq<FieldError>, ys: seq<FieldError>, g: nat)
    requires InFieldOrder(xs) && InFieldOrder(ys)
    requires forall x :: x in xs ==> GroupOf(x.path) < g
    requires forall y :: y in ys ==> GroupOf(y.path) == g
    ensures InFieldOrder(xs + ys)
    ensures forall z :: z in xs + ys ==> GroupOf(z.path) < g + 1
  {
    OrderedConcat(xs, ys);
  }

  lemma SingleRuleInOrder(xs: seq<FieldError>)
    requires |xs| <= 1
    ensures InFieldOrder(xs)
  {
  }

  lemma RowChecksInOrder()
    ensures forall w, j: nat :: InFieldOrder(WorkerErrors(w, j))
    ensures forall w, j: nat, e :: e in WorkerErrors(w, j) ==> GroupOf(e.path) == 4 && 2 * j <= SlotOf(e.path) < 2 * j + 2
    ensures forall q, j: nat :: InFieldOrder(EquipmentErrors(q, j))
    ensures forall q, j: nat, e :: e in EquipmentErrors(q, j) ==> GroupOf(e.path) == 5 && 2 * j <= SlotOf(e.path) < 2 * j + 2
    ensures forall m, j: nat :: InFieldOrder(MaterialErrors(m, j))
    ensures forall m, j: nat, e :: e in MaterialErrors(m, j) ==> GroupOf(e.path) == 6 && 2 * j <= SlotOf(e.path) < 2 * j + 2
  {
  }

  /** Validation reports the failing fields in the order the form shows them, and so
      reports each field at most once. */
  lemma ValidateInFieldOrder(v: FormValues)
    ensures InFieldOrder(Validate(v))
    ensures forall a, b :: 0 <= a < b < |Validate(v)| ==> Validate(v)[a].path != Validate(v)[b].path
  {
    var d := if v.date.None? then [FieldError(DatePath, DateRequired)] else [];
    var act := MinLength(v.activities, 5, ActivitiesPath, ActivitiesTooShort);
    var wc := MinLength(v.weatherConditions, 3, WeatherConditionsPath, WeatherMissing);
    var nw := if |v.workers| < 1 then [FieldError(WorkersPath, NoWorkers)] else [];
    var ws := RowErrors(v.workers, WorkerErrors);
    var es := RowErrors(v.equipment, EquipmentErrors);
    var ms := RowErrors(v.materials, MaterialErrors);
    RowChecksInOrder();
    RowErrorsInOrder(v.workers, WorkerErrors, 4);
    RowErrorsInOrder(v.equipment, EquipmentErrors, 5);
    RowErrorsInOrder(v.materials, MaterialErrors, 6);
    SingleRuleInOrder(d);
    SingleRuleInOrder(act);
    SingleRuleInOrder(wc);
    SingleRuleInOrder(nw);
    AppendSection(d, act, 1);
    AppendSection(d + act, wc, 2);
    AppendSection(d + act + wc, nw, 3);
    AppendSection(d + act + wc + nw, ws, 4);
    AppendSection(d + act + wc + nw + ws, es, 5);
    AppendSection(d + act + wc + nw + ws + es, ms, 6);
    assert Validate(v) == d + act + wc + nw + ws + es + ms;
  }

  /** The opening draft fails on activities, weather, the first worker's name and
      qualification, and the first equipment and material names, in that order and
      with those messages; its date and its quantities of 1 pass. */
  lemma DefaultValuesErrors(today: CalendarDate)
    ensures Validate(DefaultValues(today)) == [
      FieldError(ActivitiesPath, ActivitiesTooShort),
      FieldError(WeatherConditionsPath, WeatherMissing),
      FieldError(WorkerNamePath(0), WorkerNameRequired),
      FieldError(WorkerQualificationPath(0), QualificationRequired),
      FieldError(EquipmentNamePath(0), EquipmentNameRequired),
      FieldError(MaterialNamePath(0), MaterialNameRequired)]
  {
    var v := DefaultValues(today);
    assert v.workers[..0] == [] && v.equipment[..0] == [] && v.materials[..0] == [];
    assert RowErrors(v.workers, WorkerErrors)
      == [FieldError(WorkerNamePath(0), WorkerNameRequired), FieldError(WorkerQualificationPath(0), QualificationRequired)];
    assert RowErrors(v.equipment, EquipmentErrors) == [FieldError(EquipmentNamePath(0), EquipmentNameRequired)];
    assert RowErrors(v.materials, MaterialErrors) == [FieldError(MaterialNamePath(0), MaterialNameRequired)];
  }
}
