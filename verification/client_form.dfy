/**
 The add/edit form (`ClientForm`, held in components/components/ClientList.tsx):
 its field state, the per-field measurement update and the record it submits.
 */
module ClientForm {
  import opened Wrappers
  import opened Types

  /** The keys of `Measurements` the form edits one at a time. */
  datatype Field = Waist | PantsLength | ShoulderWidth | Neck | Sleeve | Wrist | Notes

  /** The value of one field of a measurement record. */
  function Get(m: Measurements, f: Field): string
  {
    match f
    case Waist => m.waist
    case PantsLength => m.pantsLength
    case ShoulderWidth => m.shoulderWidth
    case Neck => m.neck
    case Sleeve => m.sleeve
    case Wrist => m.wrist
    case Notes => m.notes
  }

  /** Two measurement records that agree on every field are the same record. */
  lemma MeasurementsByFields(a: Measurements, b: Measurements)
    requires forall f :: Get(a, f) == Get(b, f)
    ensures a == b
  {
    assert Get(a, Waist) == Get(b, Waist);
    assert Get(a, PantsLength) == Get(b, PantsLength);
    assert Get(a, ShoulderWidth) == Get(b, ShoulderWidth);
    assert Get(a, Neck) == Get(b, Neck);
    assert Get(a, Sleeve) == Get(b, Sleeve);
    assert Get(a, Wrist) == Get(b, Wrist);
    assert Get(a, Notes) == Get(b, Notes);
  }

  /** `emptyMeasurements`: nothing measured yet. */
  const EmptyMeasurements: Measurements := Measurements("", "", "", "", "", "", "")

  /** `handleMeasurementChange`: a copy of the record with one field replaced. */
  function ChangeMeasurement(m: Measurements, f: Field, value: string): (r: Measurements)
    ensures Get(r, f) == value
    ensures forall g :: g != f ==> Get(r, g) == Get(m, g)
  {
    match f
    case Waist => m.(waist := value)
    case PantsLength => m.(pantsLength := value)
    case ShoulderWidth => m.(shoulderWidth := value)
    case Neck => m.(neck := value)
    case Sleeve => m.(sleeve := value)
    case Wrist => m.(wrist := value)
    case Notes => m.(notes := value)
  }

  /** The form's three pieces of state. */
  datatype FormState = FormState(name: string, phoneNumber: string, measurements: Measurements)

  /** The state after mounting: empty fields, overwritten from `initialData` when one is given. */
  function InitialForm(initialData: Option<Client>): (r: FormState)
    ensures initialData.None? ==>
      r.name == "" && r.phoneNumber == "" && forall f :: Get(r.measurements, f) == ""
    ensures initialData.Some? ==>
      && r.name == initialData.value.name
      && r.phoneNumber == initialData.value.phoneNumber
      && r.measurements == initialData.value.measurements
  {
    match initialData
    case None => FormState("", "", EmptyMeasurements)
    case Some(c) => FormState(c.name, c.phoneNumber, c.measurements)
  }

  /** The inputs of the form: name, phone, and one per measurement field. */
  datatype Input = NameInput | PhoneInput | MeasurementInput(field: Field)

  /** The text an input currently shows. */
  function Read(form: FormState, x: Input): string
  {
    match x
    case NameInput => form.name
    case PhoneInput => form.phoneNumber
    case MeasurementInput(f) => Get(form.measurements, f)
  }

  /** A form is determined by what its inputs show. */
  lemma FormByInputs(a: FormState, b: FormState)
    requires forall x :: Read(a, x) == Read(b, x)
    ensures a == b
  {
    assert Read(a, NameInput) == Read(b, NameInput);
    assert Read(a, PhoneInput) == Read(b, PhoneInput);
    forall f
      ensures Get(a.measurements, f) == Get(b.measurements, f)
    {
      assert Read(a, MeasurementInput(f)) == Read(b, MeasurementInput(f));
    }
    MeasurementsByFields(a.measurements, b.measurements);
  }

  /** One user edit: new text typed into one input. */
  datatype FormEdit =
    | NameTyped(name: string)
    | PhoneTyped(phoneNumber: string)
    | MeasurementTyped(field: Field, value: string)
  {
    function InputOf(): Input
    {
      match this
      case NameTyped(_) => NameInput
      case PhoneTyped(_) => PhoneInput
      case MeasurementTyped(f, _) => MeasurementInput(f)
    }

    function Text(): string
    {
      match this
      case NameTyped(v) => v
      case PhoneTyped(v) => v
      case MeasurementTyped(_, v) => v
    }
  }

  /** The `onChange` handlers of the inputs: the edited input shows the typed
      text and every other input keeps what it showed. */
  function ApplyEdit(form: FormState, e: FormEdit): (r: FormState)
    ensures Read(r, e.InputOf()) == e.Text()
    ensures forall x :: x != e.InputOf() ==> Read(r, x) == Read(form, x)
  {
    match e
    case NameTyped(v) => form.(name := v)
    case PhoneTyped(v) => form.(phoneNumber := v)
    case MeasurementTyped(f, v) => form.(measurements := ChangeMeasurement(form.measurements, f, v))
  }

  function ApplyEdits(form: FormState, es: seq<FormEdit>): FormState
    decreases |es|
  {
    if |es| == 0 then form else ApplyEdits(ApplyEdit(form, es[0]), es[1..])
  }

  /** An input no edit touches keeps its text. */
  lemma {:induction false} UntouchedInputKeeps(form: FormState, es: seq<FormEdit>, x: Input)
    requires forall j :: 0 <= j < |es| ==> es[j].InputOf() != x
    ensures Read(ApplyEdits(form, es), x) == Read(form, x)
    decreases |es|
  {
    if |es| > 0 {
      UntouchedInputKeeps(ApplyEdit(form, es[0]), es[1..], x);
    }
  }

  /** After a run of edits, an input shows the text of the last edit to it. */
  lemma {:induction false} LastEditWins(form: FormState, es: seq<FormEdit>, x: Input, k: int)
    requires 0 <= k < |es| && es[k].InputOf() == x
    requires forall j :: k < j < |es| ==> es[j].InputOf() != x
    ensures Read(ApplyEdits(form, es), x) == es[k].Text()
    decreases |es|
  {
    if k == 0 {
      UntouchedInputKeeps(ApplyEdit(form, es[0]), es[1..], x);
    } else {
      LastEditWins(ApplyEdit(form, es[0]), es[1..], x, k - 1);
    }
  }

  /** Typing into every input in turn, one edit per input. */
  function TypeIn(target: FormState): seq<FormEdit>
  {
    [ NameTyped(target.name),
      PhoneTyped(target.phoneNumber),
      MeasurementTyped(Waist, target.measurements.waist),
      MeasurementTyped(PantsLength, target.measurements.pantsLength),
      MeasurementTyped(ShoulderWidth, target.measurements.shoulderWidth),
      MeasurementTyped(Neck, target.measurements.neck),
      MeasurementTyped(Sleeve, target.measurements.sleeve),
      MeasurementTyped(Wrist, target.measurements.wrist),
      MeasurementTyped(Notes, target.measurements.notes) ]
  }

  /** Where `TypeIn` edits an input. */
  function Slot(x: Input): int
  {
    match x
    case NameInput => 0
    case PhoneInput => 1
    case MeasurementInput(Waist) => 2
    case MeasurementInput(PantsLength) => 3
    case MeasurementInput(ShoulderWidth) => 4
    case MeasurementInput(Neck) => 5
    case MeasurementInput(Sleeve) => 6
    case MeasurementInput(Wrist) => 7
    case MeasurementInput(Notes) => 8
  }

  /** Whatever the form started from, every form state can be typed in: each
      input is edited exactly once, with the text the target shows. */
  lemma EveryFormReachable(start: FormState, target: FormState)
    ensures ApplyEdits(start, TypeIn(target)) == target
  {
    var es := TypeIn(target);
    forall x
      ensures Read(ApplyEdits(start, es), x) == Read(target, x)
    {
      LastEditWins(start, es, x, Slot(x));
    }
    FormByInputs(ApplyEdits(start, es), target);
  }

  /** `handleSubmit`. The name input is `required`, so the browser refuses to
      submit while it is empty (`None`); the phone may be empty. An edit keeps
      the original identity and creation time; an addition takes the supplied
      fresh identifier and current time (`crypto.randomUUID()`, `Date.now()`). */
  function Submit(form: FormState, initialData: Option<Client>, freshId: string, now: int): (r: Option<Client>)
    ensures r.Some? <==> form.name != ""
    ensures r.Some? ==>
      && r.value.name == form.name
      && r.value.phoneNumber == form.phoneNumber
      && r.value.measurements == form.measurements
    ensures r.Some? && initialData.Some? ==>
      r.value.id == initialData.value.id && r.value.createdAt == initialData.value.createdAt
    ensures r.Some? && initialData.None? ==> r.value.id == freshId && r.value.createdAt == now
  {
    if form.name == "" then None
    else
      var id := if initialData.Some? then initialData.value.id else freshId;
      var createdAt := if initialData.Some? then initialData.value.createdAt else now;
      Some(Client(id, form.name, form.phoneNumber, form.measurements, createdAt))
  }

  /** Opening an existing client and saving without edits gives back that client. */
  lemma SubmitUneditedIsIdentity(c: Client, freshId: string, now: int)
    requires c.name != ""
    ensures Submit(InitialForm(Some(c)), Some(c), freshId, now) == Some(c)
  {
  }

  /** A fresh add form cannot be submitted before a name is typed. */
  lemma FreshFormNeedsName(freshId: string, now: int)
    ensures Submit(InitialForm(None), None, freshId, now) == None
  {
  }

}
