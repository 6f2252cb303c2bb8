/** The non-visual state of the four-step membership request form: which
    step is shown, and the pillar and vibe-tag selections the chips toggle.
    The form's values are the same fields the schema checks. */
module MembershipForm {
  import opened JsValues
  import opened Validation

  /** The fields each step validates before moving on. */
  const Steps: seq<seq<FieldName>> := [
    [Name, Email, Phone],
    [Datetime, Location, PartySize, BudgetRange],
    [Pillars, VibeTags],
    [Notes]
  ]

  const LastStep := |Steps| - 1

  /** The one step a field belongs to: the steps split the ten schema fields
      between them, each field in exactly one step. */
  function StepOf(f: FieldName): (i: nat)
    ensures i < |Steps| && f in Steps[i]
    ensures forall j :: 0 <= j < |Steps| && f in Steps[j] ==> j == i
  {
    match f
    case Name => 0
    case Email => 0
    case Phone => 0
    case Datetime => 1
    case Location => 1
    case PartySize => 1
    case BudgetRange => 1
    case Pillars => 2
    case VibeTags => 2
    case Notes => 3
  }

  /** The steps between them name only schema fields, and each step's fields
      are distinct from every other step's. */
  lemma StepsPartitionSchema()
    ensures forall i, j, f :: 0 <= i < j < |Steps| && f in Steps[i] ==> f !in Steps[j]
    ensures forall f :: f in SchemaFields <==> exists i :: 0 <= i < |Steps| && f in Steps[i]
  {
    forall i, j, f | 0 <= i < j < |Steps| && f in Steps[i] ensures f !in Steps[j] {
      assert StepOf(f) == i;
    }
    forall f ensures f in SchemaFields <==> exists i :: 0 <= i < |Steps| && f in Steps[i] {
      SchemaFieldsComplete(f);
      assert f in Steps[StepOf(f)];
    }
  }

  // -----------------------------------------------------------------------
  // Toggling a selection
  // -----------------------------------------------------------------------

  /** `list.filter(x => x !== item)`: every occurrence of `item` removed, the
      rest kept in order. */
  function Without(list: seq<string>, item: string): (r: seq<string>)
    ensures forall x :: x in r <==> x in list && x != item
    ensures |r| <= |list|
    ensures item !in list ==> r == list
    ensures multiset(r) == multiset(list)[item := 0]
  {
    if list == [] then []
    else
      assert list == [list[0]] + list[1..];
      if list[0] == item then Without(list[1..], item)
      else [list[0]] + Without(list[1..], item)
  }

  /** `filter` works element by element, so the kept items stay in the order
      they had and removing from a concatenation removes from each part. */
  lemma {:induction false} WithoutConcat(a: seq<string>, b: seq<string>, item: string)
    ensures Without(a + b, item) == Without(a, item) + Without(b, item)
  {
    if a == [] {
      assert a + b == b;
    } else {
      assert (a + b)[0] == a[0] && (a + b)[1..] == a[1..] + b;
      WithoutConcat(a[1..], b, item);
      if a[0] != item {
        assert Without(a + b, item) == [a[0]] + (Without(a[1..], item) + Without(b, item));
      }
    }
  }

  /** Removing an item from between two runs that lack it leaves the two runs
      joined, in order. */
  lemma WithoutKeepsOrder(a: seq<string>, item: string, b: seq<string>)
    requires item !in a && item !in b
    ensures Without(a + [item] + b, item) == a + b
  {
    WithoutConcat(a + [item], b, item);
    WithoutConcat(a, [item], item);
  }

  /** `selected || []`: a selection that was never set counts as empty. */
  function Selection(v: Raw<seq<string>>): seq<string>
  {
    if v.Present? then v.value else []
  }

  /** The list after toggling `item`: removed (every occurrence) if it was
      selected, appended at the end otherwise. */
  function Toggled(current: seq<string>, item: string): (r: seq<string>)
    ensures item in r <==> item !in current
    ensures forall x :: x != item ==> (x in r <==> x in current)
    ensures item !in current ==> r == current + [item]
    // Removal keeps the other items in their order.
    ensures item in current ==> r == Without(current, item)
    ensures item in current ==> multiset(r) == multiset(current)[item := 0]
  {
    if item in current then Without(current, item) else current + [item]
  }

  lemma {:induction false} WithoutAppended(list: seq<string>, item: string)
    requires item !in list
    ensures Without(list + [item], item) == list
  {
    if list != [] {
      WithoutAppended(list[1..], item);
      assert (list + [item])[1..] == list[1..] + [item];
    }
  }

  /** Toggling an unselected item twice restores the selection exactly. */
  lemma ToggleTwiceRestores(current: seq<string>, item: string)
    requires item !in current
    ensures Toggled(Toggled(current, item), item) == current
  {
    WithoutAppended(current, item);
  }

  /** Toggling a selected item twice keeps every other item, in order, with
      the item moved to the end (once, however often it appeared). */
  lemma ToggleSelectedTwice(current: seq<string>, item: string)
    requires item in current
    ensures Toggled(Toggled(current, item), item) == Without(current, item) + [item]
  {
  }

  // -----------------------------------------------------------------------
  // The form
  // -----------------------------------------------------------------------

  /** The values the form starts with: empty selections and empty notes,
      every other field unset. */
  const DefaultValues := RawBody(Absent, Absent, Absent, Absent, Absent, Absent, Absent,
                                 Present([]), Present([]), Present(""))

  /** `trigger(fields)`: whether the fields of step `step` pass the schema at
      `now`, that is, none of them is among the failing fields. */
  predicate StepValid(values: RawBody, step: nat, now: int, isEmail: string -> bool): (ok: bool)
    requires step < |Steps|
    ensures ok <==> FailingFields(values, Steps[step], now, isEmail) == []
  {
    var failing := FailingFields(values, Steps[step], now, isEmail);
    assert failing != [] ==> failing[0] in failing;
    forall f :: f in Steps[step] ==> FieldOk(values, f, now, isEmail)
  }

  /** Every step passing is the whole schema passing: the form's step checks
      between them apply every rule of the schema, and no other. */
  lemma AllStepsIffValid(values: RawBody, now: int, isEmail: string -> bool)
    ensures (forall s :: 0 <= s < |Steps| ==> StepValid(values, s, now, isEmail)) <==>
            Valid(values, now, isEmail)
  {
    if forall s :: 0 <= s < |Steps| ==> StepValid(values, s, now, isEmail) {
      forall f ensures FieldOk(values, f, now, isEmail) {
        assert StepValid(values, StepOf(f), now, isEmail);
      }
    }
  }

  /** The step after a Next click whose fields pass (`fieldsPass`) or not:
      one further when they pass and a later step exists, else the same. */
  function NextStep(step: int, fieldsPass: bool): (next: int)
    requires 0 <= step <= LastStep
    ensures 0 <= next <= LastStep
    ensures next == step || next == step + 1
    ensures next == step + 1 <==> fieldsPass && step < LastStep
  {
    if fieldsPass && step < LastStep then step + 1 else step
  }

  /** The step after a Back click: one back, except on the first step. */
  function PrevStep(step: int): (prev: int)
    requires 0 <= step <= LastStep
    ensures 0 <= prev <= LastStep
    ensures prev < step <==> step > 0
    ensures step - prev <= 1
  {
    if step > 0 then step - 1 else step
  }

  class FormState {
    var currentStep: int
    var values: RawBody

    ghost predicate Valid()
      reads this
    {
      0 <= currentStep <= LastStep
    }

    constructor ()
      ensures Valid() && currentStep == 0 && values == DefaultValues
    {
      currentStep := 0;
      values := DefaultValues;
    }

    /** `goNext()`: advance only when the current step's fields pass and a
        later step exists. */
    method GoNext(now: int, isEmail: string -> bool)
      requires Valid()
      modifies this`currentStep
      ensures Valid()
      ensures currentStep == NextStep(old(currentStep), StepValid(values, old(currentStep), now, isEmail))
    {
      var valid := StepValid(values, currentStep, now, isEmail);
      if valid && currentStep < LastStep {
        currentStep := currentStep + 1;
      }
    }

    /** `goBack()`: step back unless on the first step. */
    method GoBack()
      requires Valid()
      modifies this`currentStep
      ensures Valid()
      ensures currentStep == PrevStep(old(currentStep))
    {
      if currentStep > 0 {
        currentStep := currentStep - 1;
      }
    }

    /** `togglePillar(slug)`. */
    method TogglePillar(slug: string)
      modifies this`values
      ensures values == old(values).(pillars := Present(Toggled(Selection(old(values).pillars), slug)))
    {
      values := values.(pillars := Present(Toggled(Selection(values.pillars), slug)));
    }

    /** `toggleVibe(tag)`. */
    method ToggleVibe(tag: string)
      modifies this`values
      ensures values == old(values).(vibeTags := Present(Toggled(Selection(old(values).vibeTags), tag)))
    {
      values := values.(vibeTags := Present(Toggled(Selection(values.vibeTags), tag)));
    }
  }

  /** A Next click that advances is undone by one Back click, and a Back
      click that moves is undone by a Next click whose fields pass. */
  lemma BackUndoesNext(step: int)
    requires 0 <= step <= LastStep
    ensures step < LastStep ==> PrevStep(NextStep(step, true)) == step
    ensures step > 0 ==> NextStep(PrevStep(step), true) == step
  {
  }
}
