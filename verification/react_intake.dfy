/**
 * The component version of the intake wizard: a component whose state is the
 * current step, the answers, the per-field error flags and the visibility of
 * the "Other" free-text box. Each handler is a method of `IntakeForm`; state
 * updates are applied in the order the handler issues them.
 */
module ReactIntake {
  import opened Options
  import opened Text
  import opened JsObject
  import opened IntakeConfig

  /** Multi-choice answers are lists and every other answer is a string. */
  predicate WellTyped(d: Entries<FieldValue>) {
    forall i :: 0 <= i < |d| ==> (d[i].1.List? <==> d[i].0 in MultiSelectNames())
  }

  /** Storing an answer of the right shape keeps the answers well typed. */
  lemma PutWellTyped(d: Entries<FieldValue>, k: string, v: FieldValue)
    requires WellTyped(d) && (v.List? <==> k in MultiSelectNames())
    ensures WellTyped(Put(d, k, v))
  {
    var r := Put(d, k, v);
    forall i | 0 <= i < |r| ensures r[i].1.List? <==> r[i].0 in MultiSelectNames() {
      assert r[i] in r;
    }
  }

  /** In well-typed answers, a configured field's answer has the shape of its kind. */
  lemma AnswerShape(d: Entries<FieldValue>, step: int, i: int)
    requires WellTyped(d) && 1 <= step <= TotalSteps && 0 <= i < |FieldsOf(step)|
    ensures var v := Lookup(d, FieldsOf(step)[i].name);
            v.Some? ==> (v.value.List? <==> FieldsOf(step)[i].kind == MultiSelect)
  {
    var name := FieldsOf(step)[i].name;
    var v := Lookup(d, name);
    MultiSelectNameIffKind(step, i);
    if v.Some? {
      var j :| 0 <= j < |d| && d[j] == (name, v.value);
    }
  }

  /** `!v || !v.trim()` for a string, `!v || v.length === 0` for a list. */
  predicate IsMissing(v: Option<FieldValue>) {
    match v
    case None => true
    case Some(Str(s)) => IsBlank(s)
    case Some(List(xs)) => |xs| == 0
  }

  /** A required field whose answer is missing: it gets an error flag. */
  predicate FailsRequired(f: Field, d: Entries<FieldValue>) {
    f.required && IsMissing(Lookup(d, f.name))
  }

  /** Every required field of `fs` has an answer. */
  predicate StepComplete(fs: seq<Field>, d: Entries<FieldValue>) {
    forall i :: 0 <= i < |fs| ==> !FailsRequired(fs[i], d)
  }

  /** The error object `validateStep` builds for fields `fs`. */
  function RequiredErrors(fs: seq<Field>, d: Entries<FieldValue>): (errs: map<string, bool>)
    ensures forall k :: k in errs ==> errs[k]
    ensures forall k :: k in errs <==> exists i :: 0 <= i < |fs| && fs[i].name == k && FailsRequired(fs[i], d)
  {
    if fs == [] then map[]
    else
      var prefix := fs[..|fs| - 1];
      var prev := RequiredErrors(prefix, d);
      var f := fs[|fs| - 1];
      assert forall i :: 0 <= i < |prefix| ==> prefix[i] == fs[i];
      if FailsRequired(f, d) then prev[f.name := true] else prev
  }

  /** One more field of the step: its flag is added when it fails. */
  lemma RequiredErrorsExtend(fs: seq<Field>, i: int, d: Entries<FieldValue>)
    requires 0 <= i < |fs|
    ensures RequiredErrors(fs[..i + 1], d) ==
            if FailsRequired(fs[i], d) then RequiredErrors(fs[..i], d)[fs[i].name := true]
            else RequiredErrors(fs[..i], d)
  {
    assert fs[..i + 1][..i] == fs[..i];
  }

  /** The error object is empty exactly when the step is complete. */
  lemma NoErrorsIffComplete(fs: seq<Field>, d: Entries<FieldValue>)
    ensures |RequiredErrors(fs, d)| == 0 <==> StepComplete(fs, d)
  {
    var errs := RequiredErrors(fs, d);
    if StepComplete(fs, d) {
      assert errs == map[];
    } else {
      var i :| 0 <= i < |fs| && FailsRequired(fs[i], d);
      assert fs[i].name in errs;
    }
  }

  /** `current.filter(v => v !== value)`. */
  function Without(xs: seq<string>, v: string): (r: seq<string>)
    ensures v !in r
    ensures forall w :: w != v ==> (w in r <==> w in xs)
    ensures v !in xs ==> r == xs
    ensures multiset(r) == multiset(xs)[v := 0]
  {
    if xs == [] then []
    else
      assert xs == [xs[0]] + xs[1..];
      if xs[0] == v then Without(xs[1..], v)
      else [xs[0]] + Without(xs[1..], v)
  }

  /** The filter works element by element, so the other options keep their order. */
  lemma {:induction false} WithoutConcat(a: seq<string>, b: seq<string>, v: string)
    ensures Without(a + b, v) == Without(a, v) + Without(b, v)
  {
    if a != [] {
      assert (a + b)[1..] == a[1..] + b;
      WithoutConcat(a[1..], b, v);
    } else {
      assert a + b == b;
    }
  }

  /** The list a checkbox toggle produces: drop every copy of a present option, else append it. */
  function Toggled(xs: seq<string>, v: string): seq<string> {
    if v in xs then Without(xs, v) else xs + [v]
  }

  /** A toggle flips the toggled option's membership and keeps every other option's. */
  lemma ToggleMembership(xs: seq<string>, v: string)
    ensures v in Toggled(xs, v) <==> v !in xs
    ensures forall w :: w != v ==> (w in Toggled(xs, v) <==> w in xs)
  {
  }

  /**
   * Toggling twice restores the set of ticked options; an absent option leaves
   * the list exactly as it was, a present one ends up alone at the end.
   */
  lemma ToggleTwice(xs: seq<string>, v: string)
    ensures forall w :: w in Toggled(Toggled(xs, v), v) <==> w in xs
    ensures v !in xs ==> Toggled(Toggled(xs, v), v) == xs
    ensures v in xs ==> Toggled(Toggled(xs, v), v) == Without(xs, v) + [v]
  {
    if v !in xs {
      assert Toggled(xs, v) == xs + [v];
      WithoutAppended(xs, v);
    }
  }

  lemma {:induction false} WithoutAppended(xs: seq<string>, v: string)
    requires v !in xs
    ensures Without(xs + [v], v) == xs
  {
    if xs != [] {
      assert (xs + [v])[1..] == xs[1..] + [v];
      WithoutAppended(xs[1..], v);
    }
  }

  /** `prev[name] || []`: the ticked options recorded so far. */
  function SelectedOf(d: Entries<FieldValue>, name: string): seq<string> {
    var v := Lookup(d, name);
    if v.Some? && v.value.List? then v.value.items else []
  }

  /** `Array.isArray(value) ? value.join(', ') : value`. */
  function Flat(v: FieldValue): string {
    match v
    case Str(s) => s
    case List(xs) => Join(xs, ListSeparator)
  }

  /** The form payload: each answer in key order, lists joined with ", ". */
  function Flattened(d: Entries<FieldValue>): Entries<string> {
    seq(|d|, i requires 0 <= i < |d| => (d[i].0, Flat(d[i].1)))
  }

  /** The payload has exactly the answers' keys, in order, and each value is the flattened answer. */
  lemma FlattenedLookup(d: Entries<FieldValue>, k: string)
    requires UniqueKeys(d)
    ensures Keys(Flattened(d)) == Keys(d) && UniqueKeys(Flattened(d))
    ensures Lookup(Flattened(d), k) == match Lookup(d, k) case None => None case Some(v) => Some(Flat(v))
  {
    var p := Flattened(d);
    assert Keys(p) == Keys(d);
    var r := Lookup(d, k);
    if r.Some? {
      var i :| 0 <= i < |d| && d[i] == (k, r.value);
      LookupAt(p, i);
      LookupAt(d, i);
    }
  }

  /**
   * A non-empty multi-choice answer whose options contain no ", " can be
   * recovered from the payload by splitting on ", ".
   */
  lemma PayloadListRecoverable(d: Entries<FieldValue>, k: string, xs: seq<string>)
    requires UniqueKeys(d) && Lookup(d, k) == Some(List(xs)) && |xs| > 0
    requires forall j :: 0 <= j < |xs| ==> !ContainsSep(xs[j], ListSeparator)
    ensures Lookup(Flattened(d), k).Some?
    ensures Split(Lookup(Flattened(d), k).value, ListSeparator) == xs
  {
    FlattenedLookup(d, k);
    SplitJoin(xs);
  }

  /** The `forEach` that appends every answer to the `FormData` sent on the last step. */
  method BuildSubmission(d: Entries<FieldValue>) returns (payload: Entries<string>)
    ensures payload == Flattened(d)
  {
    payload := [];
    for i := 0 to |d|
      invariant |payload| == i
      invariant forall j :: 0 <= j < i ==> payload[j] == (d[j].0, Flat(d[j].1))
    {
      var (key, value) := d[i];
      if value.List? {
        payload := payload + [(key, Join(value.items, ListSeparator))];
      } else {
        payload := payload + [(key, value.s)];
      }
    }
  }

  class IntakeForm {
    var currentStep: int
    var formData: Entries<FieldValue>
    var errors: map<string, bool>
    var showOtherInput: bool
    var phase: Phase

    ghost predicate Valid()
      reads this
    {
      1 <= currentStep <= TotalSteps && UniqueKeys(formData) && WellTyped(formData)
    }

    /** The steps are on screen (and editable) unless the submission has settled. */
    predicate FormShown()
      reads this
    {
      phase == Filling || phase == Submitting
    }

    constructor ()
      ensures Valid() && FormShown()
      ensures currentStep == 1 && formData == [] && errors == map[] && !showOtherInput && phase == Filling
    {
      currentStep := 1;
      formData := [];
      errors := map[];
      showOtherInput := false;
      phase := Filling;
    }

    /** Editing a text box or a select stores its value and clears its error flag. */
    method UpdateField(name: string, value: string)
      requires Valid() && FormShown() && name !in MultiSelectNames()
      modifies this`formData, this`errors
      ensures Valid()
      ensures formData == Put(old(formData), name, Str(value))
      ensures errors == old(errors)[name := false]
    {
      PutWellTyped(formData, name, Str(value));
      formData := Put(formData, name, Str(value));
      errors := errors[name := false];
    }

    /** Ticking or unticking a checkbox of a multi-choice field. */
    method ToggleMultiSelect(name: string, value: string)
      requires Valid() && FormShown() && name in MultiSelectNames()
      modifies this`formData, this`errors, this`showOtherInput
      ensures Valid()
      ensures formData == Put(old(formData), name, List(Toggled(SelectedOf(old(formData), name), value)))
      ensures errors == old(errors)[name := false]
      ensures showOtherInput == if value == OtherOption then OtherOption !in SelectedOf(old(formData), name)
                                else old(showOtherInput)
    {
      var current := SelectedOf(formData, name);
      var updated := if value in current then Without(current, value) else current + [value];
      if value == OtherOption {
        showOtherInput := OtherOption in updated;
      }
      PutWellTyped(formData, name, List(updated));
      formData := Put(formData, name, List(updated));
      errors := errors[name := false];
    }

    /** Recomputes the error flags of the current step; true when there are none. */
    method ValidateStep() returns (ok: bool)
      requires Valid()
      modifies this`errors
      ensures errors == RequiredErrors(FieldsOf(currentStep), formData)
      ensures ok <==> StepComplete(FieldsOf(currentStep), formData)
    {
      var fields := FieldsOf(currentStep);
      var newErrors: map<string, bool> := map[];
      for i := 0 to |fields|
        invariant newErrors == RequiredErrors(fields[..i], formData)
      {
        var field := fields[i];
        RequiredErrorsExtend(fields, i, formData);
        if field.required {
          var v := Lookup(formData, field.name);
          AnswerShape(formData, currentStep, i);
          var missing;
          if field.kind == MultiSelect {
            missing := v.None? || |v.value.items| == 0;
          } else {
            missing := v.None? || Trim(v.value.s) == "";
          }
          if missing {
            newErrors := newErrors[field.name := true];
          }
        }
      }
      assert fields[..|fields|] == fields;
      errors := newErrors;
      NoErrorsIffComplete(fields, formData);
      ok := |newErrors| == 0;
    }

    /**
     * The Next / Submit button: validate; on success move one step on, or on
     * the last step send the flattened answers instead.
     */
    method HandleNext() returns (sent: Option<Entries<string>>)
      requires Valid() && phase == Filling
      modifies this
      ensures Valid()
      ensures formData == old(formData) && showOtherInput == old(showOtherInput)
      ensures errors == RequiredErrors(FieldsOf(old(currentStep)), old(formData))
      ensures !StepComplete(FieldsOf(old(currentStep)), old(formData)) ==>
                currentStep == old(currentStep) && phase == Filling && sent == None
      ensures StepComplete(FieldsOf(old(currentStep)), old(formData)) && old(currentStep) < TotalSteps ==>
                currentStep == old(currentStep) + 1 && phase == Filling && sent == None
      ensures StepComplete(FieldsOf(old(currentStep)), old(formData)) && old(currentStep) == TotalSteps ==>
                currentStep == TotalSteps && phase == Submitting && sent == Some(Flattened(formData))
    {
      sent := None;
      var ok := ValidateStep();
      if ok {
        if currentStep < TotalSteps {
          currentStep := currentStep + 1;
        } else {
          var payload := BuildSubmission(formData);
          phase := Submitting;
          sent := Some(payload);
        }
      }
    }

    /** The Back button, rendered only after the first step. */
    method HandleBack()
      requires Valid() && FormShown() && BackVisible(currentStep)
      modifies this`currentStep
      ensures Valid()
      ensures currentStep == old(currentStep) - 1
    {
      currentStep := currentStep - 1;
    }

    /** The submission endpoint's answer arrives. */
    method SettleSubmission(r: FetchResult)
      requires phase == Submitting
      modifies this`phase
      ensures phase == Settle(r)
    {
      phase := Settle(r);
    }
  }
}
