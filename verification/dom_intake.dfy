/**
 * The DOM-string version of the intake wizard: module-level `currentStep` and
 * `formData`, handlers that read the rendered inputs, save them into the
 * answers, and move between steps. The page's inputs at the moment a handler
 * runs are passed in as a `Snapshot`.
 */
module DomIntake {
  import opened Options
  import opened Text
  import opened JsObject
  import opened IntakeConfig

  /**
   * The rendered inputs: the value of each text box or select by element id
   * (the free-text box of a multi-choice field has id `<name>_other`), and the
   * ticked boxes of each checkbox group, in page order.
   */
  datatype Snapshot = Snapshot(values: map<string, string>, checked: map<string, seq<string>>)

  /** `querySelectorAll('input[name="<name>"]:checked')`, as option values. */
  function Checked(snap: Snapshot, name: string): seq<string> {
    if name in snap.checked then snap.checked[name] else []
  }

  /** Every required text box or select of the step is on the page. */
  predicate Covers(fs: seq<Field>, snap: Snapshot) {
    forall i :: 0 <= i < |fs| && fs[i].required && fs[i].kind != MultiSelect ==> fs[i].name in snap.values
  }

  /** A required field left empty on the page: no ticked box, or a blank value. */
  predicate FieldFails(f: Field, snap: Snapshot) {
    f.required &&
    if f.kind == MultiSelect then |Checked(snap, f.name)| == 0
    else f.name in snap.values && IsBlank(snap.values[f.name])
  }

  predicate StepPasses(fs: seq<Field>, snap: Snapshot) {
    forall i :: 0 <= i < |fs| ==> !FieldFails(fs[i], snap)
  }

  /** What saving one field writes into the answers. */
  function SaveField(f: Field, d: Entries<FieldValue>, snap: Snapshot): Entries<FieldValue> {
    if f.kind == MultiSelect then
      var d1 := Put(d, f.name, List(Checked(snap, f.name)));
      var other := OtherName(f.name);
      if other in snap.values && !IsBlank(snap.values[other]) then
        Put(d1, other, Str(Trim(snap.values[other])))
      else d1
    else if f.name in snap.values then Put(d, f.name, Str(snap.values[f.name]))
    else d
  }

  /** What saving the fields `fs`, first to last, writes into the answers. */
  function SaveFields(fs: seq<Field>, d: Entries<FieldValue>, snap: Snapshot): Entries<FieldValue>
    decreases |fs|
  {
    if fs == [] then d else SaveField(fs[|fs| - 1], SaveFields(fs[..|fs| - 1], d, snap), snap)
  }

  /** Keys that saving field `f` may write. */
  predicate Writes(f: Field, k: string) {
    k == f.name || (f.kind == MultiSelect && k == OtherName(f.name))
  }

  lemma SaveFieldElsewhere(f: Field, d: Entries<FieldValue>, snap: Snapshot, k: string)
    requires !Writes(f, k)
    ensures Lookup(SaveField(f, d, snap), k) == Lookup(d, k)
  {
    LookupPut(d, f.name, List(Checked(snap, f.name)));
    var d1 := Put(d, f.name, List(Checked(snap, f.name)));
    var other := OtherName(f.name);
    if other in snap.values {
      LookupPut(d1, other, Str(Trim(snap.values[other])));
    }
    LookupPut(d, f.name, Str(if f.name in snap.values then snap.values[f.name] else ""));
  }

  lemma OtherNameDistinct(a: string, b: string)
    requires a != b
    ensures OtherName(a) != OtherName(b)
  {
    assert OtherName(a)[..|a|] == a;
    assert OtherName(b)[..|b|] == b;
  }

  lemma SaveFieldsExtend(fs: seq<Field>, i: int, d: Entries<FieldValue>, snap: Snapshot)
    requires 0 <= i < |fs|
    ensures SaveFields(fs[..i + 1], d, snap) == SaveField(fs[i], SaveFields(fs[..i], d, snap), snap)
  {
    assert fs[..i + 1][..i] == fs[..i];
  }

  lemma SaveFieldsKeepsUnique(fs: seq<Field>, d: Entries<FieldValue>, snap: Snapshot)
    requires UniqueKeys(d)
    ensures UniqueKeys(SaveFields(fs, d, snap))
    decreases |fs|
  {
    if fs != [] {
      SaveFieldsKeepsUnique(fs[..|fs| - 1], d, snap);
    }
  }

  /** Saving leaves every answer that no field of the step writes as it was. */
  lemma {:induction false} SaveUntouched(fs: seq<Field>, d: Entries<FieldValue>, snap: Snapshot, k: string)
    requires forall i :: 0 <= i < |fs| ==> !Writes(fs[i], k)
    ensures Lookup(SaveFields(fs, d, snap), k) == Lookup(d, k)
    decreases |fs|
  {
    if fs != [] {
      var prefix := fs[..|fs| - 1];
      SaveUntouched(prefix, d, snap, k);
      SaveFieldElsewhere(fs[|fs| - 1], SaveFields(prefix, d, snap), snap, k);
    }
  }

  /** With distinct names, no field of the step other than `fs[i]` writes the keys `fs[i]` writes. */
  lemma OnlyOwnerWrites(fs: seq<Field>, i: int, j: int, k: string)
    requires DistinctNames(fs) && NoOtherClash(fs)
    requires 0 <= i < |fs| && 0 <= j < |fs| && i != j && Writes(fs[i], k)
    ensures !Writes(fs[j], k)
  {
    assert fs[i].name != fs[j].name;
    OtherNameDistinct(fs[i].name, fs[j].name);
  }

  /**
   * After saving, a key owned by field `fs[i]` holds what saving `fs[i]`
   * alone would have written into the old answers.
   */
  lemma {:induction false} SaveOwned(fs: seq<Field>, d: Entries<FieldValue>, snap: Snapshot, i: int, k: string)
    requires DistinctNames(fs) && NoOtherClash(fs)
    requires 0 <= i < |fs| && Writes(fs[i], k)
    ensures Lookup(SaveFields(fs, d, snap), k) == Lookup(SaveField(fs[i], d, snap), k)
    decreases |fs|
  {
    var n := |fs|;
    var prefix := fs[..n - 1];
    assert forall j :: 0 <= j < n - 1 ==> prefix[j] == fs[j];
    if i == n - 1 {
      forall j | 0 <= j < |prefix| ensures !Writes(prefix[j], k) {
        OnlyOwnerWrites(fs, i, j, k);
      }
      SaveUntouched(prefix, d, snap, k);
      SaveFieldSameInput(fs[i], SaveFields(prefix, d, snap), d, snap, k);
    } else {
      OnlyOwnerWrites(fs, i, n - 1, k);
      SaveOwned(prefix, d, snap, i, k);
      SaveFieldElsewhere(fs[n - 1], SaveFields(prefix, d, snap), snap, k);
    }
  }

  /** What saving a field writes at `k` depends only on the old value at `k`. */
  lemma SaveFieldSameInput(f: Field, d: Entries<FieldValue>, d': Entries<FieldValue>, snap: Snapshot, k: string)
    requires Lookup(d, k) == Lookup(d', k)
    ensures Lookup(SaveField(f, d, snap), k) == Lookup(SaveField(f, d', snap), k)
  {
    if f.kind == MultiSelect {
      var choices := List(Checked(snap, f.name));
      PutSameInput(d, d', f.name, choices, k);
      var other := OtherName(f.name);
      if other in snap.values && !IsBlank(snap.values[other]) {
        PutSameInput(Put(d, f.name, choices), Put(d', f.name, choices), other, Str(Trim(snap.values[other])), k);
      }
    } else if f.name in snap.values {
      PutSameInput(d, d', f.name, Str(snap.values[f.name]), k);
    }
  }

  lemma PutSameInput(d: Entries<FieldValue>, d': Entries<FieldValue>, key: string, v: FieldValue, k: string)
    requires Lookup(d, k) == Lookup(d', k)
    ensures Lookup(Put(d, key, v), k) == Lookup(Put(d', key, v), k)
  {
    if k == key {
      LookupPutSame(d, key, v);
      LookupPutSame(d', key, v);
    } else {
      LookupPutOther(d, key, v, k);
      LookupPutOther(d', key, v, k);
    }
  }

  /** Saving stores a multi-choice field's ticked boxes, whether or not "Other" is among them. */
  lemma SavedChoices(fs: seq<Field>, d: Entries<FieldValue>, snap: Snapshot, i: int)
    requires DistinctNames(fs) && NoOtherClash(fs)
    requires 0 <= i < |fs| && fs[i].kind == MultiSelect
    ensures Lookup(SaveFields(fs, d, snap), fs[i].name) == Some(List(Checked(snap, fs[i].name)))
  {
    var f := fs[i];
    SaveOwned(fs, d, snap, i, f.name);
    LookupPut(d, f.name, List(Checked(snap, f.name)));
    var other := OtherName(f.name);
    assert other != f.name by { assert |other| == |f.name| + 6; }
    if other in snap.values {
      LookupPut(Put(d, f.name, List(Checked(snap, f.name))), other, Str(Trim(snap.values[other])));
    }
  }

  /**
   * Saving stores the trimmed free text of a multi-choice field only when it is
   * not blank; otherwise the previous free text is kept.
   */
  lemma SavedOtherText(fs: seq<Field>, d: Entries<FieldValue>, snap: Snapshot, i: int)
    requires DistinctNames(fs) && NoOtherClash(fs)
    requires 0 <= i < |fs| && fs[i].kind == MultiSelect
    ensures var other := OtherName(fs[i].name);
            Lookup(SaveFields(fs, d, snap), other) ==
              if other in snap.values && !IsBlank(snap.values[other]) then Some(Str(Trim(snap.values[other])))
              else Lookup(d, other)
  {
    var f := fs[i];
    var other := OtherName(f.name);
    SaveOwned(fs, d, snap, i, other);
    assert other != f.name by { assert |other| == |f.name| + 6; }
    LookupPut(d, f.name, List(Checked(snap, f.name)));
    if other in snap.values {
      LookupPut(Put(d, f.name, List(Checked(snap, f.name))), other, Str(Trim(snap.values[other])));
    }
  }

  /** Saving stores a text box's or select's raw, untrimmed value, when the input is on the page. */
  lemma SavedInput(fs: seq<Field>, d: Entries<FieldValue>, snap: Snapshot, i: int)
    requires DistinctNames(fs) && NoOtherClash(fs)
    requires 0 <= i < |fs| && fs[i].kind != MultiSelect
    ensures Lookup(SaveFields(fs, d, snap), fs[i].name) ==
              if fs[i].name in snap.values then Some(Str(snap.values[fs[i].name])) else Lookup(d, fs[i].name)
  {
    var f := fs[i];
    SaveOwned(fs, d, snap, i, f.name);
    if f.name in snap.values {
      LookupPutSame(d, f.name, Str(snap.values[f.name]));
    }
  }

  class DomIntakeForm {
    var currentStep: int
    var formData: Entries<FieldValue>
    var phase: Phase

    ghost predicate Valid()
      reads this
    {
      1 <= currentStep <= TotalSteps && UniqueKeys(formData)
    }

    constructor ()
      ensures Valid() && currentStep == 1 && formData == [] && phase == Filling
    {
      currentStep := 1;
      formData := [];
      phase := Filling;
    }

    /**
     * Checks the current step's required fields in order and stops at the first
     * empty one, which the page highlights (`flagged`).
     */
    method ValidateCurrentStep(snap: Snapshot) returns (ok: bool, flagged: Option<nat>)
      requires Valid() && Covers(FieldsOf(currentStep), snap)
      ensures ok <==> StepPasses(FieldsOf(currentStep), snap)
      ensures ok <==> flagged.None?
      ensures flagged.Some? ==>
                flagged.value < |FieldsOf(currentStep)| &&
                FieldFails(FieldsOf(currentStep)[flagged.value], snap) &&
                forall j :: 0 <= j < flagged.value ==> !FieldFails(FieldsOf(currentStep)[j], snap)
    {
      var fields := FieldsOf(currentStep);
      var i := 0;
      while i < |fields|
        invariant 0 <= i <= |fields|
        invariant forall j :: 0 <= j < i ==> !FieldFails(fields[j], snap)
      {
        var field := fields[i];
        if field.required {
          if field.kind == MultiSelect {
            if |Checked(snap, field.name)| == 0 {
              return false, Some(i);
            }
          } else {
            var input := snap.values[field.name];
            if Trim(input) == "" {
              return false, Some(i);
            }
          }
        }
        i := i + 1;
      }
      return true, None;
    }

    /** Copies the current step's inputs into the answers. */
    method SaveCurrentStepData(snap: Snapshot)
      requires Valid()
      modifies this`formData
      ensures Valid()
      ensures formData == SaveFields(FieldsOf(currentStep), old(formData), snap)
    {
      var fields := FieldsOf(currentStep);
      ghost var start := formData;
      for i := 0 to |fields|
        invariant formData == SaveFields(fields[..i], start, snap)
        invariant UniqueKeys(formData)
      {
        var field := fields[i];
        SaveFieldsExtend(fields, i, start, snap);
        ghost var before := formData;
        if field.kind == MultiSelect {
          formData := Put(formData, field.name, List(Checked(snap, field.name)));
          var other := field.name + "_other";
          if other in snap.values && Trim(snap.values[other]) != "" {
            formData := Put(formData, other, Str(Trim(snap.values[other])));
          }
        } else if field.name in snap.values {
          formData := Put(formData, field.name, Str(snap.values[field.name]));
        }
        assert formData == SaveField(field, before, snap);
      }
      assert fields[..|fields|] == fields;
    }

    /**
     * The Next / Submit button: nothing happens unless the step validates;
     * then the step is saved and the wizard moves on, or on the last step the
     * answers are sent.
     */
    method HandleSubmit(snap: Snapshot) returns (sent: Option<Entries<FieldValue>>)
      requires Valid() && phase == Filling && Covers(FieldsOf(currentStep), snap)
      modifies this`currentStep, this`formData, this`phase
      ensures Valid()
      ensures !StepPasses(FieldsOf(old(currentStep)), snap) ==>
                currentStep == old(currentStep) && formData == old(formData) && phase == Filling && sent == None
      ensures StepPasses(FieldsOf(old(currentStep)), snap) ==>
                formData == SaveFields(FieldsOf(old(currentStep)), old(formData), snap)
      ensures StepPasses(FieldsOf(old(currentStep)), snap) && old(currentStep) < TotalSteps ==>
                currentStep == old(currentStep) + 1 && phase == Filling && sent == None
      ensures StepPasses(FieldsOf(old(currentStep)), snap) && old(currentStep) == TotalSteps ==>
                currentStep == TotalSteps && phase == Submitting && sent == Some(formData)
    {
      var ok, _ := ValidateCurrentStep(snap);
      if !ok {
        return None;
      }
      SaveCurrentStepData(snap);
      if currentStep < TotalSteps {
        currentStep := currentStep + 1;
        sent := None;
      } else {
        phase := Submitting;
        sent := Some(formData);
      }
    }

    /** The Back button, rendered only after the first step: save, then step back. */
    method GoBack(snap: Snapshot)
      requires Valid() && phase == Filling && BackVisible(currentStep)
      modifies this`currentStep, this`formData
      ensures Valid()
      ensures formData == SaveFields(FieldsOf(old(currentStep)), old(formData), snap)
      ensures currentStep == old(currentStep) - 1
    {
      SaveCurrentStepData(snap);
      currentStep := currentStep - 1;
    }

    /** The request settles: success view for an ok response, error view otherwise. */
    method SettleSubmission(r: FetchResult)
      requires phase == Submitting
      modifies this`phase
      ensures phase == Settle(r)
    {
      phase := Settle(r);
    }
  }
}
