/**
 * The two implementations of the wizard check a step differently: the DOM
 * version reads the page and stops at the first empty required field, the
 * component version flags every empty required field of its stored answers.
 * They accept the same steps.
 */
module IntakeAgreement {
  import opened JsObject
  import opened IntakeConfig
  import ReactIntake
  import DomIntake

  /**
   * On any step of the wizard whose required inputs are on the page, the DOM
   * check passes exactly when, once the page is saved into the answers, the
   * component check finds no error; and the field the DOM version flags is one
   * the component version flags too.
   */
  lemma ValidationAgrees(step: int, d: Entries<FieldValue>, snap: DomIntake.Snapshot)
    requires 1 <= step <= TotalSteps && DomIntake.Covers(FieldsOf(step), snap)
    ensures var saved := DomIntake.SaveFields(FieldsOf(step), d, snap);
            DomIntake.StepPasses(FieldsOf(step), snap) <==> ReactIntake.StepComplete(FieldsOf(step), saved)
    ensures var saved := DomIntake.SaveFields(FieldsOf(step), d, snap);
            forall i :: 0 <= i < |FieldsOf(step)| && DomIntake.FieldFails(FieldsOf(step)[i], snap) ==>
              FieldsOf(step)[i].name in ReactIntake.RequiredErrors(FieldsOf(step), saved)
  {
    var fs := FieldsOf(step);
    var saved := DomIntake.SaveFields(fs, d, snap);
    StepFieldsWellFormed(step);
    forall i | 0 <= i < |fs|
      ensures DomIntake.FieldFails(fs[i], snap) <==> ReactIntake.FailsRequired(fs[i], saved)
    {
      if fs[i].kind == MultiSelect {
        DomIntake.SavedChoices(fs, d, snap, i);
      } else {
        DomIntake.SavedInput(fs, d, snap, i);
      }
    }
  }
}
