/**
 * The lead-intake wizard's fixed configuration, shared by both of its
 * implementations: four steps, each an ordered list of fields; the step
 * indicator strip; the navigation controls; and the outcome of the final
 * submission.
 */
module IntakeConfig {
  import opened Options

  datatype FieldKind = TextInput | UrlInput | EmailInput | Select | MultiSelect

  datatype Field = Field(name: string, caption: string, kind: FieldKind, options: seq<string>, required: bool)

  datatype Step = Step(id: nat, title: string, subtitle: Option<string>, fields: seq<Field>)

  /** A stored answer: one string, or the list of ticked options of a multi-choice field. */
  datatype FieldValue = Str(s: string) | List(items: seq<string>)

  /** The option that reveals a free-text box next to a multi-choice field. */
  const OtherOption := "Other"

  /** The key under which the free text of a multi-choice field is stored. */
  function OtherName(name: string): string {
    name + "_other"
  }

  const Steps: seq<Step> := [
    Step(1, "Company Info", None, [
      Field("company", "Company Name", TextInput, [], true),
      Field("website", "Website URL", UrlInput, [], false),
      Field("industry", "Industry", Select,
        ["SaaS", "Agency", "E-commerce", "Professional Services", "Healthcare", "Finance", "Other"], true)
    ]),
    Step(2, "Current Situation", None, [
      Field("currentOutreach", "Current Monthly Outreach Volume", Select,
        ["None", "Under 1,000", "1,000 - 5,000", "5,000 - 20,000", "20,000+"], true),
      Field("teamSize", "Sales/Marketing Team Size", Select,
        ["Just me", "2-5 people", "6-15 people", "15+"], false)
    ]),
    Step(3, "What challenges are you facing?", Some("Select all that apply"), [
      Field("painPoints", "", MultiSelect, [
        "Not booking enough meetings from outreach",
        "Cold emails getting ignored or landing in spam",
        "No system to track and close deals",
        "Website isn't generating leads or conversions",
        "Can't keep up with content creation",
        "Manual tasks eating up too much time",
        "Other"
      ], true)
    ]),
    Step(4, "Contact Details", None, [
      Field("name", "Your Name", TextInput, [], true),
      Field("email", "Email Address", EmailInput, [], true),
      Field("timeline", "When do you want to get started?", Select,
        ["As soon as possible", "Within the next month", "In 1-3 months", "Just exploring options"], true)
    ])
  ]

  const TotalSteps: nat := 4

  /** The fields shown on step `step` (1-based). */
  function FieldsOf(step: int): seq<Field>
    requires 1 <= step <= TotalSteps
  {
    Steps[step - 1].fields
  }

  /** Names of the multi-choice fields of the whole wizard. */
  function MultiSelectNames(): set<string> {
    set k, j | 0 <= k < |Steps| && 0 <= j < |Steps[k].fields| && Steps[k].fields[j].kind == MultiSelect
      :: Steps[k].fields[j].name
  }

  /** No two fields of a step share a name. */
  predicate DistinctNames(fs: seq<Field>) {
    forall i, j :: 0 <= i < j < |fs| ==> fs[i].name != fs[j].name
  }

  /** No field of a step is named like the free-text key of a multi-choice field of that step. */
  predicate NoOtherClash(fs: seq<Field>) {
    forall i, j :: 0 <= i < |fs| && 0 <= j < |fs| && fs[i].kind == MultiSelect ==> OtherName(fs[i].name) != fs[j].name
  }

  /** The step ids run 1..4 in order. */
  lemma StepIds()
    ensures |Steps| == TotalSteps
    ensures forall i :: 0 <= i < |Steps| ==> Steps[i].id == i + 1
  {
  }

  /** On every step the field names are distinct and no field takes a free-text key. */
  lemma StepFieldsWellFormed(step: int)
    requires 1 <= step <= TotalSteps
    ensures DistinctNames(FieldsOf(step)) && NoOtherClash(FieldsOf(step))
  {
    var fs := FieldsOf(step);
    forall i, j | 0 <= i < |fs| && 0 <= j < |fs| && fs[i].kind == MultiSelect
      ensures OtherName(fs[i].name) != fs[j].name
    {
      assert step == 3;
      assert |OtherName(fs[i].name)| != |fs[j].name|;
    }
  }

  /** A configured field has a multi-choice name exactly when it is a multi-choice field. */
  lemma MultiSelectNameIffKind(step: int, i: int)
    requires 1 <= step <= TotalSteps && 0 <= i < |FieldsOf(step)|
    ensures FieldsOf(step)[i].name in MultiSelectNames() <==> FieldsOf(step)[i].kind == MultiSelect
  {
    OnlyPainPointsIsMultiSelect();
    var f := FieldsOf(step)[i];
    if f.kind == MultiSelect {
      assert step == 3 && i == 0;
    } else {
      assert |f.name| != |"painPoints"|;
    }
  }

  /** The only multi-choice field of the wizard is "painPoints". */
  lemma OnlyPainPointsIsMultiSelect()
    ensures MultiSelectNames() == {"painPoints"}
  {
    assert Steps[2].fields[0].name == "painPoints";
    forall k, j | 0 <= k < |Steps| && 0 <= j < |Steps[k].fields| && Steps[k].fields[j].kind == MultiSelect
      ensures Steps[k].fields[j].name == "painPoints"
    {
      assert k == 2 && j == 0;
    }
  }

  /** One box of the step indicator strip. */
  datatype Indicator = Indicator(completed: bool, active: bool)

  /** The classes of the `n` step indicators while step `current` is shown. */
  function Indicators(n: nat, current: int): (r: seq<Indicator>)
    ensures |r| == n
    ensures forall i :: 0 <= i < n ==> r[i] == Indicator(i + 1 < current, i + 1 == current)
  {
    if n == 0 then [] else Indicators(n - 1, current) + [Indicator(n < current, n == current)]
  }

  function CountActive(r: seq<Indicator>): nat {
    if r == [] then 0 else CountActive(r[..|r| - 1]) + (if r[|r| - 1].active then 1 else 0)
  }

  function CountCompleted(r: seq<Indicator>): nat {
    if r == [] then 0 else CountCompleted(r[..|r| - 1]) + (if r[|r| - 1].completed then 1 else 0)
  }

  /**
   * While a step within [1, n] is shown exactly one indicator is active, the
   * ones before it are completed, and no box is both.
   */
  lemma {:induction false} IndicatorCounts(n: nat, current: int)
    requires 1 <= current <= n
    ensures CountActive(Indicators(n, current)) == 1
    ensures CountCompleted(Indicators(n, current)) == current - 1
    ensures forall i :: 0 <= i < n ==> !(Indicators(n, current)[i].completed && Indicators(n, current)[i].active)
  {
    IndicatorPrefixCounts(n, current);
  }

  lemma {:induction false} IndicatorPrefixCounts(n: nat, current: int)
    requires 1 <= current
    ensures CountActive(Indicators(n, current)) == if current <= n then 1 else 0
    ensures CountCompleted(Indicators(n, current)) == if current <= n then current - 1 else n
  {
    if n > 0 {
      IndicatorPrefixCounts(n - 1, current);
      var r := Indicators(n, current);
      assert r[..|r| - 1] == Indicators(n - 1, current);
    }
  }

  /** The label of the primary button: "Submitting..." while a submission is in flight. */
  function PrimaryLabel(current: int, submitting: bool): string {
    if submitting then "Submitting..." else if current == TotalSteps then "Submit" else "Next"
  }

  /** The Back button is rendered only after the first step. */
  predicate BackVisible(current: int) {
    current > 1
  }

  /**
   * On any step of the wizard the button reads "Submit" exactly on the last
   * step and "Next" before it, and Back, when offered, leads to a step that exists.
   */
  lemma NavigationControls(current: int)
    requires 1 <= current <= TotalSteps
    ensures PrimaryLabel(current, false) == "Submit" <==> current == TotalSteps
    ensures PrimaryLabel(current, false) == "Next" <==> current < TotalSteps
    ensures BackVisible(current) ==> 1 <= current - 1 < TotalSteps
    ensures !BackVisible(current) <==> current == 1
  {
  }

  /** Where the wizard is: filling in steps, awaiting the endpoint, or finished. */
  datatype Phase = Filling | Submitting | Succeeded | Failed

  /** What the submission request came back with: a response (ok or not), or a thrown error. */
  datatype FetchResult = Responded(ok: bool) | Threw

  /** The view after the request settles: success only for an ok response; no retry. */
  function Settle(r: FetchResult): (p: Phase)
    ensures p == Succeeded || p == Failed
    ensures p == Succeeded <==> r == Responded(true)
  {
    match r
    case Responded(ok) => if ok then Succeeded else Failed
    case Threw => Failed
  }
}
