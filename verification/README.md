# Botlytics intake wizard and ROI calculator, modelled in Dafny

This project models the two pieces of logic on the Botlytics site.

**The four-step lead-intake wizard.** It exists twice:
- a React component (`calculator/src/IntakeForm.jsx`);
- a plain script (`js/intake-form.js`) that renders HTML strings and reads the page's inputs back.

Both walk a visitor through the same step table. The table has four steps: company info, the current situation (outreach volume and team size), a multi-choice challenges question (`painPoints`) with an "Other" box, and contact details. Both validate the required fields of the current step, move forwards and backwards, and send the collected answers to Formspree on the last step.

**The ROI calculator** (`calculator/src/ROICalculator.jsx`). It has four numeric inputs, each with a text box and a slider:
- monthly lead volume;
- reply rate %;
- close rate %;
- average deal value.

It filters what is typed, parses it, and computes a revenue funnel.

The modules:

- `Options`: an `Option` type.
- `Text`: JavaScript whitespace, `trim`, `Array.join`, and a `split` used to show that a joined list can be taken apart again.
- `JsObject`: a JavaScript object with string keys, as an insertion-ordered list of entries. For keys that are not array indices (none of the wizard's field names is one), this is the key order that `Object.entries` and `JSON.stringify` see.
  - `Put` is `obj[k] = v`: it replaces the value of an existing key, or appends a new key.
- `IntakeConfig`: the step table, shared by both wizards.
  - It also holds the step-indicator classes, the primary button label, the Back control's visibility, and how a submission settles.
- `ReactIntake`: the React wizard as class `IntakeForm`.
  - Its fields are `currentStep`, `formData`, `errors` and `showOtherInput`, plus the submission phase.
  - The functions its methods are proved against are `RequiredErrors`, `Toggled` and `Flattened`.
- `DomIntake`: the script version as class `DomIntakeForm`.
  - Its fields are the script's module-level `currentStep` and `formData`.
  - The page's inputs at the moment a handler runs arrive as a `Snapshot` parameter.
- `IntakeAgreement`: the two wizards' validations agree once the script has saved the page into its answers.
- `RoiNumber`: the number handling of the calculator:
  - the input filters;
  - `Number(text)` on filtered text;
  - `Number(text) || 0`;
  - `String(n)`;
  - `formatNumber` (`Math.round`, then en-US digit grouping).
  - Numbers are exact decimals `units / 10^scale`.
- `RoiCalculator`: the funnel, and the calculator's state as class `Calculator`.
  - That state is the `inputs` numbers and the `displayValues` texts.

## Model

| member | source | states |
|---|---|---|
| IntakeConfig.StepIds | calculator/src/IntakeForm.jsx:4-55 | There are four steps, and step `i` (0-based) has id `i + 1`. |
| IntakeConfig.StepFieldsWellFormed | js/intake-form.js:15-66 | In every step, field names are distinct, and no field's `<name>_other` key is another field's name. |
| IntakeConfig.MultiSelectNameIffKind | calculator/src/IntakeForm.jsx:33 | A field of any step is multi-choice exactly when its name is a multi-choice name. |
| IntakeConfig.OnlyPainPointsIsMultiSelect | calculator/src/IntakeForm.jsx:4-55 | The only multi-choice field in the table is `painPoints`. |
| IntakeConfig.Indicators | calculator/src/IntakeForm.jsx:258-262 | There is one indicator per step. Indicator `i` is completed iff `i + 1 < currentStep`, and active iff `i + 1 == currentStep`. |
| IntakeConfig.IndicatorCounts | js/intake-form.js:123-130 | For `1 <= currentStep <= n`: exactly one indicator is active, `currentStep - 1` are completed, and none is both. |
| IntakeConfig.IndicatorPrefixCounts | js/intake-form.js:124-128 | The active and completed counts for any `currentStep >= 1`, including steps past the end. |
| IntakeConfig.PrimaryLabel | calculator/src/IntakeForm.jsx:291 | Definition of the main button's label. Its properties are in the NavigationControls row. |
| IntakeConfig.NavigationControls | js/intake-form.js:146-148 | The primary button reads "Submit" iff on the last step, and "Next" iff before it. Back is shown iff `currentStep > 1`, so going back stays within `[1, 4]`. |
| IntakeConfig.Settle | js/intake-form.js:271-279 | A submission succeeds iff the response was ok. A non-ok response and a thrown error both fail. |
| ReactIntake.PutWellTyped | calculator/src/IntakeForm.jsx:66-86 | Storing a list under a multi-choice name, or a string under another name, keeps every answer of the right shape. |
| ReactIntake.AnswerShape | calculator/src/IntakeForm.jsx:92-102 | A stored answer of a step's field is a list iff the field is multi-choice. This is the case split `validateStep` relies on. |
| ReactIntake.RequiredErrors | calculator/src/IntakeForm.jsx:88-104 | Every flag is `true`. A name is flagged iff some field of the step with that name is required and its answer is missing, blank after trimming, or an empty list. |
| ReactIntake.RequiredErrorsExtend | calculator/src/IntakeForm.jsx:92-104 | Checking one more field adds that field's flag iff it fails, and leaves the other flags alone. |
| ReactIntake.NoErrorsIffComplete | calculator/src/IntakeForm.jsx:106-107 | The error set is empty iff no required field of the step fails. |
| ReactIntake.Without | calculator/src/IntakeForm.jsx:75 | Filtering removes every occurrence of the option and keeps every other option as many times as it occurred; it changes nothing when the option is absent. |
| ReactIntake.WithoutConcat | calculator/src/IntakeForm.jsx:75 | `filter` works element by element: filtering a concatenation concatenates the filtered parts, so the other options keep their order. |
| ReactIntake.Toggled | calculator/src/IntakeForm.jsx:73-76 | Definition of the toggled option list. Its properties are in the ToggleMembership and ToggleTwice rows. |
| ReactIntake.ToggleMembership | calculator/src/IntakeForm.jsx:73-76 | After a toggle the option is present iff it was absent before. Every other option keeps its membership. |
| ReactIntake.ToggleTwice | calculator/src/IntakeForm.jsx:73-76 | Toggling twice restores the set of options. The list is restored exactly when the option was absent. When it was present, it ends up moved to the end (and de-duplicated). |
| ReactIntake.WithoutAppended | calculator/src/IntakeForm.jsx:74-76 | Removing an option just appended to a list without it gives the list back. |
| ReactIntake.Flattened | calculator/src/IntakeForm.jsx:117-124 | Definition of the submitted payload. Its properties are in the FlattenedLookup, PayloadListRecoverable and BuildSubmission rows. |
| ReactIntake.FlattenedLookup | calculator/src/IntakeForm.jsx:117-124 | The payload has the answers' keys, in their order, each once. Each list value is joined with ", ", and each string is passed unchanged. |
| ReactIntake.PayloadListRecoverable | calculator/src/IntakeForm.jsx:120 | A non-empty list of options without ", " in them can be split back out of its joined payload value. |
| ReactIntake.BuildSubmission | calculator/src/IntakeForm.jsx:117-124 | The loop over `Object.entries` builds exactly the flattened payload. |
| ReactIntake.IntakeForm.constructor | calculator/src/IntakeForm.jsx:59-62 | The wizard starts at step 1 with no answers, no errors, and the Other box hidden. |
| ReactIntake.IntakeForm.UpdateField | calculator/src/IntakeForm.jsx:66-69 | The value is stored under the name, and that name's error is cleared. Every other key of both maps is unchanged. |
| ReactIntake.IntakeForm.ToggleMultiSelect | calculator/src/IntakeForm.jsx:71-86 | The stored list becomes the toggled list, and that name's error is cleared. The Other box changes only when "Other" is toggled, and then shows iff "Other" is now selected. |
| ReactIntake.IntakeForm.ValidateStep | calculator/src/IntakeForm.jsx:88-108 | `errors` is replaced by exactly the current step's failing required fields. The result is true iff the step is complete. |
| ReactIntake.IntakeForm.HandleNext | calculator/src/IntakeForm.jsx:110-128 | Answers never change. An incomplete step stays put. A complete step before the last advances by one. The complete last step sends the flattened answers and starts submitting. |
| ReactIntake.IntakeForm.HandleBack | calculator/src/IntakeForm.jsx:130-132 | Only with Back on screen (step > 1): the step goes down by one and stays at least 1. |
| ReactIntake.IntakeForm.SettleSubmission | calculator/src/IntakeForm.jsx:215-245 | The submission ends in the success or the error view, as the response decides. |
| DomIntake.SaveField | js/intake-form.js:185-199 | Definition of saving one field. Its properties are in the SaveFieldElsewhere, SavedChoices, SavedOtherText and SavedInput rows. |
| DomIntake.SaveFields | js/intake-form.js:185-199 | Definition of saving a whole step, field by field in order. Its properties are in the SaveFieldsExtend, SaveUntouched and SaveOwned rows. |
| DomIntake.SaveFieldElsewhere | js/intake-form.js:185-199 | Saving a field touches only the keys that field owns. |
| DomIntake.OtherNameDistinct | js/intake-form.js:190 | Different fields have different `<name>_other` keys. |
| DomIntake.SaveFieldsExtend | js/intake-form.js:185 | Saving one more field applies that field's save to the result of the earlier ones. |
| DomIntake.SaveFieldsKeepsUnique | js/intake-form.js:183-201 | Saving keeps every key of the answers unique. |
| DomIntake.SaveUntouched | js/intake-form.js:183-201 | A key no field of the step owns keeps its old answer. |
| DomIntake.OnlyOwnerWrites | js/intake-form.js:185-199 | In a step, each key is owned by at most one field. |
| DomIntake.SaveOwned | js/intake-form.js:183-201 | A key owned by one field ends up as that field's own save made it. |
| DomIntake.SaveFieldSameInput | js/intake-form.js:185-199 | What a field writes under a key depends only on that key's old answer. |
| DomIntake.SavedChoices | js/intake-form.js:186-188 | A multi-choice field's answer becomes the list of ticked options, whether or not "Other" is ticked. |
| DomIntake.SavedOtherText | js/intake-form.js:189-193 | `<name>_other` becomes the trimmed text iff that text is not blank. Otherwise the previous value stays. |
| DomIntake.SavedInput | js/intake-form.js:194-199 | A text box or select stores its raw, untrimmed value when it is on the page, and keeps the old answer otherwise. |
| DomIntake.DomIntakeForm.constructor | js/intake-form.js:11-13 | The script starts at step 1 with no answers. |
| DomIntake.DomIntakeForm.ValidateCurrentStep | js/intake-form.js:203-225 | The result is true iff no required field of the step fails. When it fails, the flagged field is the first failing field in step order. |
| DomIntake.DomIntakeForm.SaveCurrentStepData | js/intake-form.js:183-201 | The answers become the current step's fields saved, first to last, over the old answers. |
| DomIntake.DomIntakeForm.HandleSubmit | js/intake-form.js:227-244 | A failing step changes neither the step nor the answers. A passing step saves first, then advances by one before the last step, or sends the answers on the last step. The step never exceeds 4. |
| DomIntake.DomIntakeForm.GoBack | js/intake-form.js:246-250 | Only with Back on screen (step > 1): the step's inputs are saved, then the step goes down by one. |
| DomIntake.DomIntakeForm.SettleSubmission | js/intake-form.js:252-280 | The submission ends in the success or the error view, as the response decides. |
| IntakeAgreement.ValidationAgrees | js/intake-form.js:203-225 | The script's page check passes iff the React check passes on the answers the script saves from that page. Each field the script would flag is among the React errors. |
| Text.LeadingBlanks | js/intake-form.js:191 | Counts the whitespace at the start: everything before the count is blank, and the character at the count is not whitespace. |
| Text.TrailingStart | js/intake-form.js:191 | Finds where the trailing whitespace begins: everything from there on is blank, and the character before it is not whitespace. |
| Text.Trim | calculator/src/IntakeForm.jsx:99 | The result is empty iff the input is all whitespace. Otherwise it starts and ends with a non-whitespace character. |
| Text.TrimMiddle | js/intake-form.js:191-192 | The input is its leading whitespace, then the trimmed text, then its trailing whitespace: `trim` removes only whitespace at the two ends. |
| Text.TrimBlank | calculator/src/IntakeForm.jsx:99 | Dropping the leading and then the trailing whitespace leaves nothing iff the string is blank. |
| Text.TrimKeeps | js/intake-form.js:192 | A string with no whitespace at either end trims to itself. |
| Text.TrimIdempotent | js/intake-form.js:192 | Trimming twice is trimming once. |
| Text.FindFrom | calculator/src/IntakeForm.jsx:120 | The result is the first occurrence of the separator at or after `from`, or -1 when there is none. |
| Text.Join | calculator/src/IntakeForm.jsx:120 | Definition of `Array.prototype.join`. Its properties are in the SplitJoin, NoSepFound and FirstSepAfter rows. |
| Text.SplitJoin | calculator/src/IntakeForm.jsx:120 | Splitting `xs.join(', ')` at ", " gives `xs` back, when no element contains ", ". |
| Text.NoSepFound | calculator/src/IntakeForm.jsx:120 | A text without ", " splits into itself alone. |
| Text.FirstSepAfter | calculator/src/IntakeForm.jsx:120 | In `x + ", " + rest`, with no ", " in `x`, the first separator is right after `x`. |
| JsObject.Lookup | calculator/src/IntakeForm.jsx:95 | A key is missing iff it is not among the keys. A found value is stored under that key. |
| JsObject.Put | calculator/src/IntakeForm.jsx:67 | An existing key keeps its place. A new key is appended. Keys stay unique, and no other entry appears. |
| JsObject.ConsUnique | calculator/src/IntakeForm.jsx:67 | An entry list with a first entry has unique keys iff its tail does and the first key is not in the tail. |
| JsObject.PutHead | calculator/src/IntakeForm.jsx:67 | Overwriting the first key keeps the key order and unique keys, and adds no other entry. |
| JsObject.PutBehind | calculator/src/IntakeForm.jsx:67 | Writing a key further back keeps the first entry in front, so `Put`'s key order, uniqueness and entries carry over from the tail. |
| JsObject.LookupPutSame | js/intake-form.js:197 | After `obj[k] = v`, reading `k` gives `v`. |
| JsObject.LookupPutOther | js/intake-form.js:197 | After `obj[k] = v`, every other key reads as before. |
| JsObject.LookupPut | calculator/src/IntakeForm.jsx:67 | Both facts at once, for every key. |
| JsObject.LookupAt | calculator/src/IntakeForm.jsx:118 | With unique keys, each entry's key reads back that entry's value. |
| RoiNumber.Clean | calculator/src/ROICalculator.jsx:51 | The filtered text is no longer than the input, and holds only digits (plus `.` for percentages). |
| RoiNumber.CleanCons | calculator/src/ROICalculator.jsx:51 | The filter handles the first character on its own, then filters the rest. |
| RoiNumber.CleanConcat | calculator/src/ROICalculator.jsx:51 | Filtering works character by character: filtering a concatenation concatenates the filtered parts. |
| RoiNumber.CleanCounts | calculator/src/ROICalculator.jsx:51 | The filter keeps every kept character as often as it occurs, and drops every other character. |
| RoiNumber.CleanInOrder | calculator/src/ROICalculator.jsx:51 | The filtered text is a subsequence of the input: kept characters stay in their original order. |
| RoiNumber.CleanFixpoint | calculator/src/ROICalculator.jsx:51 | The filter leaves a text unchanged iff every character of it is kept. |
| RoiNumber.CleanIdempotent | calculator/src/ROICalculator.jsx:51 | Filtering twice is filtering once, for both filters. |
| RoiNumber.DigitsValueConcat | calculator/src/ROICalculator.jsx:53 | The value of two digit strings written together is the first shifted left by the second's length, plus the second. |
| RoiNumber.DecimalDigits | calculator/src/ROICalculator.jsx:44 | `String(n)` of a whole number is a non-empty digit string with value `n`. It starts with `0` only for `n = 0`, so it never has a leading zero. |
| RoiNumber.DecimalDigitsLength | calculator/src/ROICalculator.jsx:44 | A number below `10^k` is written in at most `k` digits. |
| RoiNumber.PadStart | calculator/src/ROICalculator.jsx:4 | Padding a numeral with leading zeros keeps its value and reaches the width. |
| RoiNumber.FirstDot | calculator/src/ROICalculator.jsx:53 | The first `.` of the text, with none before it. |
| RoiNumber.ToNumber | calculator/src/ROICalculator.jsx:53 | Definition of `Number(...)` on digit and dot text, with `None` for NaN. Its properties are in the ToNumberNaN, NumberOrZero, SplitAtDot and NumberStringParses rows. |
| RoiNumber.ToNumberNaN | calculator/src/ROICalculator.jsx:53 | `Number` of filtered text is NaN, so that `|| 0` applies, exactly when the text has two or more dots or is a lone dot. |
| RoiNumber.NumberOrZero | calculator/src/ROICalculator.jsx:53 | Text that is not a number gives 0. A number keeps its value. |
| RoiNumber.Normalize | calculator/src/ROICalculator.jsx:44 | The shortest form of a decimal has no trailing zero after the point. |
| RoiNumber.NormalizeValue | calculator/src/ROICalculator.jsx:44 | Dropping trailing fraction zeros keeps the number. |
| RoiNumber.NumberString | calculator/src/ROICalculator.jsx:44 | Definition of `String(x)`: the normalised number in plain notation. Its properties are in the NumberStringParses and PercentRoundTrip rows. |
| RoiNumber.NumberStringParses | calculator/src/ROICalculator.jsx:44 | `Number(String(x))` is `x`: the printed text parses back to the number, in its shortest form. |
| RoiNumber.SplitAtDot | calculator/src/ROICalculator.jsx:53 | Digits, a dot, then digits parse to the whole part shifted by the fraction's length, plus the fraction. |
| RoiNumber.FirstDotAfter | calculator/src/ROICalculator.jsx:53 | After a run of digits, the first dot is the one that follows them. |
| RoiNumber.PointedDigits | calculator/src/ROICalculator.jsx:53 | Digits on both sides of the one dot parse to their combined value. |
| RoiNumber.PercentRoundTrip | calculator/src/ROICalculator.jsx:59 | `String(x)` of a percentage passes the percent filter unchanged and parses back to `x`. |
| RoiNumber.FormatNumber | calculator/src/ROICalculator.jsx:3-5 | Definition of `formatNumber`: round, then group by thousands with commas. Its properties are in the GroupDigits, WholeRoundTrip and FiveThousandShown rows. |
| RoiNumber.GroupDigits | calculator/src/ROICalculator.jsx:4 | Removing the commas from an en-US grouped number leaves the digits of that number. |
| RoiNumber.CleanGroup | calculator/src/ROICalculator.jsx:4 | The digit filter drops a group separator and keeps a three-digit group whole. |
| RoiNumber.WholeRoundTrip | calculator/src/ROICalculator.jsx:61 | Typing back `formatNumber(x)` through the digit filter gives `Math.round(x)`. |
| RoiCalculator.Funnel | calculator/src/ROICalculator.jsx:31-38 | Definition of the `useMemo` funnel; its properties are in the FunnelClosedForm, FunnelZero, FunnelMonotone and InitialFunnel rows. |
| RoiCalculator.FunnelClosedForm | calculator/src/ROICalculator.jsx:31-38 | Replies are `volume × reply% / 100`; closed deals are `volume × reply% × close% / 10000`; monthly revenue is that times the deal value, and annual revenue twelve times monthly. |
| RoiCalculator.FunnelZero | calculator/src/ROICalculator.jsx:32-35 | There are no replies iff volume or reply rate is 0. There are no deals iff one of those or the close rate is 0. Revenue is 0 iff some input is 0. |
| RoiCalculator.FunnelMonotone | calculator/src/ROICalculator.jsx:32-35 | With non-negative inputs, raising any input never lowers any result. |
| RoiCalculator.InitialFunnel | calculator/src/ROICalculator.jsx:17-22 | 5000 leads at 5% and 10% with $5,000 deals give 250 replies, 25 deals, $125,000 a month and $1,500,000 a year. |
| RoiCalculator.BlurRetypeKeepsValue | calculator/src/ROICalculator.jsx:57-63 | Typing back what a box shows after losing focus stores the same number again. |
| RoiCalculator.WholeRetype | calculator/src/ROICalculator.jsx:61 | A whole number shown by `formatNumber` and typed back through the digit filter gives the same number. |
| RoiCalculator.InitialState | calculator/src/ROICalculator.jsx:17-29 | Each initial text is its initial number as the field's formatter writes it, and the initial numbers give 250, 25, 125,000 and 1,500,000. |
| RoiCalculator.FiveThousandShown | calculator/src/ROICalculator.jsx:25 | `formatNumber(5000)` is "5,000". |
| RoiCalculator.InitialDisplays | calculator/src/ROICalculator.jsx:24-29 | The initial texts "5,000", "5" and "10" are what the formatters write for the initial numbers. |
| RoiCalculator.Calculator.constructor | calculator/src/ROICalculator.jsx:17-38 | Starts from the initial inputs, each shown as its formatter writes it, and the results above. |
| RoiCalculator.Calculator.HandleInputChange | calculator/src/ROICalculator.jsx:50-55 | The box shows the filtered text, and the field holds `Number(text) \|\| 0`. No other field changes in either map. |
| RoiCalculator.Calculator.HandleSliderChange | calculator/src/ROICalculator.jsx:40-48 | The field holds the slider's number. The box shows `String(n)` for the two rates and `formatNumber(n)` otherwise. No other field changes. |
| RoiCalculator.Calculator.HandleInputBlur | calculator/src/ROICalculator.jsx:57-63 | Only the field's text changes: to `String(n)` for a percentage, or `formatNumber(n)` otherwise. The numbers are unchanged. |

## Left out

- The Formspree calls are left out: `useForm`/`handleFormspreeSubmit` in the React wizard, and `fetch` in the script. They are network I/O and asynchronous.
  - The payload sent is returned from `HandleNext`/`HandleSubmit`.
  - The reply arrives as a `FetchResult` parameter of `SettleSubmission`.
- The "Try Again" button reloads the page, which restarts the wizard from scratch; that is the constructor again.
- Rendering is left out: the HTML strings, JSX, event wiring, focus and scrolling, and CSS class toggles. The `console.error` log in `submitForm`'s catch is left out too; it has no effect on the wizard. Of the markup, only the parts that decide behaviour are modelled: the indicator classes, the button label, and whether Back is rendered.
- The script's `document.getElementById`/`querySelectorAll` reads are the `Snapshot` parameter.
  - `validateCurrentStep` dereferences a missing required input and would throw. `ValidateCurrentStep` and `HandleSubmit` require that every required text box or select is on the page (`Covers`), which rendering guarantees.
- DomIntake.DomIntakeForm.ValidateCurrentStep: the `error` class and the focus it puts on the first failing field are reduced to returning that field's index.
- ReactIntake.IntakeForm.HandleBack and DomIntake.DomIntakeForm.GoBack require Back to be on screen (`currentStep > 1`). The handlers are reachable only through that button.
  - At step 1 the code does not treat going back as a no-op: there is no Back control at all.
- ReactIntake.IntakeForm.HandleNext and DomIntake.DomIntakeForm.HandleSubmit require the wizard to be filling in. The React button is disabled while submitting; the script replaces the form with a spinner.
- React's batched state updates are modelled as taking effect when each handler returns.
  - `toggleMultiSelect` calls `setShowOtherInput` from inside a `setFormData` updater; it is modelled as running once.
- ReactIntake.IntakeForm.UpdateField and ToggleMultiSelect require the name's kind to match the handler: text boxes and selects call `updateField`, checkboxes call `toggleMultiSelect`. This is the only way the markup calls them.
- JsObject: key order is insertion order. JavaScript lists array-index keys ("0", "42") first, in ascending numeric order. None of the wizard's field names is an array index, so the model does not cover such keys.
- Both wizards declare the same step table; it is modelled once, in `IntakeConfig`. Placeholders are left out because they are display-only.
- RoiNumber.NumberString writes plain notation for every number. JavaScript's `String` switches to exponent notation below 1e-6 and from 1e21 upwards. Typed text parsed by `Number` is exact here, while JavaScript rounds it to a double and gives `Infinity` beyond about 309 digits.
- Floating-point arithmetic is left out. The funnel is computed over exact reals, and the inputs are exact decimals.
- `formatCurrency` (the dollar display of the two revenue results) is left out because it is display-only. `formatNumber` is modelled for whole numbers. `FormatNumber` rounds halves up, and writes `-` before negative numbers, which the calculator never produces.
- RoiCalculator.Calculator.HandleSliderChange requires the slider's value to be a number. A range input always reports one.
- The other scripts are not part of this model: mobile navigation, image lightbox, nav scroll, scroll blur, the use-case loader, React mounting and the build configuration. They are DOM, timer and network glue.
