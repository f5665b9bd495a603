# Form builder core, modelled in Dafny

This project models the editing core of a drag-and-drop form builder
written in React/TypeScript. It covers four parts:

- The builder session (`FormBuilder.tsx`). It holds the live field list,
  the form settings, name and description, and a linear undo/redo history
  of snapshots with a cursor. Every edit handler (add from the palette,
  update, delete, move up/down, duplicate, name/description change)
  commits one snapshot. Undo and redo restore a snapshot under a
  re-entrancy guard. The session is written to local storage and restored
  from it by a 24-hour freshness rule.
- The respondent-side validation engine and the submit state machine
  (`FormValidation.tsx`). Validation runs per field in a fixed order:
  the required check, then empty means valid, then the e-mail pattern,
  then "ten digits after stripping non-digits" for phone fields.
- The canvas (`FormCanvas.tsx`). It holds the palette drop target with its
  drag counter. A drop of one field onto another becomes one single-step
  move per position between the two.
- The field card's inline editor (`FormField.tsx`). It keeps draft values,
  edits the option lists, and on save emits one partial update whose
  shape depends on the field type.

Modules, one per source component plus two shared ones:

| file | module | models |
|---|---|---|
| `js_text.dfy` | `JsText` | `trim()`, `\s`, the `\D` strip, `String(array)` |
| `form_model.dfy` | `FormModel` | fields, partial updates, snapshots, templates, values, and the list operations the handlers are built from |
| `history.dfy` | `EditHistory` | the history list with its cursor: commit, undo, redo |
| `form_builder.dfy` | `Builder` | class `FormBuilder` (the session), the restore rule, local storage as a map |
| `form_validation.dfy` | `Validation` | `validateField`, `validateForm`, class `SubmitController`, value-map updates |
| `form_canvas.dfy` | `Canvas` | class `FormCanvas` (drag state) and the reorder walk |
| `form_field.dfy` | `FieldCard` | option-list operations, the save update, class `Editor` |

Environment inputs are explicit. Local storage is a `map` from key to
blob. The clock is a parameter `now`. `uuidv4()` is the fresh-id oracle
`FreshId`, which returns an id that no field, live or in history, uses.
The asynchronous `onSubmit` is split at its `await`: `HandleSubmit` runs
up to it, and `SubmitSettled(succeeded)` runs the rest.

Behaviours of the code that the model keeps as they are:

- `handleUpdate` and `handleDelete` commit a history entry even when no
  field has the id.
- Persistence is not debounced. The code writes the whole session on every
  state change, on `beforeunload` and on unmount. Its timers only drive the
  "saving" indicator.
- The submit hook has no single-flight guard of its own. Only the submit
  button prevents a second submission: it is rendered only for a
  non-empty field list and is disabled while submitting
  (`SubmitController.SubmitEnabled`).
- The field `type` is a free string, not a closed enumeration. So the
  "Field" fallback label of `getDefaultLabel` is reachable and is modelled.

## Model

| member | source | states |
|---|---|---|
| `JsText.TrimEmptyIff` | src/components/builder/FormValidation.tsx:51 | `s.trim()` is empty exactly when every character of `s` is ECMAScript whitespace |
| `JsText.TrimIsTrimmed` | src/components/builder/FormField.tsx:97-98 | a trimmed string neither starts nor ends with whitespace, and trimming is idempotent |
| `JsText.TrimStart` | src/components/builder/FormField.tsx:97 | the result is a suffix of the input, everything cut off is whitespace, and it does not start with whitespace |
| `JsText.TrimEnd` | src/components/builder/FormField.tsx:97 | the result is a prefix of the input, everything cut off is whitespace, and it does not end with whitespace |
| `JsText.Trim` | src/components/builder/FormValidation.tsx:51 | `trim()` returns a piece of the string that neither starts nor ends with whitespace, with only whitespace cut off on either side |
| `JsText.JoinComma` | src/components/builder/FormValidation.tsx:64 | `String(array)` of the empty array is `""`; otherwise the text starts with the first item and ends with the last |
| `JsText.Digits` | src/components/builder/FormValidation.tsx:75 | `replace(/\D/g, '')` leaves only digits and never lengthens the string |
| `JsText.DigitsOfDigits` | src/components/builder/FormValidation.tsx:75 | stripping non-digits changes nothing in an all-digit string |
| `JsText.DigitsAppend` | src/components/builder/FormValidation.tsx:75 | the digits of a concatenation are the concatenation of the digits |
| `JsText.DashedDigits` | src/components/builder/FormValidation.tsx:73-75 | a dash-separated number strips to its digit groups run together |
| `FormModel.IndexOf` | src/components/builder/FormBuilder.tsx:408 | `findIndex`: -1 exactly when the id is absent, otherwise the first position holding it |
| `FormModel.IndexOfDistinct` | src/components/builder/FormBuilder.tsx:432 | with distinct ids, `findIndex` of a field's id is that field's position |
| `FormModel.Find` | src/components/builder/FormBuilder.tsx:423-424 | `find`: nothing exactly when the id is absent, otherwise the field at `findIndex` |
| `FormModel.Ids` | src/components/builder/FormBuilder.tsx:375 | the ids of a field list, position by position |
| `FormModel.FreshId` | src/components/builder/FormBuilder.tsx:375 | the id oracle for `uuidv4()` returns a non-empty id outside the given set |
| `FormModel.GetDefaultLabel` | src/components/builder/FormBuilder.tsx:47-59 | the table's label for the eight known types, and "Field" for any other type that is not a key the label object inherits |
| `FormModel.NewField` | src/components/builder/FormBuilder.tsx:373-381 | a palette field: default label, not required, placeholder `Enter <type>...` except on a dropdown, `options=[]` only on a dropdown, `checkboxOptions=[]` only on a checkbox |
| `FormModel.Merge` | src/components/builder/FormBuilder.tsx:394 | `{...field, ...updates}` never changes the id or the type, and an empty update changes nothing |
| `FormModel.MergeIdempotent` | src/components/builder/FormBuilder.tsx:394 | merging the same update twice equals merging it once |
| `FormModel.UpdateById` | src/components/builder/FormBuilder.tsx:392-398 | length, order and ids are kept, non-matching fields are unchanged, the matching field gets the merge, an absent id changes nothing, distinct ids stay distinct |
| `FormModel.Without` | src/components/builder/FormBuilder.tsx:400-404 | the filter removes every field with the id and keeps every other field |
| `FormModel.WithoutAbsent` | src/components/builder/FormBuilder.tsx:401 | deleting an absent id leaves the list as it is |
| `FormModel.WithoutCutsOut` | src/components/builder/FormBuilder.tsx:400-404 | with distinct ids, delete cuts exactly the field's position out, so the rest keep their relative order |
| `FormModel.WithoutAppend` | src/components/builder/FormBuilder.tsx:401 | the filter distributes over concatenation |
| `FormModel.WithoutKeepsDistinct` | src/components/builder/FormBuilder.tsx:400-404 | delete keeps the ids pairwise distinct |
| `FormModel.Swap` | src/components/builder/FormBuilder.tsx:417 | the destructuring swap exchanges two positions and leaves every other position fixed |
| `FormModel.SwapKeepsDistinct` | src/components/builder/FormBuilder.tsx:406-420 | a move keeps the ids pairwise distinct |
| `FormModel.InsertAt` | src/components/builder/FormBuilder.tsx:433-434 | `splice(i, 0, x)` puts `x` at `i`, keeps the prefix and shifts the suffix by one |
| `FormModel.InsertKeepsDistinct` | src/components/builder/FormBuilder.tsx:434 | inserting a field whose id is new keeps the ids distinct |
| `FormModel.DuplicateKeepsDistinct` | src/components/builder/FormBuilder.tsx:422-437 | a copy under an unused id, inserted after its source, keeps the ids distinct and sits at `sourceIndex + 1` |
| `FormModel.Relocate` | src/components/builder/FormCanvas.tsx:125-135 | the intended result of a drag: the dragged field lands at the target index, the fields between shift by one, the rest stay put |
| `FormModel.RelocateStepDown` | src/components/builder/FormCanvas.tsx:127-129 | one more "down" swap moves the dragged field one further along the walk |
| `FormModel.RelocateStepUp` | src/components/builder/FormCanvas.tsx:132-134 | one more "up" swap moves the dragged field one further along the walk |
| `FormModel.RelocateInPlace` | src/components/builder/FormCanvas.tsx:125-135 | relocating a field to its own position changes nothing |
| `FormModel.InitializeFormFields` | src/components/builder/FormBuilder.tsx:102-109 | template fields keep their length, order, labels and every other attribute, and get pairwise distinct ids unused before |
| `EditHistory.History.Commit` | src/components/builder/FormBuilder.tsx:250-269 | keeps the entries up to the cursor, appends the snapshot and points the cursor at it; the cursor stays in range and nothing is left to redo |
| `EditHistory.History.Undo` | src/components/builder/FormBuilder.tsx:272-285 | one step back when the cursor is above 0, otherwise no change; the entries are never modified |
| `EditHistory.History.Redo` | src/components/builder/FormBuilder.tsx:288-301 | one step forward when the cursor is below the last index, otherwise no change; the entries are never modified |
| `EditHistory.EnabledIffEffective` | src/components/builder/FormBuilder.tsx:542-543 | `canUndo` holds iff undo changes something, and `canRedo` iff redo does |
| `EditHistory.UndoThenRedo` | src/components/builder/FormBuilder.tsx:272-301 | redo after undo returns to the same cursor and snapshot |
| `EditHistory.RedoThenUndo` | src/components/builder/FormBuilder.tsx:272-301 | undo after redo returns to the same cursor and snapshot |
| `EditHistory.CommitUndoRedo` | src/components/builder/FormBuilder.tsx:250-301 | after a commit, undo shows the previous snapshot and redo restores the committed one exactly |
| `EditHistory.CommitAfterUndoDropsTail` | src/components/builder/FormBuilder.tsx:262-263 | an edit made after an undo replaces the redo tail with the new snapshot |
| `Builder.ShouldRestore` | src/components/builder/FormBuilder.tsx:164 | without a template a stored blob is always restored; with one, exactly when it is less than 24 hours old (the definition of the rule; `Builder.FreshnessWindow` and `Builder.Mount` prove what follows from it) |
| `Builder.MountAsWritten` | src/components/builder/FormBuilder.tsx:324-342 | the mount as the two effects are written: with a template, the template session whatever the blob; without one, the same as `Builder.Mount` |
| `Builder.Neighbour` | src/components/builder/FormBuilder.tsx:416 | the position a move trades with: one before for "up", one after for "down" (the definition; `Builder.AtBoundary` and `Builder.FormBuilder.HandleMove` prove what a move does with it) |
| `Builder.AtBoundary` | src/components/builder/FormBuilder.tsx:409-414 | for a listed id, the early-return guard holds exactly when the neighbour in that direction lies outside the list |
| `Builder.FormBuilder.CanUndo` | src/components/builder/FormBuilder.tsx:542 | `canUndo` is on exactly when undo would change the history |
| `Builder.FormBuilder.CanRedo` | src/components/builder/FormBuilder.tsx:543 | `canRedo` is on exactly when redo would change the history |
| `Builder.Restored` | src/components/builder/FormBuilder.tsx:165-170 | a consistent stored blob gives a session with a valid cursor and the blob's fields and history |
| `Builder.TitleOf` | src/components/builder/FormBuilder.tsx:118 | the form title is never empty: the template's title, or "Untitled Form" |
| `Builder.TemplateSession` | src/components/builder/FormBuilder.tsx:324-342 | the template effect installs the template's fields under fresh distinct ids with everything else kept, a non-empty title as name, and a one-entry history of exactly that state |
| `Builder.Mount` | src/components/builder/FormBuilder.tsx:156-179 | a stored blob that passes the restore rule is shown verbatim; otherwise the template, if any, is installed; otherwise the initial state stays |
| `Builder.FreshnessWindow` | src/components/builder/FormBuilder.tsx:164 | with a template, a blob younger than 24 hours is restored and an older one is discarded |
| `Builder.MountAsWrittenIgnoresBlob` | src/components/builder/FormBuilder.tsx:156-179 | with the effects in their written order, a template makes the stored blob irrelevant |
| `Builder.MountAsWrittenLosesFreshBlob` | src/components/builder/FormBuilder.tsx:324-342 | a blob saved this millisecond passes the restore rule, yet the written mount shows the template instead |
| `Builder.FormBuilder.constructor` | src/components/builder/FormBuilder.tsx:112-145 | initial state: template fields under fresh ids, title defaulting to "Untitled Form", a one-entry history, cursor 0, guard down |
| `Builder.FormBuilder.SaveToHistory` | src/components/builder/FormBuilder.tsx:250-269 | commits the live state, or does nothing while the restore guard is up; the session stays valid |
| `Builder.FormBuilder.HandleDrop` | src/components/builder/FormBuilder.tsx:373-385 | appends exactly one palette field with an id never used before, keeps the existing fields, and commits |
| `Builder.FormBuilder.HandleUpdate` | src/components/builder/FormBuilder.tsx:392-398 | the fields become the update-by-id result (unchanged for an absent id), and a snapshot is committed either way |
| `Builder.FormBuilder.HandleDelete` | src/components/builder/FormBuilder.tsx:400-404 | the field's position is cut out (nothing changes for an absent id), and a snapshot is committed either way |
| `Builder.FormBuilder.HandleMove` | src/components/builder/FormBuilder.tsx:406-420 | at the boundary, neither the fields nor the history change; otherwise the field swaps with its neighbour and one snapshot is committed |
| `Builder.FormBuilder.HandleDuplicate` | src/components/builder/FormBuilder.tsx:422-437 | an absent id changes nothing and commits nothing; otherwise a copy under a never-used id is inserted at `sourceIndex + 1` and one snapshot is committed |
| `Builder.FormBuilder.PlaceCopy` | src/components/builder/FormBuilder.tsx:426-434 | inserts the copy right after its source and keeps the session valid |
| `Builder.FormBuilder.HandleFormDetailsUpdate` | src/components/builder/FormBuilder.tsx:462-468 | replaces the given name and/or description, keeps the others, and commits |
| `Builder.FormBuilder.Undo` | src/components/builder/FormBuilder.tsx:272-285 | moves the cursor back, restores that snapshot and raises the guard; at cursor 0 nothing changes; the history list is never modified |
| `Builder.FormBuilder.Redo` | src/components/builder/FormBuilder.tsx:288-301 | moves the cursor forward, restores that snapshot and raises the guard; at the last entry nothing changes; the history list is never modified |
| `Builder.FormBuilder.ReleaseGuard` | src/components/builder/FormBuilder.tsx:281-283 | the zero-delay timer lowers the guard |
| `Builder.FormBuilder.Blob` | src/components/builder/FormBuilder.tsx:187-195 | the written blob carries the time of writing and restores to exactly the current session |
| `Builder.FormBuilder.SaveToLocalStorage` | src/components/builder/FormBuilder.tsx:182-216 | writes the session under its key, leaves every other key alone, and a blob read back right away passes the restore rule |
| `Builder.FormBuilder.LoadSavedState` | src/components/builder/FormBuilder.tsx:156-179 | restores the blob verbatim (fields, settings, name, description, history, cursor) exactly when the rule allows it; otherwise nothing changes |
| `Builder.FormBuilder.InitFromTemplate` | src/components/builder/FormBuilder.tsx:324-342 | installs the template session with a reset one-entry history |
| `Builder.FormBuilder.MountSession` | src/components/builder/FormBuilder.tsx:156-179 | the mount as the restore rule intends it (see `Builder.Mount`) |
| `Builder.FormBuilder.HandleFieldChange` | src/components/builder/FormBuilder.tsx:345-359 | a value marks its field completed iff it is defined and not `""`; other fields and unknown ids are untouched |
| `Validation.CharIndex` | src/components/builder/FormValidation.tsx:63 | the first position of a character, or -1 exactly when it does not occur |
| `Validation.IsEmail` | src/components/builder/FormValidation.tsx:63-64 | an accepted address holds no whitespace, has exactly one `@`, not in first position, and is at least 5 characters long |
| `Validation.IsEmailMatchesPattern` | src/components/builder/FormValidation.tsx:63-64 | the string predicate accepts exactly the strings `^[^\s@]+@[^\s@]+\.[^\s@]+$` matches |
| `Validation.IsEmailSplits` | src/components/builder/FormValidation.tsx:63-64 | every string the predicate accepts matches the pattern |
| `Validation.SplitIsEmail` | src/components/builder/FormValidation.tsx:63-64 | every string the pattern matches is accepted by the predicate |
| `Validation.EmailAccepted` | src/components/builder/FormValidation.tsx:62-70 | "a@b.com" is a valid e-mail address |
| `Validation.EmailRejected` | src/components/builder/FormValidation.tsx:62-70 | "abc", "a@b", "@b.com" and "a@.com" are not |
| `Validation.ValidateField` | src/components/builder/FormValidation.tsx:46-84 | an error names the field and carries one of the three messages; on a falsy value there is an error exactly when the field is required |
| `Validation.RequiredComesFirst` | src/components/builder/FormValidation.tsx:50-56 | a required field with a falsy or whitespace-only value gets exactly "<label> is required" and no other check |
| `Validation.RequiredMessageDistinct` | src/components/builder/FormValidation.tsx:54-78 | whatever the label, "<label> is required" differs from both format messages |
| `Validation.RequiredOnlyWhenBlank` | src/components/builder/FormValidation.tsx:50-59 | the required message appears iff the field is required and its value is falsy or trims to nothing; a falsy value of a field that is not required gets no error |
| `Validation.EmailRule` | src/components/builder/FormValidation.tsx:62-70 | a non-empty e-mail value fails, with the e-mail message, exactly when the pattern does not match |
| `Validation.PhoneRule` | src/components/builder/FormValidation.tsx:73-81 | a non-empty phone value is valid exactly when ten digits remain after stripping non-digits |
| `Validation.PhoneExamples` | src/components/builder/FormValidation.tsx:73-81 | "123-456-7890" is a valid phone number and "12345" gets the phone message |
| `Validation.NoFormatErrorForOtherKinds` | src/components/builder/FormValidation.tsx:61-83 | types other than e-mail and phone can only get the required message |
| `Validation.Errors` | src/components/builder/FormValidation.tsx:86-98 | the error list of a form is no longer than its field list, and every error names one of its fields |
| `Validation.ValidateForm` | src/components/builder/FormValidation.tsx:86-98 | the loop builds exactly the per-field error list, in field order |
| `Validation.ErrorsInFieldOrder` | src/components/builder/FormValidation.tsx:86-98 | at most one error per field, each naming a field of the form, in field order |
| `Validation.ErrorsComplete` | src/components/builder/FormValidation.tsx:91-95 | every field's own error is in the list |
| `Validation.EmptySubmission` | src/components/builder/FormValidation.tsx:86-98 | on an empty value map, the errors are exactly one "<label> is required" per required field, in order |
| `Validation.SubmitController.constructor` | src/components/builder/FormValidation.tsx:42-44 | no errors, not submitting, not submitted |
| `Validation.SubmitController.SubmitEnabled` | src/components/builder/FormValidation.tsx:434-438 | the submit button can be pressed exactly when the form shows at least one field (the button is rendered only then), nothing is being submitted, and the form is not yet submitted (after that the thank-you panel replaces it); the definition of the condition, whose consequences `Validation.SubmitController.HandleSubmit` and `Validation.SubmitController.SubmitSettled` prove |
| `Validation.SubmitController.HandleSubmit` | src/components/builder/FormValidation.tsx:100-115 | with validation errors, they are published, submitting ends and `onSubmit` is not reached; without them, the errors are cleared, the values go to `onSubmit` and the button is disabled; a rejection needs at least one field and leaves the button enabled unless the form was already submitted; an empty field list goes straight to `onSubmit`; `isSubmitted` is unchanged |
| `Validation.SubmitController.SubmitSettled` | src/components/builder/FormValidation.tsx:117-129 | success sets `isSubmitted`; failure leaves exactly the one "form" error; submitting is false afterwards in both cases, so the button is enabled again exactly when the form shows a field and was not submitted |
| `Validation.SetValue` | src/components/builder/FormValidation.tsx:163-169 | an input change sets that field's key and no other |
| `Validation.Remove` | src/components/builder/FormValidation.tsx:318 | the filter removes every occurrence of the value and keeps every other value |
| `Validation.RemoveAbsent` | src/components/builder/FormValidation.tsx:318 | unchecking a value that is not in the list keeps the list |
| `Validation.RemoveAppend` | src/components/builder/FormValidation.tsx:318 | the filter distributes over concatenation |
| `Validation.Toggle` | src/components/builder/FormValidation.tsx:315-318 | checking appends the value; unchecking removes every occurrence and keeps every other value |
| `Validation.CheckThenUncheck` | src/components/builder/FormValidation.tsx:314-320 | checking then unchecking a value not yet checked gives back the same list |
| `Validation.CheckedValues` | src/components/builder/FormValidation.tsx:315 | `formData[id] \|\| []`: the stored list, or the empty list for a missing or empty value (the definition; `Validation.CheckboxChange` and `Validation.CheckThenUncheck` prove what a toggle does with it) |
| `Validation.CheckboxChange` | src/components/builder/FormValidation.tsx:314-320 | the toggle result is stored under the field's id and no other key changes |
| `Canvas.Trail` | src/components/builder/FormCanvas.tsx:125-135 | the walk commits one snapshot per move, and the j-th holds the list with the dragged field relocated j + 1 positions towards the target |
| `Canvas.WalkedStep` | src/components/builder/FormCanvas.tsx:127-134 | one more commit extends the walked history by the next snapshot |
| `Canvas.ControlsMatchMoves` | src/components/builder/FormCanvas.tsx:232-233 | `isFirst` holds iff a move up is a no-op, and `isLast` iff a move down is |
| `Canvas.FormCanvas.constructor` | src/components/builder/FormCanvas.tsx:48-51 | no highlight, counter 0, no dragged or hovered field |
| `Canvas.FormCanvas.DragOver` | src/components/builder/FormCanvas.tsx:59-63 | raises the highlight |
| `Canvas.FormCanvas.DragEnter` | src/components/builder/FormCanvas.tsx:65-69 | counts one more enter and raises the highlight |
| `Canvas.FormCanvas.DragLeave` | src/components/builder/FormCanvas.tsx:71-77 | counts one leave and clears the highlight when the counter read at the event was at most 1 |
| `Canvas.FormCanvas.HandleDrop` | src/components/builder/FormCanvas.tsx:79-87 | resets the counter and the highlight; adds one palette field iff the type is non-empty, under an id never used before, appended after the existing fields, with one history entry committed |
| `Canvas.FormCanvas.FieldDragStart` | src/components/builder/FormCanvas.tsx:89-94 | records the dragged field |
| `Canvas.FormCanvas.FieldDragOver` | src/components/builder/FormCanvas.tsx:96-101 | highlights the hovered field unless it is the dragged one |
| `Canvas.FormCanvas.FieldDragLeave` | src/components/builder/FormCanvas.tsx:103-107 | clears the hovered field |
| `Canvas.FormCanvas.FieldDragEnd` | src/components/builder/FormCanvas.tsx:141-144 | clears both drag ids |
| `Canvas.FormCanvas.HandleFieldDrop` | src/components/builder/FormCanvas.tsx:109-139 | no drag or a drop onto itself: nothing moves and both ids are cleared; an unlisted id: nothing moves; otherwise exactly abs(target - source) moves in the right direction put the field at the target index, one snapshot per move, and both ids are cleared |
| `Canvas.MoveOnce` | src/components/builder/FormCanvas.tsx:128 | one `onMove` of the walk swaps the dragged field with its neighbour and commits once |
| `Canvas.WalkDown` | src/components/builder/FormCanvas.tsx:125-129 | `target - source` "down" moves relocate the field to the target index, with one commit each |
| `Canvas.WalkUp` | src/components/builder/FormCanvas.tsx:130-135 | `source - target` "up" moves relocate the field to the target index, with one commit each |
| `Canvas.StaleMoveBurst` | src/components/builder/FormCanvas.tsx:127-134 | N moves in one handler as written: with N > 0 away from the boundary, one swap, the history of one commit, and the cursor moved by N |
| `Canvas.StaleBurstOutcome` | src/components/builder/FormCanvas.tsx:127-134 | moves issued in one handler against a stale list swap once, commit once and push the cursor past the end of the history |
| `Canvas.StaleBurstWitness` | src/components/builder/FormCanvas.tsx:127-129 | dragging the first of three fields onto the third leaves it in the middle, with the cursor at 2 in a two-entry history |
| `FieldCard.AddOption` | src/components/builder/FormField.tsx:96-101 | a non-blank input is appended trimmed at the end; a blank one changes nothing |
| `FieldCard.AddedOptionIsTrimmed` | src/components/builder/FormField.tsx:97-98 | an added option is non-empty and neither starts nor ends with whitespace |
| `FieldCard.RemoveOptionSplices` | src/components/builder/FormField.tsx:103-105 | removing an index in range drops exactly that entry and keeps the order of the rest; any other index removes nothing |
| `FieldCard.RemoveOption` | src/components/builder/FormField.tsx:104 | the list is one shorter exactly when the index is in range |
| `FieldCard.AddThenRemove` | src/components/builder/FormField.tsx:96-105 | removing the option just added gives the list back |
| `FieldCard.ReplaceOption` | src/components/builder/FormField.tsx:288-292 | the inline edit replaces only the entry at the edited index |
| `FieldCard.ReplaceBack` | src/components/builder/FormField.tsx:288-292 | typing the old text back restores the list |
| `FieldCard.SavePatch` | src/components/builder/FormField.tsx:69-75 | the save writes all five attributes: the draft label and required flag, the placeholder except on a dropdown, and each option list only on its own type (`undefined` otherwise) |
| `FieldCard.DraftOf` | src/components/builder/FormField.tsx:42-46 | the draft takes the field's values; a missing placeholder or option list reads as empty |
| `FieldCard.SaveNormalizes` | src/components/builder/FormField.tsx:68-77 | after a save, `options` exists only on a dropdown, `checkboxOptions` only on a checkbox, the placeholder is undefined only on a dropdown, and the label and required flag are the draft's |
| `FieldCard.SaveUneditedIsIdentity` | src/components/builder/FormField.tsx:68-77 | saving an unedited draft of a well-shaped field changes nothing |
| `FieldCard.NewFieldIsCanonical` | src/components/builder/FormBuilder.tsx:373-381 | a palette field already has the shape a save produces |
| `FieldCard.Editor.constructor` | src/components/builder/FormField.tsx:41-48 | not editing, drafts taken from the field, both new-option inputs empty |
| `FieldCard.Editor.Resync` | src/components/builder/FormField.tsx:52-58 | a new field prop resets every draft value |
| `FieldCard.Editor.SetDraft` | src/components/builder/FormField.tsx:80-84 | the five draft setters together install a whole draft |
| `FieldCard.Editor.StartEditing` | src/components/builder/FormField.tsx:219 | opens the editor |
| `FieldCard.Editor.HandleSave` | src/components/builder/FormField.tsx:68-77 | hands the builder the save update for this field's id, which commits it, and closes the editor |
| `FieldCard.Editor.HandleCancel` | src/components/builder/FormField.tsx:79-86 | resets every draft value to the field's and closes the editor; the builder is not touched |
| `FieldCard.Editor.HandleKeyDown` | src/components/builder/FormField.tsx:88-94 | Ctrl+Enter saves (the update and its history commit, as `HandleSave`), Escape cancels, any other key changes nothing |
| `FieldCard.Editor.EditLabel` | src/components/builder/FormField.tsx:269 | the label input writes straight into the draft label |
| `FieldCard.Editor.EditPlaceholder` | src/components/builder/FormField.tsx:389 | the placeholder input writes straight into the draft placeholder |
| `FieldCard.Editor.EditRequired` | src/components/builder/FormField.tsx:406 | the required checkbox writes straight into the draft flag |
| `FieldCard.Editor.TypeNewOption` | src/components/builder/FormField.tsx:309 | the new-option input holds what was typed |
| `FieldCard.Editor.TypeNewCheckboxOption` | src/components/builder/FormField.tsx:361 | the new-checkbox-option input holds what was typed |
| `FieldCard.Editor.HandleAddOption` | src/components/builder/FormField.tsx:96-101 | appends the trimmed input and clears it; a blank input changes nothing |
| `FieldCard.Editor.HandleRemoveOption` | src/components/builder/FormField.tsx:103-105 | drops exactly the entry at the index |
| `FieldCard.Editor.EditOption` | src/components/builder/FormField.tsx:288-292 | replaces only the entry at the index |
| `FieldCard.Editor.HandleAddCheckboxOption` | src/components/builder/FormField.tsx:107-112 | the checkbox twin of add-option |
| `FieldCard.Editor.HandleRemoveCheckboxOption` | src/components/builder/FormField.tsx:114-116 | the checkbox twin of remove-option |
| `FieldCard.Editor.EditCheckboxOption` | src/components/builder/FormField.tsx:340-344 | the checkbox twin of the inline edit |

## Left out

- Rendering: JSX, styling and animation in all four components, and the
  UI-only pages and components around them.
- `handleShare`, `handleCopyLink`, the form id built from `Date.now()` and
  `uuidv4()`, and every network call. These are I/O through libraries the
  model cannot see.
- The simulated one-second `onSubmit` of the builder preview. `onSubmit`
  is an opaque collaborator whose outcome is the `succeeded` parameter of
  `SubmitSettled`.
- JSON parsing of the stored blob and its `try/catch`. `LoadSavedState`
  and `Mount` require `ConsistentBlob` (cursor in range, distinct ids in
  the fields and in every snapshot). A blob that fails it is not
  modelled. That includes a blob written after the reorder burst reported
  under Findings, whose cursor can point past the end of its history.
- Builder.FormBuilder.constructor: requires the template's fields to have
  distinct ids. The first history entry holds the template's raw fields,
  not the freshly numbered ones, and the model's invariant keeps ids
  distinct in every snapshot.
- Builder.FormBuilder.SaveToLocalStorage: a `setItem` that throws (quota,
  private mode) is caught and logged and leaves the store unchanged. The
  model always writes the blob.
- The optional `required?` flag of a field is a plain boolean, absent
  read as `false`, as every reader here does (`field.required &&`,
  `field.required || false`). A save of a field stored without the flag
  writes `required: false` into it; the model cannot tell that apart from
  the unedited field, so `FieldCard.SaveUneditedIsIdentity` does not see
  the key being added.
- FormModel.GetDefaultLabel: `labels[type] || "Field"` also finds keys
  the label object inherits (`constructor`, `toString`, `__proto__`), and
  returns a non-string for them. The model gives "Field" for every type
  outside the table's own eight keys.
- The timers of the "saving" indicator and the `setTimeout(…, 0)` that
  lowers the restore guard. A restore is atomic with the guard up, and
  `ReleaseGuard` is the timer firing.
- When the save effect runs. `SaveToLocalStorage` is the write itself.
  The model does not sequence the writes on every change, on `beforeunload`
  and on unmount.
- React batching and stale closures in general. The reorder walk is
  modelled as sequential moves that each see the previous move's result.
  What one handler's calls actually do is modelled separately and reported
  under Findings.
- Canvas.FormCanvas.DragLeave reads the counter at the event, as the
  handler's closure does. Two leave events within one render are not
  modelled.
- Validation.ValidateField: requires a text value for phone fields.
  A list there would make the source throw (`replace` is not a function
  on an array); the inputs only store lists under checkbox ids.
- Validation.CheckboxChange: requires the stored value to be a list,
  missing or `""`. With a non-empty string stored, unchecking calls
  `filter` on it and throws. Checking does not throw: it spreads the
  string into its characters and appends the value. The requires leaves
  out both cases, so the character-spreading check is not modelled.
- The option slug `toLowerCase().replace(/\s+/g, '-')` used as a
  checkbox's value. It depends on Unicode case mapping; the model toggles
  whatever value the input carries.
- The preview's progress percentage, which is floating-point arithmetic.
- The e-mail regular expression is stated as a string predicate and
  proved equal to a declarative reading of the pattern. No regex engine
  is modelled.

## Findings

| source | as written | input that shows it | evidently intended | confidence | as-written member | corrected member |
|---|---|---|---|---|---|---|
| src/components/builder/FormCanvas.tsx:125-135 | the loop calls `onMove` N times in one handler; each call sees the same `fields` and `currentHistoryIndex`, so all swap the same original list, the history gets one entry, and the cursor grows by N | fields `[a, b, c]`, drag `a` onto `c`: result `[b, a, c]`, history of 2 entries, cursor 2 (past the end) | the field lands at the target index, with one committed move per step | not executed; depends on React batching the state updates of one handler | `Canvas.StaleBurstWitness` | `Canvas.FormCanvas.HandleFieldDrop` |
| src/components/builder/FormBuilder.tsx:156-179, 324-342 | on mount, the restore effect runs first and the template effect second, so with a template the template's state always overwrites a restored session | a template with one field and a blob saved at `now` with no fields: the rule says restore, and the builder shows the template's field | a blob that passes the 24-hour rule is shown; the template is installed only otherwise | not executed; depends on effect order on mount | `Builder.MountAsWrittenLosesFreshBlob` | `Builder.MountSession` |
