# RSVP core of "boda-en-tarifa", modelled in Dafny

The wedding site lets a signed-in guest fill in a Spanish RSVP form. The form has seven questions: attendance,
accommodation management, nights staying (plus a free-text "other" combination), room sharing,
transportation, dietary restrictions and main course. The guest's answers live in the `useRSVPForm` hook.
The hook validates them, keeps a dirty flag and auto-saves a draft 30 seconds after the last edit.
A final submission is saved once the form validates. Persistence is one document per user id in a
document store. Each update merges the new answers into the stored ones, bumps a version number
and keeps the first `submittedAt`. An admin view counts the documents. Around the form sit a four-step
progress bar, the checkbox group used for multi-choice questions, the typography helpers, and the
English/Spanish text table with its lookup `t`.

This project models that core as pure Dafny functions over immutable data and proves properties
about it.

| file | module | models |
|---|---|---|
| `wrappers.dfy` | `Wrappers` | `Option` and `Result` (a thrown error becomes `Failure`) |
| `js_values.dfy` | `JsValues` | the JavaScript value semantics the code relies on: truthiness, `trim() === ''`, `includes`, `!v \|\| v.length === 0`, object literals with later keys overriding earlier ones |
| `rsvp_types.dfy` | `RsvpTypes` | `RSVPResponse` as a partial map from `Field` to `Value`, the enum unions, `RSVP_FORM_CONFIG`, `DEFAULT_RSVP_RESPONSE`, `AUTO_SAVE_CONFIG` |
| `validation.dfy` | `Validation` | `RSVPValidation`: `validateResponse`, `isFormValid`, `getFieldError`, and the unit tests as lemmas |
| `cleaning.dfy` | `Cleaning` | `cleanRSVPResponse` |
| `persistence.dfy` | `Persistence` | `RSVPService`: save (create or merge-update), get, delete, over a store `map<userId, Submission>` |
| `statistics.dfy` | `Statistics` | `getRSVPStatistics` |
| `auto_save_service.dfy` | `AutoSaveService` | the static `AutoSaveService`: one shared debounce timer and one in-flight flag |
| `form_session.dfy` | `FormSession` | the `useRSVPForm` hook as a transition system, with its effects folded into each step |
| `session_scenarios.dfy` | `SessionScenarios` | end-to-end runs of the hook: a new guest answering and submitting, and a guest changing one answer |
| `form_progress.dfy` | `FormProgress` | the `FormProgress` component's count and percentage |
| `checkbox_group.dfy` | `CheckboxGroup` | `handleChange` and the ticked state of `CheckboxGroup` |
| `typography.dfy` | `Typography` | the class-name and CSS-variable tables, `combineTypographyClasses`, `createResponsiveTypography` |
| `language.dfy` | `Language` | the two translation tables, the current language and `t` |

## How the model reads the code

- **Responses.** A `Partial<RSVPResponse>` is a `map<Field, Value>` whose values fit the declared type of
  their property. `Value` is `Undef | Null | Text | List`.
  - A missing key and an explicitly stored `undefined` are kept apart. The spread merge and `Object.entries`
    see the difference; property reads and `JSON.stringify` do not.
  - `Get` reads a missing key as `Undef`.
- **Time and failure.**
  - Time is a natural number of milliseconds.
  - Every call into the remote store takes a `fault` flag. When it is set, the call throws the operation's
    generic Spanish error.
  - The store itself is a value that each operation returns.
- **The hook.**
  - Every callback of `useRSVPForm` is one step. The step applies the callback's state updates and then the
    effects they trigger:
    - the validation-and-dirty effect when `responses` is replaced;
    - the `hasValidated` effect;
    - the auto-save effect, which clears the timer and re-arms it for `now + 30000` when auto-save is
      enabled, the form is dirty and nothing is saving.
  - The pending timer is the field `timerDueAt`. A `TimerElapses` event fires it when it arrives at or after
    the due time.
  - The dirty check compares the serialized working copy with the last-saved copy. Serialization drops
    `undefined` properties.
  - `atDefaultObject` records that `responses` is the `DEFAULT_RSVP_RESPONSE` object itself. React skips
    a state update to the same object, and `resetForm` depends on that.
- **Behaviour modelled exactly as written**, with a lemma for each:
  - A final submission and every draft write send the RAW working copy. Only the `AutoSaveService` cleans
    first. Explicit empty values therefore overwrite stored answers on update (`Persistence.RawPayloadOverwrites`).
  - An auto-save after a submission writes `isSubmitted: false`. The stored document is demoted to a draft,
    while the hook keeps reporting `isSubmitted` (`FormSession.AutoSaveAfterSubmitDemotes`).
  - `resetForm`'s `setErrors({})` is immediately overwritten by the validation effect with the default
    response's errors. The exception is when `responses` already was the default object
    (`FormSession.ResetForm`).
  - After a failed submit, a successful retry still shows the `submit` error. Neither `responses` nor
    `hasValidated` changed, so no effect clears it (`FormSession.SubmitErrorSurvivesRetry`).
  - The progress bar counts four questions: attendance, nights, transportation and main course. It can show
    100% for a form that does not validate (`FormProgress.CompleteButInvalid`).
  - `AutoSaveService`'s private `isDirty` treats a whitespace-only string as content. `cleanRSVPResponse` then
    drops it, so nothing is written (`AutoSaveService.BlankTextIsNotWritten`).
- **Consequences of the code worth knowing**, each stated by a lemma:
  - Only `AutoSaveService.performAutoSave` cleans the responses. `saveRSVPResponse` merges whatever payload
    it is given, and the hook passes the raw working copy (`Persistence.RawPayloadOverwrites`).
  - Create-time validation looks at the raw responses, not the cleaned ones. The two verdicts coincide
    (`Cleaning.CleanPreservesValidation`).
  - There is no per-user write queue. The hook's `isSaving` only guards its own auto-save, and
    `submitForm` does not wait for it. Each step here completes its write before the next step, so races
    are not modelled (see "Left out").
  - Four answers (attendance, nights, transportation, main course) are not enough to submit: accommodation
    and room sharing are also required, and the submit is refused with exactly those two errors
    (`SessionScenarios.FourAnswersCannotBeSubmitted`). With the two answers added, the submit creates
    version 1 (`SessionScenarios.SixAnswersCreateFinalDocument`). The stored responses are the raw working
    copy, including the default empty strings.

## Model

| member | source | states |
|---|---|---|
| `RsvpTypes.FieldNamesDistinct` | src/types/rsvp.ts:21-43 | The eight response property names are pairwise distinct, so an error record keyed by field is the source's record keyed by name. |
| `RsvpTypes.FormConfigRequiredFields` | src/types/rsvp.ts:104-190 | Exactly six questions carry `required: true`: attendance, accommodation, nights, room sharing, transportation and main course. |
| `RsvpTypes.FormConfigCoversFields` | src/types/rsvp.ts:104-190 | The configuration asks each response property exactly once, and all eight are asked. |
| `RsvpTypes.AttendanceQuestionTyped` | src/types/rsvp.ts:105-115 | The attendance question is a radio whose option values are exactly the `AttendanceStatus` union. |
| `RsvpTypes.AccommodationQuestionTyped` | src/types/rsvp.ts:116-125 | The accommodation question is a radio whose option values are exactly the `AccommodationManagement` union. |
| `RsvpTypes.NightsQuestionTyped` | src/types/rsvp.ts:126-137 | The nights question is a checkbox list whose option values are exactly the `NightOption` union. |
| `RsvpTypes.TransportationQuestionTyped` | src/types/rsvp.ts:158-169 | The transportation question is a checkbox list whose option values are exactly the `TransportationNeed` union. |
| `RsvpTypes.MainCourseQuestionTyped` | src/types/rsvp.ts:178-189 | The main-course question is a radio whose option values are exactly the `MainCoursePreference` union. |
| `RsvpTypes.TextQuestionsTyped` | src/types/rsvp.ts:138-177 | The other-nights, room-sharing and dietary questions are text inputs without options, matching their string properties. |
| `RsvpTypes.FormConfigOptionsMatchTypes` | src/types/rsvp.ts:104-190 | Every question's input type and options agree with the declared type of the property it asks for. |
| `RsvpTypes.FormConfigConditional` | src/types/rsvp.ts:138-149 | The only conditional question is the optional other-nights text, shown when the nights list includes "other". |
| `RsvpTypes.AutoSaveConfigValues` | src/types/rsvp.ts:205-209 | Auto-save is enabled by default with a 30000 ms interval. |
| `Validation.ValidateResponse` | src/lib/firestore.ts:213-252 | The error record never has a dietary-restrictions key, and every message it holds is non-empty. |
| `Validation.GetFieldError` | src/lib/firestore.ts:265-268 | The result is non-empty exactly when the field has an error, and then it is that error's message. |
| `Validation.ValidateAtIndex` | src/lib/firestore.ts:213-252 | For each configured question, the validator reports it iff the question is demanded (required, or conditional and shown) and unanswered. |
| `Validation.ValidateAgreesWithConfig` | src/lib/firestore.ts:213-252 | The seven hand-written rules agree with the configuration's `required` flags and conditional rule, and report no other key. |
| `Validation.IsFormValidIffConfigSatisfied` | src/lib/firestore.ts:257-260 | `isFormValid` holds iff every question the configuration demands is answered. |
| `Validation.ValidateEmptyResponse` | src/lib/firestore.ts:213-252 | An empty response is reported on exactly the six required fields. |
| `Validation.ValidateDefaultResponse` | src/types/rsvp.ts:193-202 | The default response is reported on exactly the required fields, and not on the conditional one. |
| `Validation.OtherNightsRule` | src/lib/firestore.ts:231-234 | The other-nights error appears iff "other" is ticked and the combination text is missing or blank. |
| `Validation.CompleteResponseIsValid` | src/lib/firestore.ts:213-252 | Six truthy required answers without "other" make the form valid. |
| `Validation.DietaryNeverInspected` | src/lib/firestore.ts:213-252 | Changing the dietary answer never changes the error record. |
| `Validation.EmptyFormTest` | src/lib/__tests__/rsvp-validation.test.ts:6-16 | The empty form has errors on the six required fields. |
| `Validation.CompleteFormTest` | src/lib/__tests__/rsvp-validation.test.ts:18-30 | The complete test response has no errors and is valid. |
| `Validation.OtherNeedsCombinationTest` | src/lib/__tests__/rsvp-validation.test.ts:32-44 | Ticking "other" without a combination reports the other-nights error. |
| `Validation.NoOtherNoCombinationTest` | src/lib/__tests__/rsvp-validation.test.ts:46-58 | Without "other" the combination is not required. |
| `Validation.AttendanceOnlyIsInvalidTest` | src/lib/__tests__/rsvp-validation.test.ts:62-69 | A response with only attendance is invalid. |
| `Cleaning.CleanResponse` | src/lib/firestore.ts:272-296 | Cleaning keeps a property iff its value is not undefined, not an empty array and not a whitespace-only string, and keeps kept values unchanged. |
| `Cleaning.CleanIdempotent` | src/lib/firestore.ts:272-296 | Cleaning a cleaned response changes nothing. |
| `Cleaning.CleanKeepsOnlyMeaningfulValues` | src/lib/firestore.ts:272-296 | Every value left after cleaning is one cleaning keeps. |
| `Cleaning.EnumValuesNotBlank` | src/types/rsvp.ts:6-18 | No member of a string union is blank, so cleaning never drops a chosen enum answer. |
| `Cleaning.DroppedReadsAsMissing` | src/lib/firestore.ts:272-296 | Each value cleaning drops reads, under the validator's test for its field, as a missing answer. |
| `Cleaning.CleanPreservesValidation` | src/lib/firestore.ts:272-296 | Cleaning never changes the validator's error record. |
| `Persistence.MergeResponses` | src/lib/firestore.ts:47-51 | The merge has the union of the keys; incoming values win and the other stored values survive. |
| `Persistence.SaveRSVPResponse` | src/lib/firestore.ts:29-87 | Fails (with the generic save error) iff the store faults, or it would create a final submission that does not validate. An update merges, bumps the version and keeps `submittedAt`. A create writes version 1 at `now`. Other users' documents are untouched. |
| `Persistence.GetRSVPResponse` | src/lib/firestore.ts:93-112 | Fails only on a fault; otherwise returns the user's document, or null when there is none. |
| `Persistence.DeleteRSVPResponse` | src/lib/firestore.ts:117-125 | Fails only on a fault; otherwise removes exactly the user's document. |
| `Persistence.SaveKeepsKeyedByUser` | src/lib/firestore.ts:37-69 | Saving keeps every document under the id of the user it belongs to. |
| `Persistence.ValidSubmissionOnlyFailsOnFault` | src/lib/firestore.ts:53-56 | A final submission of a valid form fails only on a store fault. |
| `Persistence.DraftOnlyFailsOnFault` | src/lib/firestore.ts:29-87 | A draft save is never refused; it fails only on a store fault. |
| `Persistence.SaveThenGet` | src/lib/firestore.ts:29-112 | After a successful save, loading returns the written document with the saved answers and status. |
| `Persistence.DeleteThenGet` | src/lib/firestore.ts:93-125 | After a delete, loading finds no document. |
| `Persistence.DraftSaveDemotesSubmission` | src/lib/firestore.ts:60-69 | A draft save over a submitted document marks it not submitted. |
| `Persistence.RawPayloadOverwrites` | src/lib/firestore.ts:47-51 | An explicit value in the payload, even undefined, an empty string or an empty list, replaces the stored answer. |
| `Persistence.WritesBumpVersion` | src/lib/firestore.ts:60-69 | Over an existing document, n successful writes add n to the version, keep `submittedAt`, stamp the last write's time and leave other users alone. |
| `Persistence.SequentialWritesVersion` | src/lib/firestore.ts:29-87 | Starting without a document, n successful writes leave version n, the first write's `submittedAt` and the last write's `lastUpdatedAt`. |
| `Statistics.GetRSVPStatistics` | src/lib/firestore.ts:182-205 | The total is the number of documents; each of the five other counts is the number of positions in the listing whose document has attendance "yes", "no" or "maybe", is submitted, or is a draft; submitted plus drafts equals the total and the attendance counts fit within it. |
| `Statistics.CountWhereCountsIndices` | src/lib/firestore.ts:193-200 | A filtered count equals the number of listing positions whose document satisfies the filter. |
| `Statistics.CountWhereAppend` | src/lib/firestore.ts:193-200 | Counting a concatenated listing adds the counts of its parts. |
| `Statistics.StatisticsAddUp` | src/lib/firestore.ts:182-205 | The statistics of two listings put together are the field-by-field sums of their statistics. |
| `Statistics.CountWhereBounded` | src/lib/firestore.ts:193-200 | A filtered count never exceeds the listing's length. |
| `Statistics.SubmittedPlusDrafts` | src/lib/firestore.ts:198-199 | The submitted and draft counts partition the listing. |
| `Statistics.AttendanceCountsBounded` | src/lib/firestore.ts:195-197 | The yes, no and maybe counts add up to at most the total. |
| `Statistics.AttendanceCountsComplete` | src/lib/firestore.ts:195-197 | When every document has an attendance answer, the three counts add up to the total. |
| `AutoSaveService.ScheduleAutoSave` | src/lib/firestore.ts:306-324 | The pending save is replaced by one for these responses, due `delay` after now; the in-flight flag is unchanged. |
| `AutoSaveService.CancelAutoSave` | src/lib/firestore.ts:329-334 | No save is pending afterwards; the in-flight flag is unchanged. |
| `AutoSaveService.PerformAutoSave` | src/lib/firestore.ts:352-383 | A no-op while saving. Otherwise the cleaned responses are written as a draft iff they have content and cleaning leaves something and the store does not fault. Errors are swallowed and the flag ends clear. |
| `AutoSaveService.TimerElapsed` | src/lib/firestore.ts:319-323 | Before its due time, or with nothing pending, the timer changes nothing. |
| `AutoSaveService.AutoSaveWritesDraft` | src/lib/firestore.ts:368-374 | Whenever the timer's callback writes, the user's stored document is a draft. |
| `AutoSaveService.TimerLeavesNotSaving` | src/lib/firestore.ts:352-383 | After the callback the in-flight flag is clear, whether the save succeeded, failed or was skipped. |
| `AutoSaveService.RescheduleReplaces` | src/lib/firestore.ts:313-320 | For any two clock readings and delays, scheduling twice is the same as scheduling only the second save: the pending save holds the second responses, due at the second reading plus the second delay. |
| `AutoSaveService.BurstCollapses` | src/lib/firestore.ts:306-324 | After a burst of schedules only the last edit is pending, due one default delay after it. |
| `AutoSaveService.BurstSavesLastEditOnce` | src/lib/firestore.ts:306-383 | Once the delay after the last edit has passed, the timer writes exactly the last edit's cleaned responses as one draft and leaves the service idle. |
| `AutoSaveService.BlankTextIsNotWritten` | src/lib/firestore.ts:339-367 | A whitespace-only answer counts as content for the dirty check but is cleaned away, so nothing is written. |
| `FormSession.Rearm` | src/lib/hooks/useRSVPForm.ts:105-123 | The auto-save effect leaves a timer iff enabled, dirty and not saving; the timer is due 30000 ms after now; nothing else changes. |
| `FormSession.Revalidate` | src/lib/hooks/useRSVPForm.ts:62-69 | After `responses` changes, errors are the validator's record and `isDirty` holds iff the serialized copies differ. |
| `FormSession.AdoptSubmission` | src/lib/hooks/useRSVPForm.ts:52-59 | A stored submission becomes the working and the last-saved copy; the session is clean with no timer and carries the submission's status and time. |
| `FormSession.ApplyInitialData` | src/lib/hooks/useRSVPForm.ts:52-59 | Without initial data nothing changes; with it, its responses and submitted status are taken over. |
| `FormSession.LoadExistingData` | src/lib/hooks/useRSVPForm.ts:197-209 | A failed load or a missing document changes nothing; otherwise the stored document is adopted and the session is clean. |
| `FormSession.UpdateField` | src/lib/hooks/useRSVPForm.ts:135-143 | Only the edited property changes. The dirty flag and errors are recomputed, nothing saved or submitted changes, and the countdown restarts when the timer should arm. |
| `FormSession.ValidateForm` | src/lib/hooks/useRSVPForm.ts:146-150 | Errors become visible and equal the validator's record for the current responses; nothing else changes. |
| `FormSession.SubmitForm` | src/lib/hooks/useRSVPForm.ts:153-185 | An invalid form only shows its errors and writes nothing. A valid one succeeds iff the store does not fault; on success it writes the final submission and leaves the session submitted, clean and timer-free; on failure it shows the submit error. |
| `FormSession.AutoSaveTimerFires` | src/lib/hooks/useRSVPForm.ts:80-102 | Before the due time nothing happens. While saving or clean nothing is written. A due timer on a dirty form that is not saving writes the raw working copy as a draft when the store works, and the session becomes clean with the save time recorded and no timer. A faulting save leaves the store, the dirty flag and the last-saved copy as they were. After a due firing, a timer is armed, for 30000 ms later, exactly when the auto-save effect should arm one. |
| `FormSession.ResetForm` | src/lib/hooks/useRSVPForm.ts:188-194 | Responses and the last-saved copy become the default object, not dirty and not submitted; errors are empty only if the default object was already current, otherwise the default's errors; the timer is cleared whenever an effect re-runs and is untouched otherwise. |
| `FormSession.EnableAutoSave` | src/lib/hooks/useRSVPForm.ts:212-214 | Auto-save becomes enabled; when it was off, a timer is armed iff the form is dirty and not saving; when it was already on, nothing changes. |
| `FormSession.DisableAutoSave` | src/lib/hooks/useRSVPForm.ts:217-222 | Auto-save becomes disabled and the pending timer is cleared; nothing else changes. |
| `FormSession.Step` | src/lib/hooks/useRSVPForm.ts:36-249 | Each hook event keeps the effect-settled invariant. Only submit and timer events write; only edits make the form dirty; only validate and submit turn on `hasValidated`; other users' documents are untouched. |
| `FormSession.InitialConsistent` | src/lib/hooks/useRSVPForm.ts:38-49 | The freshly mounted hook is consistent, clean, has no timer and shows no errors. |
| `FormSession.RunKeepsConsistent` | src/lib/hooks/useRSVPForm.ts:62-123 | Every state reachable by a run of events keeps the effect-settled invariant. |
| `FormSession.ErrorsHiddenUntilValidated` | src/lib/hooks/useRSVPForm.ts:230 | Until a validate or submit event, the hook shows no errors. |
| `FormSession.OnlySubmitAndTimerWrite` | src/lib/hooks/useRSVPForm.ts:80-185 | A run without submit or timer events leaves the store unchanged. |
| `FormSession.CleanWithoutEdits` | src/lib/hooks/useRSVPForm.ts:62-69 | A clean session stays clean through any run without edits. |
| `FormSession.OtherUsersUntouched` | src/lib/hooks/useRSVPForm.ts:80-185 | No run of one user's hook adds, removes or changes another user's document. |
| `FormSession.EditsOnlyChangeWorkingCopy` | src/lib/hooks/useRSVPForm.ts:135-143 | A run of edits leaves the responses as the successive spreads of the edits; store, last-saved copy, submitted and validated flags are unchanged. |
| `FormSession.EditRestartsCountdown` | src/lib/hooks/useRSVPForm.ts:105-123 | An edit that leaves an enabled form dirty sets the timer to 30000 ms after the edit. |
| `FormSession.TimerBeforeDeadlineIsInert` | src/lib/hooks/useRSVPForm.ts:113-115 | A timer event before the due time changes nothing. |
| `FormSession.QuietPeriodSavesDraft` | src/lib/hooks/useRSVPForm.ts:80-123 | Thirty quiet seconds after a dirtying edit, the timer saves the edited copy as a draft stamped with the firing time, and the session becomes clean. |
| `FormSession.AutoSaveAfterSubmitDemotes` | src/lib/hooks/useRSVPForm.ts:80-102 | An auto-save after a submission keeps the hook's submitted flag but stores the document as a draft. |
| `FormSession.SubmitErrorSurvivesRetry` | src/lib/hooks/useRSVPForm.ts:72-77 | After a failed submit, a successful retry still shows the submit error. |
| `FormSession.SubmitSavesExactlyValidForms` | src/lib/hooks/useRSVPForm.ts:153-170 | A submit succeeds iff the form validates and the store does not fault, and only a successful submit writes. |
| `FormSession.FirstSubmitCreatesFinalDocument` | src/lib/hooks/useRSVPForm.ts:153-185 | A guest's first valid submit creates a final version-1 document holding the working copy, with the user's email and name or empty strings. |
| `FormSession.ResetThenValidate` | src/lib/hooks/useRSVPForm.ts:188-194 | Validating after a reset shows the default response's errors, with the session consistent, unsubmitted and timer-free. |
| `SessionScenarios.DefaultStartsBlank` | src/types/rsvp.ts:193-202 | The default response, and so the mounted hook's, has no accommodation answer and empty text answers. |
| `SessionScenarios.FourEditsSetFourFields` | src/lib/hooks/useRSVPForm.ts:135-143 | The four edits set attendance, nights, transportation and main course and leave the other properties as they were. |
| `SessionScenarios.TwoMoreEditsSetTwoFields` | src/lib/hooks/useRSVPForm.ts:135-143 | The two further edits set accommodation and room sharing and leave the other properties as they were. |
| `SessionScenarios.FourAnswersErrors` | src/lib/firestore.ts:213-252 | With those four answers and blank text, the validator reports exactly accommodation and room sharing. |
| `SessionScenarios.FourAnswersCannotBeSubmitted` | src/lib/hooks/useRSVPForm.ts:153-160 | A new guest who answers only those four questions cannot submit: nothing is stored and exactly two errors are shown. |
| `SessionScenarios.SubmitWithTwoErrors` | src/lib/hooks/useRSVPForm.ts:153-160 | A submit with those two errors fails, writes nothing and shows them. |
| `SessionScenarios.FourEditsLeaveTwoErrors` | src/lib/hooks/useRSVPForm.ts:135-143 | After the four edits from a blank form, the validator reports exactly the two missing answers. |
| `SessionScenarios.SixAnswersCreateFinalDocument` | src/lib/hooks/useRSVPForm.ts:153-185 | With all six required answers, the submit creates a final version-1 document with the guest's email, an empty display name and the raw working copy, including the empty dietary note. |
| `SessionScenarios.SixEditsCompleteTheForm` | src/lib/hooks/useRSVPForm.ts:135-143 | After the six edits the working copy validates, nothing is stored and the dietary note is still empty. |
| `SessionScenarios.AfterFourEdits` | src/lib/hooks/useRSVPForm.ts:135-143 | From a blank form, the working copy after the four edits holds those answers and the empty dietary note, and the store is unchanged. |
| `SessionScenarios.AfterTwoMoreEdits` | src/lib/hooks/useRSVPForm.ts:135-143 | The two further edits set accommodation and room sharing, leave every other answer as it was, and leave the store unchanged. |
| `SessionScenarios.SixAnswersValid` | src/lib/firestore.ts:213-252 | The six scenario answers pass validation. |
| `SessionScenarios.ChangeDietaryNoteAfterSubmitting` | src/lib/firestore.ts:44-51 | Reloading a valid stored submission, changing only the dietary note and resubmitting bumps the version by one, keeps `submittedAt` and every other stored answer, and stores the new note. |
| `FormProgress.CompletedQuestions` | src/components/rsvp/FormProgress.tsx:12-29 | The count is the number of the four tracked questions (attendance, nights, transportation, main course) that have an answer; it is four iff all are answered and zero iff none is. |
| `FormProgress.AnsweringOneMoreAddsOne` | src/components/rsvp/FormProgress.tsx:12-29 | Answering one more tracked question, the other three unchanged, raises the count by exactly one. |
| `FormProgress.ProgressPercentage` | src/components/rsvp/FormProgress.tsx:31 | The percentage is 25 per completed question and lies between 0 and 100. |
| `FormProgress.ProgressIgnoresOtherFields` | src/components/rsvp/FormProgress.tsx:15-29 | Responses that agree on the four tracked answers show the same progress. |
| `FormProgress.ValidMeansComplete` | src/components/rsvp/FormProgress.tsx:11-31 | A response that passes validation shows a full bar. |
| `FormProgress.CompleteButInvalid` | src/components/rsvp/FormProgress.tsx:12 | There is a response with a full bar that fails validation. |
| `FormProgress.NoProgressAtStart` | src/components/rsvp/FormProgress.tsx:13-29 | The empty and the default response show no progress. |
| `CheckboxGroup.Without` | src/components/rsvp/CheckboxGroup.tsx:37 | The filter keeps exactly the elements other than the option and never grows the list. |
| `CheckboxGroup.HandleChange` | src/components/rsvp/CheckboxGroup.tsx:29-39 | Ticking appends the option after the current selection. Unticking removes every copy of it, keeps every other element's count, and changes nothing if it was absent. |
| `CheckboxGroup.WithoutCounts` | src/components/rsvp/CheckboxGroup.tsx:37 | Filtering removes exactly the option's copies and keeps the multiplicity of every other value. |
| `CheckboxGroup.WithoutAbsent` | src/components/rsvp/CheckboxGroup.tsx:37 | Filtering out an absent option returns the list unchanged. |
| `CheckboxGroup.WithoutAppend` | src/components/rsvp/CheckboxGroup.tsx:37 | Filtering distributes over concatenation, so order is kept. |
| `CheckboxGroup.TickThenUntick` | src/components/rsvp/CheckboxGroup.tsx:33-39 | Ticking then unticking an unselected option restores the selection. |
| `CheckboxGroup.CheckedReflectsChange` | src/components/rsvp/CheckboxGroup.tsx:49-58 | After a change the box is drawn ticked iff the user ticked it. |
| `Typography.ClassNamesPrefixed` | src/lib/typography.ts:10-44 | Every typography class name starts with `type-`. |
| `Typography.FontsVariablesPrefixed` | src/lib/typography.ts:48-50 | The font-family variables name CSS custom properties. |
| `Typography.DisplayVariablesPrefixed` | src/lib/typography.ts:52-61 | The display variables name CSS custom properties. |
| `Typography.HeadingVariablesPrefixed` | src/lib/typography.ts:63-92 | The heading variables name CSS custom properties. |
| `Typography.BodyVariablesPrefixed` | src/lib/typography.ts:94-108 | The body variables name CSS custom properties. |
| `Typography.UiVariablesPrefixed` | src/lib/typography.ts:110-144 | The UI variables name CSS custom properties. |
| `Typography.TransitionVariablesPrefixed` | src/lib/typography.ts:146-147 | The transition variable names a CSS custom property. |
| `Typography.VariablesPrefixed` | src/lib/typography.ts:47-148 | Every value of `TypographyVariables` starts with `--`. |
| `Typography.TruthyParts` | src/lib/typography.ts:164 | `filter(Boolean)` never lengthens the list and keeps only non-empty strings. |
| `Typography.CombineTypographyClasses` | src/lib/typography.ts:160-165 | Without extra classes the result is the class name. With them it is the class name, one space and the extras. It always starts with the class name. |
| `Typography.SuffixedKeysDistinct` | src/lib/typography.ts:186-194 | The tablet, desktop and large keys differ from each other and from the variable. |
| `Typography.CreateResponsiveTypography` | src/lib/typography.ts:173-197 | The variable holds the mobile value; each breakpoint key is present iff its value is given and then holds it; no other key is set. |
| `Language.HeroSectionAgrees` | src/contexts/LanguageContext.tsx:15-19 | The English and Spanish hero entries (lines 107-111 for Spanish) have the same keys in order and non-empty texts that differ from their keys. |
| `Language.NavigationSectionAgrees` | src/contexts/LanguageContext.tsx:21-29 | Likewise for the navigation entries (Spanish lines 113-121). |
| `Language.StorySectionAgrees` | src/contexts/LanguageContext.tsx:31-33 | Likewise for the story entries (Spanish lines 123-125). |
| `Language.EventsSectionAgrees` | src/contexts/LanguageContext.tsx:35-52 | Likewise for the events entries (Spanish lines 127-144). |
| `Language.RsvpSectionAgrees` | src/contexts/LanguageContext.tsx:54-58 | Likewise for the RSVP entries (Spanish lines 146-150). |
| `Language.TravelSectionAgrees` | src/contexts/LanguageContext.tsx:60-68 | Likewise for the travel entries (Spanish lines 152-160). |
| `Language.AccommodationsSectionAgrees` | src/contexts/LanguageContext.tsx:70-76 | Likewise for the accommodations entries (Spanish lines 162-168). |
| `Language.PracticalInfoSectionAgrees` | src/contexts/LanguageContext.tsx:78-83 | Likewise for the practical-info entries (Spanish lines 170-175). |
| `Language.WeddingPartySectionAgrees` | src/contexts/LanguageContext.tsx:85-90 | Likewise for the wedding-party entries (Spanish lines 177-182). |
| `Language.GiftsSectionAgrees` | src/contexts/LanguageContext.tsx:92-97 | Likewise for the gifts entries (Spanish lines 184-189). |
| `Language.FaqSectionAgrees` | src/contexts/LanguageContext.tsx:99-100 | Likewise for the FAQ entries (Spanish lines 191-192). |
| `Language.ContactSectionAgrees` | src/contexts/LanguageContext.tsx:102-104 | Likewise for the contact entries (Spanish lines 194-196). |
| `Language.SectionsAgree` | src/contexts/LanguageContext.tsx:13-198 | Both tables have the same sections, and each pair of sections agrees. |
| `Language.EntriesNonEmpty` | src/contexts/LanguageContext.tsx:13-198 | Every text in both tables is non-empty and differs from its key. |
| `Language.TablesShareKeys` | src/contexts/LanguageContext.tsx:13-198 | Both tables list the same keys in the same order, so they translate the same key set. |
| `Language.Translate` | src/contexts/LanguageContext.tsx:205-207 | `t` returns the current table's text for a known key and the key itself otherwise. |
| `Language.SetLanguage` | src/contexts/LanguageContext.tsx:203 | Switching language makes `t` read the new language's table and changes nothing else. |
| `Language.FallbackAgrees` | src/contexts/LanguageContext.tsx:205-207 | A key falls back to itself in English iff it does in Spanish, iff it is not a table key. |
| `Language.InitiallyEnglish` | src/contexts/LanguageContext.tsx:203-207 | Before a language is chosen, `t` reads the English table. |

## Left out

- `subscribeToRSVPResponse` and `getAllRSVPResponses` (src/lib/firestore.ts:130-177): the live listener and the ordered store query are remote-store plumbing. Statistics take the listing as their input.
- Remote-store details: document references, `serverTimestamp()` and the conversion of timestamps to `Date`. The "now" of a write is an input, and server time equals the caller's `now`.
- The store's handling of `undefined` inside documents: a merged response may hold `Undef`, which the real store would reject or drop.
- The statistics' load-failure path: `getRSVPStatistics` only rethrows the listing's error, and the listing is an input here.
- Real timers, React render scheduling and batching: each callback and the effects it triggers are one atomic step, and only settled states are modelled. The auto-save effect's re-run when the `user` object changes is not modelled.
- Concurrency: edits or a submit while a save is in flight, and two overlapping writes for one user. Every save completes within its step, so `isSaving` is false between steps.
- `t` on keys inherited from `Object.prototype` (for example `"constructor"`): the tables are plain maps.
- `TypographyTokens` (src/lib/typography.ts:200-246): constant design tokens, most of them floating-point numbers, read by no modelled operation.
- Numeric values in `CSSCustomProperties`: `createResponsiveTypography` only stores strings, so the model's style map is string-valued.
- Rendering, animations, authentication, error reporting and the page components that call the hook: UI and external services outside the RSVP core.
- `AutoSaveService.TimerElapsed`: its own contract states only the not-yet-due case. What a firing does is stated by `AutoSaveWritesDraft`, `TimerLeavesNotSaving` and `BurstSavesLastEditOnce`.
- `FormSession.SubmitForm`: states `!isSaving` afterwards only for a session that was not saving before. A session already saving never arises between steps (`Consistent`).
- The dirty check's serialization ignores key order, which `JSON.stringify` is sensitive to. This loses nothing in the hook (src/lib/hooks/useRSVPForm.ts:49-58, 94, 139-142, 173, 189-193, 201-204). The last-saved copy is always the working copy's object or a spread of it. The working copy changes only by spreads that keep existing keys in place and append new ones. So the last-saved copy's key order is a prefix of the working copy's, and two copies with the same entries serialize alike.
- `FormProgress.ProgressPercentage`: computed over exact reals. JavaScript's floating-point `(n / 4) * 100` is exact for n in 0..4, so nothing is lost.
