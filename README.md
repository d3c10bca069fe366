# Advanced Survey Form: validation and form state in Dafny

This project models the logic core of a React survey form. The respondent
enters a name, an email address, a survey topic (Technology, Health or
Education), the two answers of that topic's section, and free-text feedback.
On submit, the `useFormValidation` hook checks the answers and replaces its
`errors` map (one message per field group). When every check passes, the
component shows a summary of the answers followed by the additional questions
held in the survey context.

Four modules, one per file:

- `JsText` (`js_text.dfy`) models the JavaScript string primitives the checks
  use:
  - `trim`, over the ECMAScript WhiteSpace and LineTerminator set, which is
    also the set `\s` matches;
  - `length` in UTF-16 code units;
  - the unanchored pattern `/\S+@\S+\.\S+/`, as an explicit predicate over the
    index of an `@` and the index of a later `.`.
- `SurveyData` (`survey_data.dfy`) holds:
  - the `formData` record, with its three nested section records;
  - the initial record;
  - `handleInputChange`'s copy-and-update, as the pure function `UpdatedForm`.
- `FormValidation` (`form_validation.dfy`) holds:
  - a reference definition `Errors(f)` of the map `validateForm` builds,
    given slot by slot;
  - the class `ValidationHook`, whose method `ValidateForm` builds the map
    the way the hook does. It runs the checks in the source's order and writes
    them one after another, so a later failure in a section overwrites an
    earlier one. It is proved equal to `Errors(f)`.
- `SurveyForm` (`survey_form.dfy`) holds:
  - the summary lines as a pure function of the answers and the questions;
  - the class `FormState`, holding the component's state: `formData`,
    `showSummary`, `additionalQuestions` and the hook instance;
  - the two event handlers and the context setter, as methods of `FormState`;
  - the lines of the summary as displayed, each answer after its label;
  - any sequence of edits, submits and question updates, replayed on a
    `FormState` and proved equal to a pure step function;
  - a complete session with the answers of Ada Lovelace.

The model follows the checks as the hook writes them, including three
behaviours that the messages do not announce:

- Feedback is measured before trimming. The message asks for "minimum 50
  characters", but the count includes surrounding whitespace. It fails when it is blank after
  trimming, or when its untrimmed length is below 50. So 49 spaces followed by
  "x" passes, and 50 spaces fail.
- `highestQualification` and the four Technology and Health fields are only
  tested for being the empty string. A value made only of whitespace passes
  these checks. `fieldOfStudy` is trimmed.
- A topic other than "" and the three named ones passes the topic check, and
  no section check runs for it.

## Model

| member | source | states |
|---|---|---|
| `JsText.IsWs` | src/hooks/useFormValidation.js:10 | within ASCII the whitespace `trim` removes is exactly the space and tab through carriage return; '@' and '.' are never whitespace |
| `JsText.TrimStart` | src/hooks/useFormValidation.js:10 | removing leading whitespace never lengthens the string and leaves it empty or starting with a non-whitespace character |
| `JsText.TrimEnd` | src/hooks/useFormValidation.js:10 | removing trailing whitespace never lengthens the string and leaves it empty or ending with a non-whitespace character |
| `JsText.Trim` | src/hooks/useFormValidation.js:10 | `s.trim()` is never longer than s and is empty or ends with a non-whitespace character |
| `JsText.TrimStartSpec` | src/hooks/useFormValidation.js:10 | the start-trimmed string is a suffix of the input, everything removed is whitespace, and it is empty or starts with a non-whitespace character |
| `JsText.TrimEndSpec` | src/hooks/useFormValidation.js:10 | the end-trimmed string is a prefix of the input, everything removed is whitespace, and it is empty or ends with a non-whitespace character |
| `JsText.TrimSpec` | src/hooks/useFormValidation.js:10 | `s.trim()` is empty exactly when every character of s is whitespace; otherwise it starts and ends with non-whitespace |
| `JsText.TrimSplits` | src/hooks/useFormValidation.js:10 | `s.trim()` is one contiguous stretch of s, preceded and followed in s only by whitespace |
| `JsText.Blank` | src/hooks/useFormValidation.js:15 | the test `!s.trim()` holds exactly when s is all whitespace, the empty string included |
| `JsText.Utf16Length` | src/hooks/useFormValidation.js:57 | `length` counts between one and two code units per character |
| `JsText.Utf16LengthOfBmp` | src/hooks/useFormValidation.js:57 | for text within the Basic Multilingual Plane, `length` is the number of characters |
| `JsText.EmailPattern` | src/hooks/useFormValidation.js:18 | a string the pattern matches has at least five characters: three non-empty runs, the '@' and the '.' |
| `JsText.EmailShapeMatches` | src/hooks/useFormValidation.js:18 | every local@domain.tld address with three non-empty, whitespace-free parts matches the pattern |
| `JsText.EmailNeedsAt` | src/hooks/useFormValidation.js:18 | a string without '@' never matches |
| `JsText.EmailNeedsDotAfterAt` | src/hooks/useFormValidation.js:18 | a string with no '.' after any of its '@'s never matches |
| `JsText.EmailPatternPadded` | src/hooks/useFormValidation.js:18 | the pattern is unanchored: a matching string still matches with anything before and after it |
| `JsText.EmailPatternIgnoresTrim` | src/hooks/useFormValidation.js:15-18 | trimming an address never changes whether the pattern matches it |
| `SurveyData.InitialFormData` | src/components/SurveyForm.jsx:8-25 | every one of the ten leaves of the initial record, the six section fields included, is the empty string |
| `SurveyData.Lookup` | src/components/SurveyForm.jsx:43-58 | a path with a section never names a top-level property, and a path without one never names a section field |
| `SurveyData.UpdatedForm` | src/components/SurveyForm.jsx:43-58 | after the update, the leaf the path names holds the new value and every other leaf keeps its old value; a path naming no leaf changes nothing that is read |
| `SurveyData.UpdateReadBack` | src/components/SurveyForm.jsx:43-58 | reading back the leaf just written gives the value written |
| `SurveyData.UpdateIdempotent` | src/components/SurveyForm.jsx:43-58 | applying the same update twice equals applying it once |
| `SurveyData.SectionUpdateFrame` | src/components/SurveyForm.jsx:44-51 | an update with a section leaves the top-level properties, the other two sections and the sibling field unchanged |
| `SurveyData.TopLevelUpdateFrame` | src/components/SurveyForm.jsx:52-56 | an update without a section leaves all three sections unchanged |
| `SurveyData.SameLeaves` | src/components/SurveyForm.jsx:8-25 | two records that agree on all ten leaves are equal |
| `FormValidation.Slot.Key` | src/hooks/useFormValidation.js:10-60 | the property each check writes is one of the record's four top-level names or one of its three section names |
| `FormValidation.KeyNamesSlot` | src/hooks/useFormValidation.js:10-60 | each slot's property name leads back to that slot |
| `FormValidation.KeysDistinct` | src/hooks/useFormValidation.js:10-60 | no two slots write the same property, so a map keyed by slots is the hook's object keyed by property names |
| `FormValidation.ErrorMessage.SlotOf` | src/hooks/useFormValidation.js:10-60 | each property receives exactly the messages of its own checks: "required" or "invalid" for email, either section message for its section, one message for each other property |
| `FormValidation.FullNameMessage` | src/hooks/useFormValidation.js:10-13 | the name check fails exactly when the name is empty or all whitespace, and then gives "Full Name is required" |
| `FormValidation.EmailMessage` | src/hooks/useFormValidation.js:15-21 | "required" exactly when the address is blank, "invalid" exactly when it is not blank and the untrimmed address does not match, and no other message |
| `FormValidation.SurveyTopicMessage` | src/hooks/useFormValidation.js:23-26 | the topic check fails exactly when the topic is the empty string |
| `FormValidation.TechnologyMessage` | src/hooks/useFormValidation.js:28-36 | the check fails exactly when the topic is Technology and a field is empty; the years-of-experience message, written last, wins |
| `FormValidation.HealthMessage` | src/hooks/useFormValidation.js:37-45 | the check fails exactly when the topic is Health and a field is empty; the diet preference message, written last, wins |
| `FormValidation.EducationMessage` | src/hooks/useFormValidation.js:46-55 | the check fails exactly when the topic is Education and the qualification is empty or the field of study is blank; the field of study message, written last, wins |
| `FormValidation.FeedbackMessage` | src/hooks/useFormValidation.js:57-60 | the check fails exactly when the feedback is blank or its untrimmed length is below 50 |
| `FormValidation.SlotError` | src/hooks/useFormValidation.js:10-60 | every message a check records is one that belongs to that check's property |
| `FormValidation.Errors` | src/hooks/useFormValidation.js:28-55 | a section's slot can occur only when the topic is that section's topic |
| `FormValidation.ErrorsObject` | src/hooks/useFormValidation.js:8-62 | the object handed to `setErrors` has a property exactly for each recorded slot, named by `Slot.Key`, holding that message's text, and no other property |
| `FormValidation.IsValid` | src/hooks/useFormValidation.js:62-63 | `validateForm` returns true exactly when none of the seven checks fails |
| `FormValidation.EmptyIffNoFailure` | src/hooks/useFormValidation.js:62-63 | the errors map is empty exactly when no check fails |
| `FormValidation.Put` | src/hooks/useFormValidation.js:10-60 | each check's paired write and `valid = false` (lines 11-12, 16-20, 24-25, 30-53, 58-59): recording its outcome leaves the map empty exactly when it was empty and the check passed |
| `FormValidation.ErrorsInCheckOrder` | src/hooks/useFormValidation.js:10-60 | running the seven checks in order from an empty map, each writing its slot when it fails, yields exactly the reference map |
| `FormValidation.ChainCollects` | src/hooks/useFormValidation.js:7-60 | writing any seven check outcomes in the hook's order collects exactly the failed ones, each under its own property |
| `FormValidation.ValidationHook.constructor` | src/hooks/useFormValidation.js:4 | the hook starts with no errors |
| `FormValidation.ValidationHook.ValidateForm` | src/hooks/useFormValidation.js:6-64 | `errors` is replaced by the reference map for the answers, whatever it held before; the result is true exactly when that map is empty |
| `FormValidation.ValidationHook.CheckTopicSection` | src/hooks/useFormValidation.js:28-55 | only the section of the topic is checked; its slot gets the message of the later failing check, and the flag is cleared exactly when one fails |
| `FormValidation.ValidIffEveryCheckPasses` | src/hooks/useFormValidation.js:7-63 | the answers are valid exactly when the name and the email are not blank, the email matches, the topic is not empty, both fields of the topic's section pass, and the feedback is not blank and at least 50 long |
| `FormValidation.NoErrorsIffNoSlot` | src/hooks/useFormValidation.js:62-63 | an errors map is empty exactly when none of the seven slots is set |
| `FormValidation.ErrorsAt` | src/hooks/useFormValidation.js:7-60 | a slot is present exactly when its check fails, and then holds that check's message |
| `FormValidation.FullNameRule` | src/hooks/useFormValidation.js:10-13 | "Full Name is required" is recorded exactly when the name is empty or all whitespace; otherwise there is no fullName entry |
| `FormValidation.EmailRule` | src/hooks/useFormValidation.js:15-21 | a blank address gets "Email is required"; a non-blank one the pattern rejects gets "Email is invalid"; a matching one gets no entry |
| `FormValidation.EmailCheckedUntrimmed` | src/hooks/useFormValidation.js:18 | the pattern is applied to the untrimmed address, so surrounding text, whitespace included, never turns a match into an error |
| `FormValidation.SurveyTopicRule` | src/hooks/useFormValidation.js:23-26 | "Survey Topic is required" is recorded exactly when the topic is the empty string |
| `FormValidation.TechnologyRule` | src/hooks/useFormValidation.js:28-36 | with topic Technology, the section slot is set exactly when a field is empty; when years of experience is empty its message wins, otherwise the language message |
| `FormValidation.HealthRule` | src/hooks/useFormValidation.js:37-45 | with topic Health, the slot is set exactly when a field is empty; the diet preference message wins over the exercise frequency message |
| `FormValidation.EducationRule` | src/hooks/useFormValidation.js:46-55 | with topic Education, the slot is set exactly when the qualification is empty or the field of study is blank after trimming; the field of study message wins |
| `FormValidation.WhitespaceOnlySectionValues` | src/hooks/useFormValidation.js:29-51 | a whitespace-only value passes the Technology, Health and qualification checks but fails the field-of-study check |
| `FormValidation.UnknownTopicSkipsSections` | src/hooks/useFormValidation.js:23-55 | a topic other than "" and the three names passes the topic check and sets no section slot |
| `FormValidation.InactiveSectionsIgnored` | src/hooks/useFormValidation.js:28-55 | answers that agree on the top-level fields and the topic's section have the same errors and the same validity, whatever the other sections hold |
| `FormValidation.FeedbackRule` | src/hooks/useFormValidation.js:57-60 | the feedback message is recorded exactly when the feedback is blank or its untrimmed length is below 50 |
| `FormValidation.PaddedFeedbackPasses` | src/hooks/useFormValidation.js:57 | 49 spaces followed by "x" pass the feedback check |
| `FormValidation.FeedbackLengthBoundary` | src/hooks/useFormValidation.js:57-60 | feedback of at least 50 characters that is not all whitespace passes; feedback of 49 characters in the Basic Multilingual Plane fails |
| `FormValidation.InitialFormErrors` | src/hooks/useFormValidation.js:10-60 | submitting the untouched form records exactly the name, email, topic and feedback messages, and no section message |
| `SurveyForm.Label` | src/components/SurveyForm.jsx:299-320 | every label printed before an answer ends with a colon |
| `SurveyForm.LabelNamesLeaf` | src/components/SurveyForm.jsx:299-320 | each label names its own field, so no two fields share a label |
| `SurveyForm.EntryTextDecodes` | src/components/SurveyForm.jsx:299-320 | a displayed answer line opens with the label naming its field, then a space, then exactly the value |
| `SurveyForm.SummaryItem.Text` | src/components/SurveyForm.jsx:299-320 | an answer line is its label, whose colon is followed by one space and then exactly the value; headings and questions show their own text |
| `SurveyForm.Shown` | src/components/SurveyForm.jsx:299-320 | the four top-level answers are always shown; a section answer is shown only when the topic is one of the three named ones |
| `SurveyForm.SectionEntries` | src/components/SurveyForm.jsx:302-319 | two lines, for two different fields, exactly when the topic is one of the three; every line is a section field shown for the topic with its current value, and every such field has its line |
| `SurveyForm.QuestionItems` | src/components/SurveyForm.jsx:323-325 | the additional questions appear one line each, in their order |
| `SurveyForm.SummaryLines` | src/components/SurveyForm.jsx:298-325 | the summary begins with its title, name, email and topic, and ends with the feedback, the questions heading and then exactly the questions in order; no question line occurs before them |
| `SurveyForm.SummaryEntries` | src/components/SurveyForm.jsx:299-320 | the summary has a line with value v for a field exactly when the field is shown for the topic and v is its current value |
| `SurveyForm.SummaryHidesOtherSections` | src/components/SurveyForm.jsx:302-319 | the fields of a section other than the topic's never appear in the summary |
| `SurveyForm.SummaryIgnoresInactiveSections` | src/components/SurveyForm.jsx:298-325 | answers that agree on what is shown for their topic have identical summaries |
| `SurveyForm.FormState.constructor` | src/components/SurveyForm.jsx:8-29 | the form starts with the initial record, the summary hidden, no additional questions and no errors |
| `SurveyForm.FormState.HandleInputChange` | src/components/SurveyForm.jsx:43-58 | the answers become their updated copy; the summary flag, the questions and the errors are unchanged |
| `SurveyForm.FormState.HandleSubmit` | src/components/SurveyForm.jsx:60-69 | the errors become the reference map of the current answers; the summary is shown when they are valid and otherwise keeps its state; the answers and the questions are unchanged |
| `SurveyForm.FormState.SetAdditionalQuestions` | src/contexts/SurveyContext.js:6-9 | the questions are replaced wholesale; the answers and the summary flag are unchanged |
| `SurveyForm.FormState.Summary` | src/components/SurveyForm.jsx:291-327 | nothing is shown before a successful submit; afterwards the summary lines, at least six lines beyond the questions |
| `SurveyForm.StepSpec` | src/components/SurveyForm.jsx:43-69 | what `Step` does to the screen for each event: only a submit changes the errors and the summary flag, never clears the flag and sets it only on valid answers; an edit changes only the leaf its path names; only the context's setter changes the questions |
| `SurveyForm.Deliver` | src/components/SurveyForm.jsx:43-69 | handing one event to its handler (or to the context's setter) leaves the form's screen exactly as `Step` computes |
| `SurveyForm.Replay` | src/components/SurveyForm.jsx:43-69 | delivering any sequence of edits, submits and question updates to the form leaves exactly the screen `Run` computes by folding `Step`, and a summary once shown stays shown |
| `SurveyForm.ShownIffSomeSubmitSucceeded` | src/components/SurveyForm.jsx:60-69 | after any events the summary is shown exactly when it was shown before or some submit among them found the answers of that moment valid |
| `SurveyForm.AdaLovelaceEmailMatches` | src/hooks/useFormValidation.js:18 | "ada@example.com" matches the email pattern |
| `SurveyForm.AdaLovelaceAnswersValid` | src/hooks/useFormValidation.js:7-63 | Ada Lovelace's Education answers (PhD, Mathematics) pass every check when the feedback is at least 50 characters and not blank |
| `SurveyForm.AdaLovelaceSummary` | src/components/SurveyForm.jsx:298-325 | their summary is exactly name, email, topic, qualification, field of study and feedback, then the questions |
| `SurveyForm.AdaLovelaceSession` | src/components/SurveyForm.jsx:43-69 | typing those answers into a fresh form, setting the questions and submitting succeeds and shows exactly that summary |

## Left out

- The additional-questions request (`src/services/api.js`) is network I/O and is not part of this model. The questions reach the model only through `SetAdditionalQuestions`.
- The `useEffect` that starts a request whenever the topic changes, and the race between overlapping requests, are left out. They concern the ordering of asynchronous completions.
- `src/App.js` only starts the application and is not part of this model.
- JSX layout and the MUI widgets are left out. This includes the menus of allowed values, `type="number"` and `required`. The checks do not look at these, and the model does not restrict a field to its menu values.
- The `<form>` (src/components/SurveyForm.jsx:96-102) has no `noValidate`, so the browser's own `required` and `type="email"` checks can stop a submit before `handleSubmit` runs; the model's `Submit` event fires on any answers and so covers more submits than the page lets through.
- `console.error` and `event.preventDefault()` are left out, because they have no effect on state.
- SurveyForm.FormState.HandleSubmit: the handler is `async` in the source and returns nothing. The model returns the validation result to make it available to callers.
- SurveyForm.FormState.HandleInputChange: requires that the path keeps the record's shape. The source would replace a section object by a string if a section name were given as a top-level field, and do the reverse for a top-level name given as a section. No input of the form produces either path.
- React's deferred state updates are modelled as immediate assignments. Each handler sees the state left by the previous one.
- Strings are sequences of Unicode scalar values.
  - `length` is recomputed in UTF-16 code units.
  - Lone surrogates cannot be represented.
- Error slots are a datatype rather than property-name strings. `Slot.Key` gives the property name and `ErrorMessage.Text` the displayed message; `ErrorsObject` rebuilds the string-keyed object from them.
