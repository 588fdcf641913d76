# Contact form of the photographer portfolio page, in Dafny

The page's only logic is its contact form: the validator `validateContactForm`
and the `useForm` hook. The hook holds the field values, the per-field errors,
an `isSubmitting` flag and a `submitStatus`, and it offers two handlers,
change and submit. This project models both parts as pure Dafny functions over
immutable datatypes and proves what they guarantee.

- `js_text.dfy` (`JsText`): JavaScript strings as sequences of UTF-16 code
  units, so `length` counts what JavaScript counts. It has the ECMA-262
  whitespace table, which `trim` and the regex class `\s` share, and
  `String.prototype.trim`.
- `email_pattern.dfy` (`EmailPattern`): `/\S+@\S+\.\S+/.test`. It is stated
  once as a predicate (`EmailShape`: an '@' at p with a non-space before it, a
  non-empty non-space run up to a '.' at q, and a non-space after it). It is
  computed once by a left-to-right automaton (`Test`). The two are proved equal.
- `form.dfy` (`Form`): the `{ name, email, message }` record and the three fields.
- `contact_validation.dfy` (`ContactValidation`): the validator, with its
  fixed messages.
- `use_form.dfy` (`UseForm`): the hook's state and transitions. The submit
  handler is split at its `await` into `SubmitStart` and `Settle(outcome)`.
  Runs of user and timer events (`Run`) cover whole sessions. Pressing submit
  while submitting is excluded, as the disabled button does on the page.
- `contact_form.dfy` (`ContactForm`): the page's instance
  `useForm({ name: '', email: '', message: '' }, validateContactForm)`, its
  invariants over every reachable state, and the scenarios the page promises.

The simulated call (a promise resolved by `setTimeout`) never rejects. So the
handler's `catch` branch, which sets status 'error', cannot run on the page as
written. `Settle` still takes the outcome as a parameter, so that branch is
modelled as well.

Three behaviours of the code that are easy to misread:
- Editing a field sets its error entry to `null`. It does not delete the entry.
- An untrimmed message of ten or more code units still fails when it is blank,
  with "Message is required.". A length of at least ten is therefore not enough
  on its own.
- Changing a field clears its error only when the error is truthy. An empty
  message string from some other validator would stay in place.

## Model

| member | source | states |
|---|---|---|
| JsText.TrimStart | src/App.js:76 | the result is a suffix of the input; everything dropped is whitespace; the result does not start with whitespace |
| JsText.TrimEnd | src/App.js:82 | the result is a prefix of the input; everything dropped is whitespace; the result does not end with whitespace |
| JsText.Trim | src/App.js:76 | `trim()` drops a whitespace prefix and a whitespace suffix of the input and nothing else; the rest has no whitespace at either end; it is empty exactly when the input is all whitespace |
| JsText.TrimDropsOnlyWhitespace | src/App.js:76 | trimming the start and then the end removes only leading and trailing whitespace, leaves no whitespace at either end, and leaves nothing exactly when the input is blank |
| JsText.StripsCompose | src/App.js:82 | dropping a whitespace prefix and then a whitespace suffix of what remains drops a whitespace prefix and suffix of the original |
| JsText.TrimmedUnique | src/App.js:76 | two pieces that each drop only outer whitespace and each have non-whitespace ends are the same piece |
| JsText.TrimUnique | src/App.js:76 | any string meeting the contract of `Trim` is `Trim(s)`, so that contract determines `trim()` completely |
| JsText.TrimEmptyOnlyIfBlank | src/App.js:82 | trimming gives the empty string if and only if every code unit is whitespace |
| JsText.TrimFixedPoint | src/App.js:76 | a string without whitespace at either end is left unchanged by `trim()` |
| JsText.TrimIdempotent | src/App.js:76 | trimming an already trimmed string changes nothing |
| EmailPattern.DomainStep | src/App.js:79 | after one more code unit, the regex is inside the run after '@' exactly when it was there before, or had just read '@', and the new unit is `\S` |
| EmailPattern.FoundStep | src/App.js:79 | a full match ends in the longer prefix exactly when one ended before, or a `\S` follows '.' after the '@' run |
| EmailPattern.StepTracks | src/App.js:79 | one automaton step keeps the live states equal to the regex's partial matches of the longer prefix |
| EmailPattern.Scan | src/App.js:79 | running the automaton to the end answers true exactly when the string contains a match of `\S+@\S+\.\S+` |
| EmailPattern.Test | src/App.js:79 | `/\S+@\S+\.\S+/.test(s)` is true if and only if s has an '@' and a later '.' with `\S` before, between and after them, anywhere in s |
| EmailPattern.NoAtNoMatch | src/App.js:79 | a string without '@' never passes the e-mail test |
| EmailPattern.MatchInContext | src/App.js:79 | the search is unanchored: text before or after a matching string keeps it matching |
| ContactValidation.CheckName | src/App.js:76 | "Name is required." exactly when the name is blank, and no name error otherwise |
| ContactValidation.CheckEmail | src/App.js:77-81 | "Email is required." exactly when the e-mail is empty (not trimmed); "Email address is invalid." exactly when it is non-empty and does not match; no error exactly when it matches |
| ContactValidation.CheckMessage | src/App.js:82-86 | "Message is required." exactly when the message is blank; the length message exactly when it is not blank and its untrimmed length is below 10; no error exactly when neither applies |
| ContactValidation.Validate | src/App.js:74-88 | each field has an entry exactly when its check fails, and the entry is that field's fixed message; the two e-mail messages and the two message messages never both apply |
| ContactValidation.ValidateEmptyIff | src/App.js:74-88 | the result is empty if and only if the name is not blank, the e-mail matches, and the message is not blank and is at least 10 code units long |
| ContactValidation.ValidateEntries | src/App.js:74-88 | every key of the result is a field whose own check failed, and its value is a non-empty message of that field |
| UseForm.Lift | src/App.js:52 | the validation result becomes the `errors` object with the same keys and the same messages |
| UseForm.Shows | src/App.js:44 | the test `errors[name]` is JavaScript truthiness: a missing entry (`undefined`), `null` and the empty string do not count as a shown error; a non-empty message does |
| UseForm.Init | src/App.js:36-39 | the first state holds the initial values, an `errors` object with no entries at all (`{}`), not submitting, status 'idle' |
| UseForm.HandleChange | src/App.js:41-47 | the edited field takes the new value and the other fields keep theirs; a shown error on that field becomes `null` and every other entry is unchanged; nothing is validated; flag and status are unchanged |
| UseForm.SubmitStart | src/App.js:49-56 | the errors become the fresh validation result; the values are unchanged; an empty result sets submitting and 'idle'; a non-empty one leaves flag and status as they were |
| UseForm.Settle | src/App.js:57-66 | once the wait ends, the form is not submitting; resolving gives 'success' with the initial values back; rejecting gives 'error' with the values kept; the errors are untouched |
| UseForm.ChangesCommute | src/App.js:43-46 | edits to two different fields can be applied in either order |
| UseForm.ChangeOverwrites | src/App.js:43 | a second edit to the same field replaces the first |
| UseForm.ChangeHidesOnly | src/App.js:44-46 | an edit never makes an error appear, and the edited field shows none afterwards |
| UseForm.SubmitStartIdempotent | src/App.js:51-56 | starting a submit twice in a row gives the same state as starting it once |
| UseForm.SubmitThenSettle | src/App.js:54-66 | with valid values, submit then settle ends not submitting, with no errors, and either 'success' with the initial values or 'error' with the submitted ones |
| UseForm.Enabled | src/App.js:266 | typing is always possible; the submit button works only while not submitting (`disabled={form.isSubmitting}`), and the awaited delay can only end while a submission is pending, so in every state exactly one of pressing and settling is possible |
| UseForm.Apply | src/App.js:41-68 | one page event (`onChange`, `onSubmit`, or the end of the delay): a disabled one changes nothing; only typing or a successful settle changes the values; only a press with an empty validation result starts submitting; only a settle ends it; typing leaves the flag and the status alone |
| UseForm.Run | src/App.js:41-68 | a session of events in order; a session of typing alone never starts a submission, never changes the status, and keeps the set of fields that have error entries |
| UseForm.RunAppend | src/App.js:41-68 | running two sessions one after the other is the same as running them joined together |
| UseForm.ApplyKeepsPendingClean | src/App.js:49-68 | each enabled event keeps this rule: while submitting, the status is 'idle' and the errors are empty |
| UseForm.RunKeepsPendingClean | src/App.js:35-68 | any sequence of events keeps that rule |
| UseForm.ReachablePendingClean | src/App.js:35-68 | every state reachable from the first one follows that rule |
| ContactForm.PressStartsIffAcceptable | src/App.js:106 | on the contact form, pressing submit starts sending if and only if all three fields are acceptable; otherwise only the errors change, to the validator's result |
| ContactForm.ApplyKeepsKnownMessages | src/App.js:41-68 | each event keeps every error entry either `null` or one of its own field's fixed messages |
| ContactForm.RunKeepsKnownMessages | src/App.js:41-68 | any sequence of events keeps every error entry `null` or one of its own field's messages |
| ContactForm.ReachableKnownMessages | src/App.js:106 | on every reachable page state, each error is `null` or one of the five fixed messages, on its own field |
| ContactForm.ValidateAllEmpty | src/App.js:74-88 | with all three fields empty, the result maps each field to its "required" message and nothing else |
| ContactForm.ValidateEmailWithoutAt | src/App.js:77-81 | with the name and message empty and a non-empty e-mail without '@', the result is name required, e-mail invalid and message required |
| ContactForm.PressFailingAllThree | src/App.js:51-54 | when the validator fails all three fields, pressing submit makes exactly those three messages the errors and does not start sending |
| ContactForm.ScenarioEmptyName | src/App.js:76 | clearing the name and submitting shows "Name is required." (with the empty e-mail and message required too) and does not start sending |
| ContactForm.ScenarioBadEmail | src/App.js:79-80 | the e-mail "bad", once submitted, shows "Email address is invalid." (with the empty name and message required) and does not start sending |
| ContactForm.FillSubmitSucceeds | src/App.js:55-61 | typing acceptable values, submitting and letting the delay resolve gives 'success', empty fields, not submitting, and no errors |
| ContactForm.ScenarioValidSubmission | src/App.js:74-88 | "Ana", "ana@mail.com" and "Hello there!" pass every check |

## Left out

- Rendering: the JSX, the Tailwind classes, and the hero, gallery, about and footer markup. They are presentation only.
- The static tables (`navLinks`, `projectsData`, `specializations`, `socialLinks`). They are constant data with no behaviour.
- The scroll listener that toggles `isScrolled`, and smooth-scroll navigation. Both are DOM event plumbing.
- The 2000 ms timer and async scheduling. The wait is a single `Settle` step, and the outcome is a parameter.
- Which outcome a real call would produce. The simulated promise always resolves, so `Rejected` is not reachable on the page.
- React hook mechanics: `useState` batching, the `useCallback` dependency arrays, and stale closures. Each handler is modelled on the current state. In React, `handleChange` tests the rendered `errors` and then updates the pending one.
- Re-entrant submission. The disabled button stops it on the page, and `Enabled` states that guard. `SubmitStartIdempotent` covers a repeated start step.
- Events naming an input other than `name`, `email` or `message`. No such input exists on the page, so `Field` has exactly three values. For that reason "the validator only produces these three keys" holds by type.
- Purity of the validator. A Dafny function is pure by construction, so no lemma states it.
