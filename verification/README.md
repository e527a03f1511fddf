# Registration form: schema-driven validation, wizard controller, server record rules

This project models, in Dafny, the core of a multi-step registration form
whose fields are described by a schema document:

- the **field validator** shared by the client (`validateBySchema`, with its
  ordered rule chain required → maximum length → pattern, failing open on a
  pattern that does not compile) and the digit filter `onlyDigits`;
- the **wizard controller** of the client (`App.tsx`): its state
  `stepIndex`, `values`, `errors`, the initial values, the per-field input
  transform, `setValue`, `validateAll`, `handleNext`, `handleBack`,
  `submit`, the PIN-code auto-fill merge and the parse of the lookup
  service's answer;
- the **server record rules** (`index.js`): the schema flattened into one
  (required, maxlength, pattern) rule per field name, the accept/reject
  decision of `/api/validate` and `/api/submit`, and the projection of an
  accepted record onto the eleven stored columns;
- the **scraper post-processing** (`scrape.js`): `normalizeField` over an
  abstract element record, the filter that keeps elements with an id or
  name, `ensureRule`, and the assembly of the two-step document.

Files, one module each: `wrappers.dfy` (Option), `text.dfy` (the JavaScript
string built-ins used: ASCII `toLowerCase`/`toUpperCase`, `includes`, `trim`,
`parseInt(s, 10)`, integer rendering), `schema.dfy` (field descriptors,
steps, the document, and the regular-expression oracle), `validation.dfy`,
`app.dfy`, `server.dfy`, `agreement.dfy` (client and server accept the same
records), `scrape.dfy`.

Modelling choices:

- Regular expressions are uninterpreted: a `RegExp` value carries
  `compiles(p)` (`new RegExp(p)` does not throw) and `test(p, s)` (an
  unanchored search); every member that validates takes it as a parameter.
- `label` is a reserved word in Dafny, so the descriptor's `label` is the
  field `caption`; a missing label is rendered "null", as the template
  literal does. The descriptor's `type` is `inputType`.
- JavaScript truthiness is written out: a pattern counts only when present
  and non-empty (`HasPattern`), a `maxlength` only when present and non-zero
  (`HasMaxLength`); a missing key of `values` reads as "" (`Lookup`), which is
  how `undefined` behaves in the validator. `maxlength` is an unbounded
  `int`, so a zero or negative `parseInt` result is representable; `NaN`
  becomes null (`None`), as it does when the document is written as JSON.
- The component is the class `App.Wizard`; each handler is a method whose
  `modifies` clause names the state it may change, and `Valid()` keeps the
  step index on a step and a value for every field name once the schema is in.
- The network, the DOM and the database are inputs: the loaded document,
  the lookup service's decoded answer (`seq<PinItem>`), the store's answer
  to `create` (`Option<int>`), and the scraped elements.
- `/api/validate` and `/api/submit` are specified by the same function
  `Server.Outcome`; this is how the model states that they accept exactly
  the same records.

Behaviour of the code worth noting:

- A select's `onChange` (App.tsx:129) stores the chosen value unchanged and
  does not clear its error; only text inputs go through the transform and
  clear the error.
- The client message for a pattern failure is "<label> format is invalid."
  and the server's is "<label> invalid"; the server's messages carry no
  final period.
- The server does not fail open: a pattern that does not compile makes
  `new RegExp` throw while the rules are built, so both endpoints answer 500
  for every record (`Server.BuildZodFromSchema`, `Server.ApiValidate`).
  The client passes the same field. `Agreement.ClientServerAgree` therefore
  assumes that every pattern compiles.
- The server keeps one rule per field name, the last one in document order,
  while the client checks each field of the current step. The agreement
  lemma assumes unique names, which the document is meant to have but the
  code does not enforce. Documents the scraper writes are likely to break
  this premise: step 2 is read from the same page after the OTP click
  (scrape.js:55-61), so its inputs can repeat step 1's names
  (`Scrape.BuildDocument` on the same page twice repeats every kept name).
  `ensureRule` adds the Aadhaar pattern only to step 1's copy, and the
  server keeps the rule of step 2's copy, which comes last.
- The parsed record keeps only keys that the schema names, because unknown
  keys are stripped. A `district` or `state` filled by the PIN lookup is
  therefore stored only if the schema has such a field.

## Model

| member | source | states |
|---|---|---|
| Text.Contains | App.tsx:159 | `includes`: true exactly when the key occurs at some position |
| Text.ToLower | App.tsx:159 | `toLowerCase`: same length, each upper-case ASCII letter becomes its lower-case partner, every other character kept |
| Text.ToUpper | App.tsx:172 | `toUpperCase`: same length, each lower-case ASCII letter becomes its upper-case partner, every other character kept, so no lower-case letter is left |
| Text.ToUpperIdempotent | App.tsx:172 | upper-casing twice is upper-casing once |
| Text.Trim | scrape.js:22 | `trim`: a slice of the input with only white space outside it, and no white space at either end of the slice |
| Text.ParseInt | scrape.js:16 | `parseInt(_, 10)` yields a number exactly when digits follow the leading white space and optional sign |
| Text.ParseIntOfPadded | scrape.js:16 | white space, an optional sign, a run of digits and any tail not starting with a digit parse to the signed value of the digits; the tail is ignored |
| Text.ParseIntSkipsSpace | scrape.js:16 | leading white space does not change what `parseInt` reads |
| Text.ParseSignedOfDigits | scrape.js:16 | past the white space, an optional sign, digits and a tail not starting with a digit read as the digits' value, negated exactly after '-' |
| Text.TrimStartPadded | scrape.js:16 | the leading white space `parseInt` skips is all of it: what follows it is read from its first non-space character |
| Text.DigitPrefixOfDigitsThen | scrape.js:16 | the digit run `parseInt` reads stops exactly at the first non-digit |
| Text.ParseIntOfIntToString | validation.ts:9 | the number rendered in the too-long message parses back (as `parseInt` reads `maxlength`) to the same integer |
| Validation.OnlyDigits | validation.ts:2 | the result holds only digits and is never longer than the input |
| Validation.OnlyDigitsCounts | validation.ts:2 | every digit occurs in the result as often as in the input, so together with the above every non-digit is dropped and nothing is added |
| Validation.OnlyDigitsAppend | validation.ts:2 | filtering distributes over concatenation, so every digit is kept in its original order |
| Validation.OnlyDigitsOfDigits | validation.ts:2 | an all-digit string is unchanged |
| Validation.OnlyDigitsIdempotent | validation.ts:2 | filtering twice is filtering once |
| Validation.MessagesDistinct | validation.ts:6-16 | the required, too-long and format messages differ for every label, so a message identifies its rule |
| Validation.ValidateBySchema | validation.ts:5-23 | empty required value gets exactly "<label> is required." whatever else is set; empty optional value passes; an over-long value gets the length message even if the pattern also fails; a value within length that a compiled pattern rejects gets "<label> format is invalid.", and that message needs a compiled, non-matching pattern; otherwise a non-empty value passes |
| Validation.LengthBoundary | validation.ts:8-10 | length equal to maxlength never gets the length message; length maxlength+1 always does |
| Validation.NoMaxLengthNoLengthCheck | validation.ts:8 | an absent or zero maxlength gives the same result as no maxlength |
| Validation.FailsOpen | validation.ts:13-19 | a pattern that does not compile gives the same result as no pattern |
| App.Transform | App.tsx:154-173 | a name field keeps the input; otherwise a tel/number field or one whose name contains pin/aadhaar/otp keeps exactly the digits; any other field is upper-cased letter by letter (each lower-case ASCII letter becomes its upper-case partner, every other character kept) |
| App.TransformIdempotent | App.tsx:159-173 | transforming the stored value again changes nothing |
| App.FetchPinResult | App.tsx:25-28 | a result exists exactly when the first item's Status is "Success"; a missing post office, District or State becomes "" |
| App.MergeAutofill | App.tsx:71-75 | a non-empty district or state is kept, an empty or missing one takes the looked-up value, and every other key is unchanged |
| App.MergeAutofillIdempotent | App.tsx:71-75 | applying the same answer twice is applying it once |
| App.StepErrorsSnoc | App.tsx:90-93 | one more field records its message under its name when it fails and leaves the dictionary as it was otherwise |
| App.StepErrorsKeys | App.tsx:89-93 | a name has an error exactly when some field of that name fails |
| App.StepErrorsValues | App.tsx:89-93 | the error under a name is the message of some failing field of that name |
| App.StepErrorsSpec | App.tsx:89-93 | both of the above together |
| App.StepErrorsLast | App.tsx:90-93 | with several fields of one name, the error kept is the message of the last failing one, as the later assignment overwrites |
| App.CollectErrors | App.tsx:89-93 | the forEach loop builds exactly the step's error dictionary |
| App.InitialValues | App.tsx:50-53 | the initial values map every field name of every step to "" and nothing else |
| App.Wizard.constructor | App.tsx:32-35 | no schema, step 0, no values, no errors |
| App.Wizard.LoadSchema | App.tsx:49-54 | once loaded, values map every field name of every step to "", at step 0 |
| App.Wizard.SetValue | App.tsx:84-85 | stores the value under the name; every other value unchanged |
| App.Wizard.OnChange | App.tsx:154-177 | a text input stores the transformed value and clears only that field's error; a select stores the raw value and keeps the errors; all other values and errors unchanged |
| App.Wizard.ValidateAll | App.tsx:87-96 | no current step: false and errors untouched; otherwise errors become exactly the current step's failures, and the result is true iff there are none |
| App.Wizard.HandleNext | App.tsx:98-101 | the errors become the current step's failures (untouched when there is no step); the step index grows by exactly one when the step validates and is not the last, and stays otherwise; it remains within the steps; values untouched |
| App.Wizard.HandleBack | App.tsx:103-105 | decrements when above 0, a no-op at 0; nothing is validated and values and errors are untouched |
| App.Wizard.Submit | App.tsx:107-111 | the errors become the current step's failures (untouched when there is no step); the values are posted exactly when the current step validates, and what is posted is the whole values map |
| App.Wizard.PinLookupRequest | App.tsx:62-68 | a lookup is requested only when the schema is in, step 2 has a pinCode field and its value has exactly 6 characters, and it is for that value |
| App.Wizard.ApplyPinResponse | App.tsx:69-77 | a successful answer is merged without overwriting a non-empty district or state; a failed one changes nothing |
| Server.RuleOf | index.js:45-48 | a field's rule has its label, its required flag, a length limit exactly when its maxlength is truthy and a pattern exactly when its pattern is truthy, each with the field's own value |
| Server.RulesOfSnoc | index.js:49 | one more field sets the rule under its name, replacing any earlier one |
| Server.RulesOfSpec | index.js:43-50 | every field name of every step has a rule, and it is the rule of the last field with that name |
| Server.RulesOfUnique | index.js:49 | with unique names, each field's own rule is the one in force |
| Server.RulesOfStep | index.js:44-49 | taking the next field of a step sets the rule under its name on top of the rules built so far |
| Server.AddStepRules | index.js:44-50 | the loop over one step's fields extends the rules with those fields exactly when all their truthy patterns compile |
| Server.PatternsCompileAppend | index.js:43-48 | the patterns of two field lists compile together exactly when those of each do |
| Server.BuildZodFromSchema | index.js:41-53 | the rules are built exactly when every pattern compiles, and they are one rule per name |
| Server.Issues | index.js:45-48 | a missing required value gets exactly ["Required"] and a missing optional one nothing; for a present value, a required field rejects "" with "<label> is required", a longer value gets "<label> too long", a non-matching one "<label> invalid"; no other message appears, at most three in all, no message repeats, and nothing is raised exactly when all three checks pass |
| Server.Decide | index.js:59-62 | accepted exactly when no rule raises anything; on rejection, the per-field errors are exactly the failing names with their messages; accepted data is the body restricted to the schema's names |
| Server.Outcome | index.js:57-59 | the outcome both endpoints share: an error exactly when some field of the document has a truthy pattern that does not compile; otherwise accepted exactly when no rule raises anything, and the verdict is that decision over the document's rules: the failing names with their messages, or the body restricted to the schema |
| Server.Project | index.js:78-92 | each of the eleven columns is the value under its key (aadhaar reads aadhaarNumber), or null when that value is empty or absent; payload is the whole record |
| Server.ApiValidate | index.js:55-67 | 500 when the rules cannot be built, 400 carrying the per-field errors of the failing names when rejected, 200 when accepted |
| Server.ApiSubmit | index.js:69-99 | same decision as validate; a rejected record gets 400 and nothing is stored; an accepted one is stored as the projection of the body restricted to the schema and gets its id, or 500 when the store fails |
| Agreement.FieldAgrees | index.js:45-48 | for a required or unconstrained field with a compiling pattern, the client passes a value exactly when the server rule raises nothing |
| Agreement.StepAccepted | App.tsx:87-96 | a step validates exactly when none of its fields fails |
| Agreement.AllStepsAccepted | App.tsx:98-101 | every step validates exactly when every field of the document passes |
| Agreement.AllFieldsAccepted | index.js:43-50 | with unique names, every field passes on the client exactly when no server rule raises anything |
| Agreement.ClientServerAgree | index.js:71-76 | a record with a value for every name passes every wizard step exactly when the backend accepts it (unique names, compiling patterns, required or unconstrained fields) |
| Scrape.OptionOf | scrape.js:21-25 | an option element is dropped exactly when its trimmed text is empty; otherwise it gives one option whose label is the trimmed text and whose value is the value attribute when non-empty, else that text |
| Scrape.OptionsOf | scrape.js:19-26 | a single option element contributes exactly what OptionOf makes of it; collected options have non-empty trimmed text and a non-empty value, at most one per option element |
| Scrape.OptionsOfAppend | scrape.js:21-25 | collecting distributes over concatenation, so options keep document order |
| Scrape.CollectOptions | scrape.js:20-25 | the option loop collects exactly the options of the select |
| Scrape.LabelOf | scrape.js:10 | no label without an id; otherwise the trimmed label text when non-empty, else a non-empty aria-label, else null |
| Scrape.BaseField | scrape.js:9-18 | tag is the lower-cased tag name; id falls back from the id attribute to the name attribute to ""; name falls back to id; id and name are empty together; the label as LabelOf says; placeholder and pattern are the attribute when non-empty, else null; type defaults to select/text; required iff the attribute is present; maxlength null when absent, else the parsed value; no options |
| Scrape.Normalized | scrape.js:8-28 | the scalar part as BaseField states, plus options exactly for selects, those being the collected options |
| Scrape.NormalizeField | scrape.js:8-28 | computes the descriptor of the element |
| Scrape.Kept | scrape.js:39-42 | every kept field has a non-empty id and name |
| Scrape.KeptFrom | scrape.js:39-42 | every kept field is the normalization of one of the elements |
| Scrape.KeptAppend | scrape.js:39-42 | keeping distributes over concatenation, so kept fields are in document order |
| Scrape.KeptExactly | scrape.js:41 | an element's normalization is kept exactly when it has a non-empty id or name attribute |
| Scrape.ScrapeStep | scrape.js:57-61 | the loop keeps exactly the normalized elements with an id or name, in order |
| Scrape.FirstMatch | scrape.js:65 | the first field whose lower-cased id or name contains the key, or -1 when none does |
| Scrape.FindIndex | scrape.js:65 | the search loop returns that first match |
| Scrape.WithRule | scrape.js:64-67 | only the first match can change, only its pattern, and only when it has none; no match leaves the fields unchanged |
| Scrape.FirstMatchSameKeys | scrape.js:65 | the first match depends only on ids and names |
| Scrape.WithRuleIdempotent | scrape.js:64-67 | adding the same rule twice is adding it once |
| Scrape.EnsureRule | scrape.js:64-67 | the array afterwards is the fields with the rule added, updated in place |
| Scrape.BuildStep | scrape.js:57-68 | one step: the kept fields of a page with the rule added to the first match where missing |
| Scrape.BuildDocument | scrape.js:68-78 | two steps: step 1's kept fields with the Aadhaar pattern added, step 2's with the PAN pattern |

## Left out

- Rendering (App.tsx:113-243) and Progress.tsx: markup, and a floating-point percentage.
- Loading the schema over the network with its static-file fallback (App.tsx:38-60): `LoadSchema` receives the document.
- The `fetch` of the PIN lookup (App.tsx:23-24) and the race between overlapping lookups: the request (`PinLookupRequest`) and the completion (`ApplyPinResponse`) are separate steps, and which answer arrives last is not modelled.
- The effect's re-run on a change of `stepIndex` or `schema` (App.tsx:80): a lookup is described by its trigger condition, not by React's dependency tracking.
- `axios.post`, its swallowed failure and `alert` (App.tsx:109-110): `Submit` returns the values it would post.
- Express routing, `/api/health`, reading and parsing the schema file with its 500 "Schema not found", and `listen` (index.js:25-38, index.js:101-102): the endpoints receive the document.
- The Prisma store (index.js:78-93): its answer to `create` is a parameter.
- Zod internals: error flattening and the message for a missing required key (modelled as "Required"); non-string values in a body.
- Server.Issues: for an optional field with a maximum length or pattern, it models the intended checks; whether Zod allows chaining them on an optional schema is not modelled, and nothing is asserted about client and server agreeing on such fields.
- Server.Issues: the contract bounds the messages and says which can appear, but not their order; the body lists them in check order (required, length, pattern).
- JavaScript regular expressions: `compiles` and `test` are uninterpreted.
- Puppeteer and cheerio (scrape.js:30-62, scrape.js:79-91): page navigation, the OTP click, DOM queries and writing the file; the label text, attributes and option children of an element are inputs, and the `generatedAt` timestamp and `source` URL are not part of the document.
- Text.ToLower and Text.ToUpper map ASCII letters only; other Unicode case mappings are not modelled.
- Text.Trim and Text.ParseInt skip ASCII white space, NBSP and BOM only, not every Unicode space.
- Text.ParseInt is exact on unbounded integers; rounding above 2^53 is not modelled, and neither is the exponent notation JavaScript uses when rendering very large numbers.
- String lengths count characters, not UTF-16 code units.
- App.FetchPinResult: the decoded answer is a sequence of items; a `null` or non-array answer, or a `null` item, is not modelled separately (each makes `fetchPIN` throw, like an empty answer).
- App.Wizard.Submit: the UI shows the submit button only on the last step; the model does not require that.
