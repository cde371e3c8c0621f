# Diagnostic wizard of the Grupo Inforum site, modelled in Dafny

The page `app/diagnostico/diagnostico-content.tsx` is a three-step lead
qualification wizard. Step 1 asks three single-choice questions (industry,
ERP, what the visitor is looking for); some options ask for a free-text
supplement. Step 2 collects name, company, role, a corporate e-mail address,
the country and a local phone number. Step 3 asks for consent and submits
everything, with the campaign (`utm_*`) parameters of the address, to a form
endpoint; on success a confirmation replaces the wizard, on failure an error
message is shown.

The model follows the component's own structure:

| module | file | what it holds |
|---|---|---|
| `Options` | `options.dfy` | the `Option` datatype |
| `Text` | `text.dfy` | the JavaScript string primitives the page uses: `trim`, ASCII `toLowerCase`, `replace(/[^\d]/g, "")`, `String(n)`, `.length` in UTF-16 code units; `EndsWith` is a proof helper |
| `Catalog` | `catalog.dfy` | the constant tables: questions and options, countries, dialing prefixes, phone rules, the consumer e-mail blocklist |
| `Validation` | `validation.dfy` | `isCorporateEmail`, the `/.+@.+\..+/` shape test, `isPhoneValid`, `phoneFull`, `phoneRequirementText` and the step-2 gate `canContinueData` |
| `Answers` | `answers.dfy` | the answers object of step 1 (`handleSelect`, `handleExtraText`, `shouldShowExtraInput`, `canContinueQuestions`, `Object.values`) as a value |
| `Wizard` | `wizard.dfy` | the campaign loop, the step machine, the form edits, the submission outcome, and the component itself as a class `Wizard` whose fields are its state hooks |

The answers and the form are values, because the component never mutates
them: each handler replaces them with a new object. The component's state
(`step`, `answers`, `form`, `errorMsg`, `resultUI`) is a class. Each event
handler is a method guarded by what is on screen when its control can be
used. The class invariant `Wizard.Wizard.Valid` says that:

- the step is 1, 2 or 3;
- the answers are filed under question ids only;
- the phone holds digits only;
- step 2 or later is reached only with every question answered;
- step 3 is reached only with valid contact data;
- the confirmation appears only on step 3 with no error showing.

The endpoint's reply is a parameter of `Submit`, and a submission is one
atomic step. The address's query string is a map fixed when the page loads.

Two behaviours of the code are worth stating:

- Choosing an option writes `{ id, value }` without `extraText` (line 179),
  so the free text typed for the previous choice is dropped.
  `Answers.ReselectForgetsText` states it.
- An address without `@` is judged by the blocklist as a whole: `acme.com`
  passes `isCorporateEmail`. Only the shape test refuses it, so the step-2
  gate stays closed either way. `Validation.NoAtSignPassesBlocklistOnly` and
  `Validation.DataGateNeedsAt` state it.

## Model

| member | source | states |
|---|---|---|
| Catalog.FindQuestion | app/diagnostico/diagnostico-content.tsx:193-194 | the result is a question of the table with the asked id, and there is none exactly when no question has that id |
| Catalog.RuleFor | app/diagnostico/diagnostico-content.tsx:75-85 | the phone-rule table; `Validation.RuleMinimumAndNote` reads it as minimums and notes |
| Catalog.FindChoice | app/diagnostico/diagnostico-content.tsx:196 | the result is an option of the question with the asked value, and there is none exactly when no option has that value |
| Catalog.QuestionIdsAre | app/diagnostico/diagnostico-content.tsx:11-48 | a question id is found exactly when it is `industria`, `erp` or `busca` |
| Catalog.QuestionTableDistinct | app/diagnostico/diagnostico-content.tsx:11-48 | no two questions share an id, and no two options of a question share a value |
| Catalog.Prefix | app/diagnostico/diagnostico-content.tsx:208-211 | the prefix is `+` followed by digits, and a code without an entry (own or inherited) gets the default prefix `+502` |
| Catalog.CountryLabel | app/diagnostico/diagnostico-content.tsx:257-258 | a listed country is sent under its display name, an unlisted code as its own text |
| Catalog.CodeTextInjective | app/diagnostico/diagnostico-content.tsx:55-62 | distinct codes have distinct texts, and a code's text is one of the six listed ones exactly when the code is listed |
| Catalog.CountryTablesAgree | app/diagnostico/diagnostico-content.tsx:55-85 | the country list, the prefix table and the phone-rule table cover exactly the same six codes |
| Catalog.FreeEmailDomainsTrimmed | app/diagnostico/diagnostico-content.tsx:92-102 | every blocklisted domain is non-empty and has no whitespace at either end, so a trimmed domain can match it |
| Text.TrimStartIsSuffix | app/diagnostico/diagnostico-content.tsx:238 | dropping leading whitespace leaves the suffix that starts with the first other character |
| Text.Trim | app/diagnostico/diagnostico-content.tsx:238 | `trim`; characterised by `Text.TrimIsSlice` and `Text.TrimCutsWhitespace` |
| Text.TrimEndIsPrefix | app/diagnostico/diagnostico-content.tsx:238 | dropping trailing whitespace leaves the prefix that ends with the last other character |
| Text.TrimIsSlice | app/diagnostico/diagnostico-content.tsx:238 | `trim` returns a contiguous slice of its input with no whitespace at either end |
| Text.TrimCutsWhitespace | app/diagnostico/diagnostico-content.tsx:238 | everything `trim` removes, on either side, is whitespace |
| Text.TrimPadded | app/diagnostico/diagnostico-content.tsx:105 | whitespace around a text with non-blank ends is exactly what `trim` removes |
| Text.TrimOfTrimmed | app/diagnostico/diagnostico-content.tsx:238 | a text with non-blank ends is left unchanged by `trim` |
| Text.TrimAllWhitespace | app/diagnostico/diagnostico-content.tsx:238 | a text made only of whitespace trims to the empty text |
| Text.LowerAscii | app/diagnostico/diagnostico-content.tsx:105 | lower-casing keeps the length, maps each character on its own, and leaves no upper-case ASCII letter |
| Text.Digits | app/diagnostico/diagnostico-content.tsx:214 | stripping non-digits leaves only digits, never lengthens the text, keeps an all-digit text, and empties a digit-free one |
| Text.DigitsOfConcat | app/diagnostico/diagnostico-content.tsx:219 | stripping a concatenation is concatenating the stripped parts |
| Text.DigitsIdempotent | app/diagnostico/diagnostico-content.tsx:474 | stripping twice is stripping once |
| Text.DecimalString | app/diagnostico/diagnostico-content.tsx:230 | `String(n)` is a non-empty digit string without a leading zero that denotes `n` |
| Text.LeadingDigits | app/diagnostico/diagnostico-content.tsx:230 | the longest digit prefix of a text: it is a prefix, all digits, and stops at a non-digit or the end |
| Text.DecimalStringReadBack | app/diagnostico/diagnostico-content.tsx:230 | the number printed by `String(n)` is read back from the front of any text it begins, when a non-digit follows |
| Text.Utf16LengthBounds | app/diagnostico/diagnostico-content.tsx:238 | `.length` counts one or two code units per character, exactly one each inside the Basic Multilingual Plane |
| Validation.AfterLastAt | app/diagnostico/diagnostico-content.tsx:105 | `split("@").pop()` is the longest suffix without `@`, preceded by an `@` unless it is the whole text |
| Validation.IsCorporateEmail | app/diagnostico/diagnostico-content.tsx:104-108 | `isCorporateEmail`; characterised by `Validation.CorporateEmailOfAddress` and `Validation.CorporateEmailWithoutAt` |
| Validation.AfterLastAtOfAddress | app/diagnostico/diagnostico-content.tsx:105 | for `p@d` with no `@` in `d` the domain part is `d`, whatever `p` holds |
| Validation.CorporateEmailOfAddress | app/diagnostico/diagnostico-content.tsx:104-108 | for `p@d` the verdict is: the trimmed lower-cased `d` is non-empty and not blocklisted |
| Validation.CorporateEmailWithoutAt | app/diagnostico/diagnostico-content.tsx:104-108 | a text without `@` is judged as a whole by the blocklist |
| Validation.FreeProviderRefused | app/diagnostico/diagnostico-content.tsx:104-108 | a blocklisted provider is refused whatever its capitalisation, surrounding blanks or local part |
| Validation.ConsumerAddressRefused | app/diagnostico/diagnostico-content.tsx:104-108 | an address whose lower-cased domain is blocklisted is not corporate |
| Validation.CompanyAddressAccepted | app/diagnostico/diagnostico-content.tsx:104-108 | a lower-case, non-blank domain that is not blocklisted is accepted after any local part |
| Validation.UpperCaseProviderRefused | app/diagnostico/diagnostico-content.tsx:104-108 | `X@GMAIL.COM` is refused |
| Validation.CompanyDomainAccepted | app/diagnostico/diagnostico-content.tsx:104-108 | `ana@empresa.com` is accepted |
| Validation.MatchesEmailShape | app/diagnostico/diagnostico-content.tsx:241 | `/.+@.+\..+/.test`; characterised by `Validation.EmailShapeNeedsAt` and `Validation.EmailShapeOfParts` |
| Validation.EmailShapeNeedsAt | app/diagnostico/diagnostico-content.tsx:241 | whatever passes `/.+@.+\..+/` has an `@` with at least one character on each side |
| Validation.EmailShapeOfParts | app/diagnostico/diagnostico-content.tsx:241 | `local@mid.top` passes the shape test when the three parts are non-empty and hold no line terminator |
| Validation.NoAtSignPassesBlocklistOnly | app/diagnostico/diagnostico-content.tsx:104-108 | a text without `@` that is not blocklisted passes `isCorporateEmail` yet fails the shape test |
| Validation.IsPhoneValid | app/diagnostico/diagnostico-content.tsx:218-225 | `isPhoneValid`; characterised by `Validation.PhoneRuleTable` and `Validation.PhoneSeparatorsIgnored` |
| Validation.PhoneRuleTable | app/diagnostico/diagnostico-content.tsx:218-225 | a number is valid exactly when it has at least 8 digits, or 10 for the Dominican Republic and 9 for Ecuador |
| Validation.PhoneSeparatorsIgnored | app/diagnostico/diagnostico-content.tsx:218-219 | non-digit separators typed anywhere in the number never change the verdict |
| Validation.PhoneExamples | app/diagnostico/diagnostico-content.tsx:218-225 | 8 digits fail and 9 pass for Ecuador; 9 fail and 10 pass for the Dominican Republic |
| Validation.PhoneFull | app/diagnostico/diagnostico-content.tsx:213-216 | the sent phone always starts with the country's prefix, and is exactly the prefix when no digit was typed |
| Validation.PhoneFullRoundTrip | app/diagnostico/diagnostico-content.tsx:213-216 | splitting the sent phone at its first space gives back the prefix and the typed digits, and there is a space exactly when a digit was typed |
| Validation.JoinSplit | app/diagnostico/diagnostico-content.tsx:215 | a space-free head joined to an optional tail by one space splits back into the two |
| Validation.PrefixHasNoSpace | app/diagnostico/diagnostico-content.tsx:66-73 | a prefix made of `+` and digits holds no space |
| Validation.PhoneFullBlank | app/diagnostico/diagnostico-content.tsx:213-216 | Guatemala with no digits is sent as the bare `+502` |
| Validation.PhoneFullPanama | app/diagnostico/diagnostico-content.tsx:213-216 | `12345678` in Panama is sent as `+507 12345678` |
| Validation.PhoneRequirementText | app/diagnostico/diagnostico-content.tsx:227-234 | every guidance opens with `Ingresa ` and closes with a period; an unlisted code gets the fixed "at least 8 digits" text; for a listed country the number after `Ingresa ` reads back as that country's minimum from the validity table; Ecuador's text ends with the mobile note, every other listed country's with ` del número local.` |
| Validation.RuleMinimumAndNote | app/diagnostico/diagnostico-content.tsx:75-85 | exactly the unlisted codes have no rule; each rule's minimum is the country's threshold, and only Ecuador's rule has a note, the mobile note |
| Validation.RuleRequirement | app/diagnostico/diagnostico-content.tsx:230-233 | the guidance opens with `Ingresa `, the number that follows reads back as the rule's minimum, and the text ends with the note and a period when a note is set, with ` del número local.` otherwise |
| Validation.RuleRequirementMaximum | app/diagnostico/diagnostico-content.tsx:229-233 | after the minimum's digits the text reads ` dígitos (máx. ` exactly when the rule sets a non-zero maximum, and the number that follows reads back as that maximum; otherwise ` dígitos del número local` follows the minimum directly |
| Validation.AfterMinimumOf | app/diagnostico/diagnostico-content.tsx:229-233 | reading the minimum's digits off a guidance text leaves exactly the words the rule puts after them |
| Validation.CanContinueData | app/diagnostico/diagnostico-content.tsx:236-245 | `canContinueData`; what closes it is stated by the `DataGateNeeds…` lemmas, an open case by `Validation.ExampleFormAccepted` |
| Validation.DataGateNeedsAt | app/diagnostico/diagnostico-content.tsx:236-245 | without an `@` in the address the step-2 gate is closed |
| Validation.DataGateNeedsText | app/diagnostico/diagnostico-content.tsx:236-245 | a blank name, company or role keeps the step-2 gate closed |
| Validation.DataGateNeedsCorporate | app/diagnostico/diagnostico-content.tsx:236-245 | a consumer address keeps the step-2 gate closed whatever else is filled in |
| Validation.LongEnoughOfTrimmed | app/diagnostico/diagnostico-content.tsx:238-240 | a text of two or more characters with non-blank ends passes the length test |
| Validation.ExampleFormAccepted | app/diagnostico/diagnostico-content.tsx:236-245 | Ana, Empresa, Gerente, `ana@empresa.com`, Panama, `12345678` opens the step-2 gate, with or without consent |
| Answers.EmptyValid | app/diagnostico/diagnostico-content.tsx:131 | the initial `{}` satisfies the answers invariant |
| Answers.Put | app/diagnostico/diagnostico-content.tsx:177-180 | `{ ...r, [k]: a }` stores `a` under `k`, keeps every other entry, keeps a known key's place and appends a new key |
| Answers.Select | app/diagnostico/diagnostico-content.tsx:174-181 | an unknown question id changes nothing; otherwise the question's entry becomes the chosen option without free text and every other entry stays |
| Answers.PatchExtraText | app/diagnostico/diagnostico-content.tsx:183-190 | without an answer nothing changes; otherwise the answer keeps its option and takes the text, and the other entries and the key order stay |
| Answers.SelectKeepsValid | app/diagnostico/diagnostico-content.tsx:174-181 | choosing an option keeps the answers invariant |
| Answers.PatchKeepsValid | app/diagnostico/diagnostico-content.tsx:183-190 | typing free text keeps the answers invariant |
| Answers.PutTwice | app/diagnostico/diagnostico-content.tsx:177-180 | writing a key twice keeps only the second write |
| Answers.ReselectForgetsText | app/diagnostico/diagnostico-content.tsx:177-180 | choosing an option after typing free text gives the same answers as choosing it without the text |
| Answers.SelectIdempotent | app/diagnostico/diagnostico-content.tsx:177-180 | choosing the same option twice is choosing it once |
| Answers.ShouldShowExtraInput | app/diagnostico/diagnostico-content.tsx:192-198 | `shouldShowExtraInput`; characterised by `Answers.ExtraInputExactly` |
| Answers.ExtraInputExactly | app/diagnostico/diagnostico-content.tsx:192-198 | the free-text field shows exactly for `otro`, `erp_otro`, `sistema` and `servicio` when that option is the recorded one |
| Answers.CanContinueQuestions | app/diagnostico/diagnostico-content.tsx:200-203 | `canContinueQuestions`; characterised by `Answers.QuestionsGate` |
| Answers.QuestionsGate | app/diagnostico/diagnostico-content.tsx:200-203 | the step-1 gate opens exactly when `industria`, `erp` and `busca` all have an answer |
| Answers.Values | app/diagnostico/diagnostico-content.tsx:256 | `Object.values` lists one answer per key, in key order |
| Answers.ValuesCount | app/diagnostico/diagnostico-content.tsx:256 | `Object.values` yields as many answers as there are entries |
| Answers.DistinctCard | app/diagnostico/diagnostico-content.tsx:256 | a key list without repeats has as many keys as its set |
| Answers.CompleteAnswersAreThree | app/diagnostico/diagnostico-content.tsx:256 | past the step-1 gate the submitted items are three answers with distinct question ids |
| Wizard.LookupConcat | app/diagnostico/diagnostico-content.tsx:166 | reading a key of an object built in two parts finds it in the first part before the second |
| Wizard.UtmsOf | app/diagnostico/diagnostico-content.tsx:155-169 | the campaign object; characterised by `Wizard.UtmsLookup` and `Wizard.UtmsEntries` |
| Wizard.UtmsLookup | app/diagnostico/diagnostico-content.tsx:155-169 | a key reads back from the campaign object exactly when it is a campaign key with a non-empty value in the address |
| Wizard.UtmsEntries | app/diagnostico/diagnostico-content.tsx:155-169 | every collected entry is a campaign key with its non-empty address value, no key twice, at most five |
| Wizard.BuildUtms | app/diagnostico/diagnostico-content.tsx:164-167 | the loop over the five keys builds exactly the campaign object |
| Wizard.StepAfter | app/diagnostico/diagnostico-content.tsx:383-545 | a click moves only from the button's own step, by one step, and forward only through an open gate; a forward button never moves back |
| Wizard.StepButtons | app/diagnostico/diagnostico-content.tsx:383-545 | both back buttons always work; each forward button moves on when its gate is open and leaves the step as it is when disabled |
| Wizard.StepKeepsGates | app/diagnostico/diagnostico-content.tsx:383-545 | no click moves past a closed gate |
| Wizard.ApplyEdit | app/diagnostico/diagnostico-content.tsx:396-521 | the edited field takes the new value (the phone only its digits) and every other field stays |
| Wizard.ConsentKeepsDataGate | app/diagnostico/diagnostico-content.tsx:519-521 | ticking or clearing consent never changes the step-2 gate |
| Wizard.PhoneEditKeepsNumber | app/diagnostico/diagnostico-content.tsx:471-475 | stripping the phone as it is typed does not change the number that is sent |
| Wizard.FailureMessage | app/diagnostico/diagnostico-content.tsx:276 | the error shown is the failure's own message when it is non-empty, the fixed fallback otherwise, and never empty |
| Wizard.PayloadOf | app/diagnostico/diagnostico-content.tsx:255-268 | the posted payload; `Wizard.GatedPayload` states what it carries past both gates |
| Wizard.GatedPayload | app/diagnostico/diagnostico-content.tsx:255-268 | a payload built past both gates carries three distinct answers, a corporate address of the right shape, a phone that splits back into prefix and enough digits, and at most five campaign entries, each a campaign key with its value from the address |
| Wizard.UtmKeysDistinct | app/diagnostico/diagnostico-content.tsx:156-162 | the five campaign keys are distinct |
| Wizard.GatesAtConsent | app/diagnostico/diagnostico-content.tsx:500-502 | in a consistent state on step 3 both gates are open |
| Wizard.EditKeepsConsistent | app/diagnostico/diagnostico-content.tsx:396-521 | an input edited on its own step keeps the state consistent |
| Wizard.PressKeepsConsistent | app/diagnostico/diagnostico-content.tsx:383-545 | a click keeps the state consistent |
| Wizard.Wizard.constructor | app/diagnostico/diagnostico-content.tsx:130-153 | the first render: step 1, no answers, the initial form, no message, and the invariant holds |
| Wizard.Wizard.SelectOption | app/diagnostico/diagnostico-content.tsx:174-181 | on step 1 a known question takes the chosen option; otherwise nothing changes; the invariant is kept |
| Wizard.Wizard.EditExtraText | app/diagnostico/diagnostico-content.tsx:183-190 | the text is stored only while its field is on screen; the invariant is kept |
| Wizard.Wizard.Edit | app/diagnostico/diagnostico-content.tsx:396-521 | the edit applies only on the input's own step; the invariant is kept |
| Wizard.Wizard.Press | app/diagnostico/diagnostico-content.tsx:383-545 | while the wizard is shown the step moves as the button and the two gates say; the invariant is kept |
| Wizard.Wizard.PostedPayload | app/diagnostico/diagnostico-content.tsx:255-268 | the payload built from the state, with the campaign loop |
| Wizard.Wizard.Submit | app/diagnostico/diagnostico-content.tsx:247-280 | off step 3 nothing happens. Without consent: the consent message and nothing sent. Otherwise the state's payload is sent, only from a consistent step-3 state. Success shows the confirmation titled "Formulario enviado" with its thank-you message and no error; failure shows the failure message. The invariant is kept |

## Left out

- The network call `submitDiagnostico` is replaced by the `Outcome` parameter of `Submit`. Not modelled: the fetch, the JSON parsing, the status check, and how its error message is built from the reply (lines 113-123).
- The `loading` flag and the asynchrony of `onSubmit` are not modelled. A submission is one atomic step, so the single-flight guard `disabled={loading || …}` on the submit button is not modelled.
- Wizard.Wizard.Submit and Wizard.ResultShown: a click on step 3's "Atrás" while the submission is pending is not modelled. That button is not disabled by `loading` (lines 542-546), so in the component the confirmation or the failure message can arrive while step 2 is showing. The invariant "the confirmation appears only on step 3" holds in the model only because `Submit` is atomic.
- Catalog.Prefix and Catalog.RuleFor: a code text equal to a listed code, or to a property name every object inherits from `Object.prototype` (`constructor`, `toString`, `__proto__` and the like), is not an `Unlisted` code. In the component, such a name finds the inherited member: the prefix does not fall back to `+502`, and the rule exists with an undefined minimum, which rejects every number. The model does not cover those inputs. The select never offers them.
- The progress bar (`progressPct`, `barWidth`) and all rendering are left out: labels, the inline warnings under the e-mail and phone inputs, and the links of the confirmation.
- The privacy-policy link read from the environment is left out.
- Text.LowerAscii: maps only the ASCII letters. Full Unicode case mapping is not modelled, because it depends on tables outside the code. A blocklisted domain spelled with a non-ASCII capital that lower-cases to an ASCII letter (the Kelvin sign U+212A becomes `k`) is refused by the component and accepted by the model.
- The query string is a map from each name to its first value. Repeated parameters and URL decoding are not modelled.
- Regular expressions are modelled only as the two the code uses: `/.+@.+\..+/` by its matching condition, and `/[^\d]/g` as `Text.Digits`. There is no general regex engine.
- React state batching and closures are not modelled. `handleExtraText` reads the rendered `answers` rather than the previous state. Between events the two coincide, and the model uses the current answers.
- The submit button is disabled without consent, so the consent branch of `Wizard.Wizard.Submit` can only be reached by calling the handler directly. The model keeps it, as the code does.
- Wizard.Wizard.Submit: states that a payload is sent only from a state satisfying `Consistent(3, …)` with consent, rather than naming both gates directly. `Wizard.GatesAtConsent` turns that into the two open gates, and `Wizard.GatedPayload` turns those into the payload's properties.
