# UCN signature generator — a verified model of its core

The signature generator lets a member of the Universidad Católica del Norte fill in a form
(name, one or more positions, email, phone, optional links) and copy an HTML email signature.
This project models the engine behind that form in Dafny and proves properties of the model.
It covers five parts:

- **Field validation** (`FormValidation`, in `validation.dfy`).
  - `validateField` is modelled with each regular expression stated as the character-class and length predicate it denotes.
  - `validateForm` is modelled twice: as the specification function `FormErrors` and as the loop `CollectFormErrors`, proved equal to it.
  - The stored error list is the class `ErrorState`. Its lookup, clearing and emptiness operations are proved against the specification.
- **Session state** (`SignatureSession`, in `session.dfy`, over the record of `SignatureData`).
  - The class `Session` holds the record being edited and the `copySuccess` flag.
  - Each operation is proved to leave exactly the state that the pure update in `SignatureData` describes.
  - `copyToClipboard` is modelled against an abstract platform (see `Platform`).
- **HTML composer** (`SignatureHtml`, in `html.dfy`).
  - `GenerateHTML` reproduces the template text of `generateHTML` literally.
  - The rows of the signature are also given as a list of line kinds (`Lines`) with a serialiser (`Render`), and `Render(Lines(d)) == GenerateHTML(d)` is proved.
  - Row presence and row order are then stated exactly on the list rather than by searching the string.
- **Live preview** (`SignaturePreview`, in `preview.dfy`).
  - The logo size is a clamp of 95 % of the column height with a 5-pixel hysteresis gate, kept in the class `LogoSizer`.
  - The rows and social icons the preview shows are modelled as a selection function.
  - The copy button's handler is a method that calls back into the session only on success.
- **Application shell** (`SignatureApp`, in `app.dfy`): the `hasPosition` / `isFormValid` predicates that enable the copy button.

Supporting modules:

- `Optional` (`optional.dfy`) holds the option type.
- `JsString` (`js_string.dfy`) holds the JavaScript string operations the core relies on.
  - The one whitespace predicate `IsJsSpace` serves both the regex class `\s` and `String.prototype.trim`.
  - `Utf16Length` counts `.length` in UTF-16 code units.

Behaviour of the code worth noting:

- The instructions shown to users promise up to three positions (src/components/InstructionsModal.tsx:166), but the code has no upper limit and no lower limit of one: `addPosition` always appends, and `removePosition` can empty the list.
- The position character class rejects digits. Its `)-/` is a range `)` … `/`, so `*+,-./` are admitted.
- The logo in the generated HTML is a fixed 90 × 90 image, not the computed size.
- The plain-text part of the clipboard item is the full name alone, not the markup with its tags removed.
- The copy button is enabled by a presence check on the name, a non-blank position and the email. The field validator is not consulted (`SignatureApp.EnabledDespiteErrors`).
- Only the preview's copy handler writes the rendered node. `copyToClipboard` writes the generated markup, and its fallback writes the raw HTML.

## Model

| member | source | states |
|---|---|---|
| JsString.Trim | src/hooks/useFormValidation.ts:79 | `trim` cuts a whitespace-only prefix and a whitespace-only suffix, and what is left neither starts nor ends with whitespace |
| JsString.BlankIffTrimsEmpty | src/hooks/useFormValidation.ts:137 | a string trims to empty exactly when every character is whitespace, so the `trim` tests and the `\s` class agree |
| JsString.Utf16Length | src/hooks/useFormValidation.ts:80 | `.length` counts one unit for a character of the basic plane and two for one above U+FFFF, between one and two units per character |
| JsString.Utf16LengthConcat | src/hooks/useFormValidation.ts:80 | the length of a concatenation is the sum of the lengths, so every character adds its own units |
| JsString.NatToString | src/hooks/useFormValidation.ts:144 | the decimal text of an index is non-empty, all digits, and ends in the last digit of the number |
| JsString.NatToStringValue | src/hooks/useFormValidation.ts:144 | the digits of the text read back, most significant first, as the index itself, with no leading zero except for 0 |
| JsString.NatToStringInjective | src/hooks/useFormValidation.ts:144 | different indices give different `position-${index}` suffixes |
| SignatureData.SocialUrl | src/hooks/useFormValidation.ts:165-166 | a social url is found only under its own key, and a missing key gives none |
| SignatureData.SocialUrlFirst | src/hooks/useFormValidation.ts:165-166 | when the object has the key, the lookup gives the url of its first entry under that key |
| SignatureData.FilledPositions | src/hooks/useFormValidation.ts:137 | the filtered positions are exactly the non-blank ones of the list |
| SignatureData.FilledPositionsConcat | src/hooks/useSignatureGenerator.ts:77-78 | filtering distributes over concatenation, so array order is kept |
| SignatureData.FilledPositionsEmpty | src/hooks/useFormValidation.ts:137-138 | nothing survives the filter exactly when every position is blank |
| SignatureData.WithField | src/hooks/useSignatureGenerator.ts:32-37 | the updated field holds the new value and every other field is unchanged |
| SignatureData.AppendBlank | src/hooks/useSignatureGenerator.ts:43-48 | one `''` is appended after the unchanged earlier positions |
| SignatureData.ReplaceAt | src/hooks/useSignatureGenerator.ts:50-55 | the length is kept, only the given index changes, and an index outside the list changes nothing |
| SignatureData.RemoveAt | src/hooks/useSignatureGenerator.ts:57-62 | exactly the element at the index is dropped, and an index outside the list changes nothing |
| SignatureData.RemoveAtShifts | src/hooks/useSignatureGenerator.ts:57-62 | after a removal the later positions move down by one and keep their order |
| SignatureData.RemoveLastSlotEmpties | src/hooks/useSignatureGenerator.ts:57-62 | removing the only position leaves an empty list, since there is no minimum-one guard |
| SignatureData.AppendThenRemove | src/hooks/useSignatureGenerator.ts:43-62 | adding a position and then removing it restores the list |
| SignatureData.ReplaceRoundTrip | src/hooks/useSignatureGenerator.ts:50-55 | writing back the old value after an update restores the list |
| FormValidation.ValidateField | src/hooks/useFormValidation.ts:69-125 | a message is only given for a known kind, and an empty value gets one only for fullName, position or email |
| FormValidation.ValidateFieldCases | src/hooks/useFormValidation.ts:77-118 | each known kind gives the verdict of its own rule chain |
| FormValidation.UnknownKindIsValid | src/hooks/useFormValidation.ts:120-124 | any other kind gives no message, for every value |
| FormValidation.MatchesNamePattern | src/hooks/useFormValidation.ts:41 | one or more characters of the name class; the verdict it feeds is stated by `FormValidation.FullNameRuleOrder` |
| FormValidation.MatchesPositionPattern | src/hooks/useFormValidation.ts:47 | one or more characters of the position class, read with `)-/` as a range; see `FormValidation.PositionCharset` |
| FormValidation.MatchesDomainWithTld | src/hooks/useFormValidation.ts:52 | domain characters, a dot, then two or more letters to the end; see `FormValidation.DomainEndsInTld` |
| FormValidation.MatchesEmailPattern | src/hooks/useFormValidation.ts:52 | local characters, `@`, then a domain with a top-level part; see `FormValidation.EmailEndsInTld` |
| FormValidation.MatchesPhonePattern | src/hooks/useFormValidation.ts:57 | an optional `+`, then 7 to 20 digits, spaces, dashes or parentheses; see `FormValidation.PhoneRule` |
| FormValidation.MatchesUrlPattern | src/hooks/useFormValidation.ts:61 | `http://` or `https://`, then a non-empty tail with no whitespace, angle brackets, quotes, braces, bars, backslashes, carets, backticks or square brackets; see `FormValidation.UrlRule` |
| FormValidation.FullNameRuleOrder | src/hooks/useFormValidation.ts:78-86 | a blank name is reported as required, then a name over 60 units as too long, then a name with a character outside the name class gets the name message; otherwise it passes, so a name passes exactly when it is not blank, within 60 units and wholly in the class |
| FormValidation.FullNameRejectsDigitsAndDots | src/hooks/useFormValidation.ts:41 | a name with a digit or a full stop is rejected |
| FormValidation.PositionRuleOrder | src/hooks/useFormValidation.ts:88-96 | the same three steps, with a limit of 80, the position class and the position message for a character outside it |
| FormValidation.PositionCharset | src/hooks/useFormValidation.ts:47 | the position class rejects every digit and admits `*`, `+` and `/` through the `)-/` range |
| FormValidation.PositionRejectsDigits | src/hooks/useFormValidation.ts:47 | a position with a digit is rejected |
| FormValidation.EmailRuleOrder | src/hooks/useFormValidation.ts:98-106 | a blank email is reported as required; a non-blank address that does not match the pattern gets the format message; a well-formed address without `ucn.cl` gets the domain message; an email passes exactly when it is well formed and contains `ucn.cl` |
| FormValidation.DomainEndsInTld | src/hooks/useFormValidation.ts:52 | a matching domain part ends in at least two letters |
| FormValidation.EmailEndsInTld | src/hooks/useFormValidation.ts:52 | an accepted address ends in at least two letters and has at least six characters |
| FormValidation.PhoneRule | src/hooks/useFormValidation.ts:108-112 | an empty phone passes; a non-empty one passes exactly when it matches the phone pattern, and otherwise gets the phone message |
| FormValidation.UrlRule | src/hooks/useFormValidation.ts:114-118 | an empty url passes, and a non-empty one passes exactly when it matches the url pattern |
| FormValidation.InstitutionalAddressAccepted | src/hooks/useFormValidation.ts:98-106 | a sample institutional address passes the email rules |
| FormValidation.SampleAddressFacts | src/hooks/useFormValidation.ts:52-53 | the sample address is well formed, contains the domain and is not blank |
| FormValidation.FormErrors | src/hooks/useFormValidation.ts:127-181 | the error list of `validateForm`, as the concatenation of its five parts; its entries and order are stated by the `FormErrors*` lemmas and `FormValidation.FormErrorsOrdered` |
| FormValidation.FindErrorMeaning | src/hooks/useFormValidation.ts:184-187 | the lookup gives the message of the first entry for the name, or none when no entry has it |
| FormValidation.FindErrorConcat | src/hooks/useFormValidation.ts:185 | a lookup in a concatenation consults the left part first |
| FormValidation.PositionKeyNotField | src/hooks/useFormValidation.ts:144 | a `position-k` key is none of the form's other field names |
| FormValidation.PositionKeyInjective | src/hooks/useFormValidation.ts:144 | distinct indices give distinct `position-k` keys |
| FormValidation.FindPositionKey | src/hooks/useFormValidation.ts:141-146 | the k-th verdict is found under `position-k` |
| FormValidation.FindLaterKey | src/hooks/useFormValidation.ts:141-146 | the key of an index past the filled positions has no entry in the position part |
| FormValidation.FindUnkeyed | src/hooks/useFormValidation.ts:141-146 | a name not shaped like `position-k` has no entry in the position part |
| FormValidation.PositionKeyShape | src/hooks/useFormValidation.ts:144 | every `position-k` key has more than nine characters, with a dash after `position` |
| FormValidation.FindUrlError | src/hooks/useFormValidation.ts:164-178 | each url field's verdict is found under its own name |
| FormValidation.FormErrorsName | src/hooks/useFormValidation.ts:130-134 | the form's entry for `fullName` is the name's own verdict |
| FormValidation.FormErrorsPositions | src/hooks/useFormValidation.ts:137-140 | looking up `positions` gives the required-positions message exactly when no position is filled; that the entry is the only one is stated by `FormValidation.FormErrorsOnePositionsEntry` |
| FormValidation.FormErrorsOnePositionsEntry | src/hooks/useFormValidation.ts:137-140 | when no position is filled the list holds exactly one `positions` entry, carrying the required-positions message; otherwise it holds none |
| FormValidation.FormErrorsFieldsDistinct | src/hooks/useFormValidation.ts:127-181 | no field name appears twice in the error list: each check pushes at most one entry, and the `position-${index}` keys differ from each other and from the fixed names |
| FormValidation.KeyedErrorsDistinct | src/hooks/useFormValidation.ts:141-146 | the keyed position entries have distinct keys, none equal to the key of a later index |
| FormValidation.FoundOnce | src/hooks/useFormValidation.ts:184-187 | in a list without repeated fields, a field that `find` locates has exactly one entry, the one whose message it returns |
| FormValidation.FormErrorsPositionKey | src/hooks/useFormValidation.ts:140-147 | `position-k` holds the verdict of the k-th filled position, counted among the filled positions only, and nothing past them |
| FormValidation.FormErrorsEmail | src/hooks/useFormValidation.ts:149-153 | the form's entry for `email` is the email's own verdict, the domain message included |
| FormValidation.FormErrorsPhone | src/hooks/useFormValidation.ts:155-161 | the phone is reported exactly when it is non-empty and malformed |
| FormValidation.FormErrorsUrlVerdict | src/hooks/useFormValidation.ts:163-178 | each optional url field's entry is the url check's verdict on its value, an absent value counting as empty |
| FormValidation.FormErrorsUrl | src/hooks/useFormValidation.ts:163-178 | each optional url is reported, with the url message, exactly when present, non-empty and malformed |
| FormValidation.UrlFieldRanks | src/hooks/useFormValidation.ts:164-169 | the url fields come after the phone, in the order googleScholar, linkedin, orcid, website |
| FormValidation.SortedConcat | src/hooks/useFormValidation.ts:127-181 | joining two ordered parts in rank ranges keeps the list ordered |
| FormValidation.PositionErrorsRank | src/hooks/useFormValidation.ts:136-147 | the position part is ordered and lies at rank 1 |
| FormValidation.FormErrorsOrdered | src/hooks/useFormValidation.ts:127-181 | the list is in the order fullName, positions, email, phone, googleScholar, linkedin, orcid, website |
| FormValidation.CollectFormErrors | src/hooks/useFormValidation.ts:127-181 | the step-by-step pushes build exactly the specified error list |
| FormValidation.CollectPositionErrors | src/hooks/useFormValidation.ts:141-146 | the loop over the filled positions pushes exactly their specified entries |
| FormValidation.CollectUrlErrors | src/hooks/useFormValidation.ts:171-178 | the loop over the url fields pushes exactly their specified entries |
| FormValidation.WithoutField | src/hooks/useFormValidation.ts:189-191 | the filtered list holds exactly the entries for other fields |
| FormValidation.WithoutFieldConcat | src/hooks/useFormValidation.ts:190 | the filter keeps the order of the remaining entries |
| FormValidation.FindAfterClear | src/hooks/useFormValidation.ts:184-191 | after clearing a field its lookup gives none, and every other field's lookup is unchanged |
| FormValidation.ErrorState.constructor | src/hooks/useFormValidation.ts:67 | the stored list starts empty |
| FormValidation.ErrorState.GetFieldError | src/hooks/useFormValidation.ts:184-187 | the lookup in the stored list; its meaning is `FormValidation.FindErrorMeaning` |
| FormValidation.ErrorState.ValidateForm | src/hooks/useFormValidation.ts:127-182 | returns the specified error list and stores exactly that list |
| FormValidation.ErrorState.ClearFieldError | src/hooks/useFormValidation.ts:189-191 | removes every entry for the field, keeps the rest, and leaves other lookups unchanged |
| FormValidation.ErrorState.SetErrors | src/hooks/useFormValidation.ts:67 | the stored list becomes the given one |
| FormValidation.ErrorState.HasErrors | src/hooks/useFormValidation.ts:193 | holds exactly when the list is non-empty, that is when some field has a message |
| SignatureHtml.GenerateHTML | src/hooks/useSignatureGenerator.ts:76-127 | the template literal itself; `SignatureHtml.RenderMatchesTemplate` proves it is the serialisation of the row list the lemmas below describe |
| SignatureHtml.RenderMatchesTemplate | src/hooks/useSignatureGenerator.ts:102-126 | serialising the row list gives exactly the generated template text |
| SignatureHtml.PositionLinesHtml | src/hooks/useSignatureGenerator.ts:77-80 | the position rows serialise to the joined position divs |
| SignatureHtml.FixedRows | src/hooks/useSignatureGenerator.ts:110-121 | the name row (even for an empty name) and the rule are always present |
| SignatureHtml.InstitutionRows | src/hooks/useSignatureGenerator.ts:114-116 | the department, university and address rows are always present |
| SignatureHtml.FirstAndLastRows | src/hooks/useSignatureGenerator.ts:111-121 | the name row comes first and the rule last |
| SignatureHtml.PhoneRow | src/hooks/useSignatureGenerator.ts:117 | a phone row appears exactly when the phone is non-empty, and it carries that phone |
| SignatureHtml.EmailRow | src/hooks/useSignatureGenerator.ts:118 | a mail row appears exactly when the email is non-empty, and it carries that address |
| SignatureHtml.LinkRow | src/hooks/useSignatureGenerator.ts:119 | a link row appears exactly when the additional link is non-empty; it points to that link, and its caption is the link text when that is non-empty, else the link itself (`additionalLinkText \|\| additionalLink`) |
| SignatureHtml.SocialRow | src/hooks/useSignatureGenerator.ts:89-100 | the social container appears exactly when `social` is defined, even with no url in it |
| SignatureHtml.PositionRow | src/hooks/useSignatureGenerator.ts:77-80 | a position row appears exactly for a position whose trim is non-empty |
| SignatureHtml.PositionRowsInOrder | src/hooks/useSignatureGenerator.ts:77-80 | the position rows are the non-blank positions, in array order |
| SignatureHtml.RowsInTemplateOrder | src/hooks/useSignatureGenerator.ts:111-121 | the rows follow the template's order |
| SignatureHtml.LinkedEntries | src/hooks/useSignatureGenerator.ts:91-96 | the entries with an anchor are exactly those with a non-empty url |
| SignatureHtml.LinkedEntriesConcat | src/hooks/useSignatureGenerator.ts:91-96 | the url filter keeps order and repeats: it distributes over concatenation |
| SignatureHtml.SocialAnchorsPerLinkedEntry | src/hooks/useSignatureGenerator.ts:90-98 | the container holds one anchor per entry with a url, in entry order, and nothing for the others |
| SignatureSession.AttemptedWrite | src/hooks/useSignatureGenerator.ts:131-141 | with no clipboard nothing is written; with `ClipboardItem` one item whose plain part is the full name; otherwise the text |
| SignatureSession.WritesCarryMarkup | src/hooks/useSignatureGenerator.ts:131-141 | the item's HTML part and the fallback's text are both the generated markup |
| SignatureSession.Session.constructor | src/hooks/useSignatureGenerator.ts:21-30 | the session starts with the empty record and the flag down |
| SignatureSession.Session.UpdateField | src/hooks/useSignatureGenerator.ts:32-41 | only the named text field changes, and the flag is kept |
| SignatureSession.Session.SetPositions | src/hooks/useSignatureGenerator.ts:32-37 | the positions become the given list and nothing else changes |
| SignatureSession.Session.AddPosition | src/hooks/useSignatureGenerator.ts:43-48 | one blank position is appended, with no upper limit |
| SignatureSession.Session.UpdatePosition | src/hooks/useSignatureGenerator.ts:50-55 | only the indexed position changes, and an index outside the list changes nothing |
| SignatureSession.Session.RemovePosition | src/hooks/useSignatureGenerator.ts:57-62 | exactly the indexed position is removed, the last one included |
| SignatureSession.Session.ResetForm | src/hooks/useSignatureGenerator.ts:64-74 | back to the empty record, with the flag down |
| SignatureSession.Session.CopyToClipboard | src/hooks/useSignatureGenerator.ts:129-151 | succeeds exactly when a clipboard exists and the write resolves; the flag is raised only on success; the record is untouched |
| SignatureSession.EmptyRecord | src/hooks/useSignatureGenerator.ts:21-28 | the initial record has empty texts, a single blank position, no optional field and nothing filled |
| SignatureSession.AddThenRemoveRestores | src/hooks/useSignatureGenerator.ts:43-62 | adding a position and then removing the new last one restores the session |
| SignaturePreview.ComputedSize | src/components/NewSignaturePreview.tsx:126-127 | `Math.max(80, Math.min(200, height * 0.95))`; its bounds are `SignaturePreview.ComputedSizeBounds` |
| SignaturePreview.Step | src/components/NewSignaturePreview.tsx:129-131 | the hysteresis update; its properties are `SignaturePreview.StepSettles` and the lemmas after it |
| SignaturePreview.ComputedSizeBounds | src/components/NewSignaturePreview.tsx:126-127 | the computed size lies in [80, 200], equals 95 % of the height in between, and is 80 for a missing column |
| SignaturePreview.ComputedSizeMonotone | src/components/NewSignaturePreview.tsx:127 | a taller column never gives a smaller size |
| SignaturePreview.StepSettles | src/components/NewSignaturePreview.tsx:129-131 | after a step the size is within 5 of the computed one, and it only moves when the gap exceeds 5, and then exactly to the computed size |
| SignaturePreview.StepIdempotent | src/components/NewSignaturePreview.tsx:129-131 | a second recalculation with the same height changes nothing |
| SignaturePreview.StepKeepsRange | src/components/NewSignaturePreview.tsx:127-131 | a size in [80, 200] stays there |
| SignaturePreview.LogoSizer.constructor | src/components/NewSignaturePreview.tsx:92 | the logo starts at 90 |
| SignaturePreview.LogoSizer.Recalculate | src/components/NewSignaturePreview.tsx:125-132 | the stored size takes one hysteresis step towards the computed size, stays in range and ends within 5 of it |
| SignaturePreview.StaleObserverKeepsWrongSize | src/components/NewSignaturePreview.tsx:122-140 | with the size captured when the effect ran, the logo can stay 95 away from its computed size |
| SignaturePreview.NonEmptyPositions | src/components/NewSignaturePreview.tsx:167 | `filter(Boolean)` keeps exactly the non-empty positions |
| SignaturePreview.NonEmptyPositionsConcat | src/components/NewSignaturePreview.tsx:167 | `filter(Boolean)` keeps order and repeats: it distributes over concatenation |
| SignaturePreview.PositionParas | src/components/NewSignaturePreview.tsx:167-171 | one paragraph per kept position, in order |
| SignaturePreview.PreviewRows | src/components/NewSignaturePreview.tsx:162-241 | the rows of the text column, top to bottom; which rows appear is stated by the `Preview*Rows` lemmas and `SignaturePreview.SocialRowShown` |
| SignaturePreview.SocialIcons | src/components/NewSignaturePreview.tsx:203-240 | the icons in the order Google Scholar, LinkedIn, ORCID, website, CIARA; see `SignaturePreview.IconsLinkUserUrls` and `SignaturePreview.IconShownIffSource` |
| SignaturePreview.PreviewNameRow | src/components/NewSignaturePreview.tsx:162-166 | the heading appears exactly when the name is non-empty |
| SignaturePreview.PreviewFixedRows | src/components/NewSignaturePreview.tsx:172-187 | the institutional lines and the rule always appear |
| SignaturePreview.PreviewContactRows | src/components/NewSignaturePreview.tsx:188-200 | the phone and mail rows appear exactly when their fields are non-empty |
| SignaturePreview.ParasMembers | src/components/NewSignaturePreview.tsx:167-171 | the mapped list has a paragraph for exactly the texts of the list |
| SignaturePreview.PreviewPositionRows | src/components/NewSignaturePreview.tsx:167-171 | a position paragraph appears exactly for a non-empty position, whitespace-only included |
| SignaturePreview.SocialRowShown | src/components/NewSignaturePreview.tsx:203-240 | the icon row appears exactly when one of the five sources is truthy, and then it is not empty |
| SignaturePreview.IconsLinkUserUrls | src/components/NewSignaturePreview.tsx:205-238 | every linked icon points to the non-empty url the user gave for its own kind, and the badge appears only for a CIARA member |
| SignaturePreview.IconShownIffSource | src/components/NewSignaturePreview.tsx:205-238 | each linked icon is shown exactly when its url is truthy, the badge exactly for a CIARA member |
| SignaturePreview.WhitespacePositionOnlyInPreview | src/components/NewSignaturePreview.tsx:167 | every non-empty whitespace-only position shows in the preview but not in the generated HTML |
| SignaturePreview.SpaceIsWhitespacePosition | src/components/NewSignaturePreview.tsx:167 | a single space is such a position |
| SignaturePreview.PreviewWrite | src/components/NewSignaturePreview.tsx:102-112 | the handler writes the node as an item when `ClipboardItem` exists, else its inner text |
| SignaturePreview.FallbacksDiffer | src/components/NewSignaturePreview.tsx:109-111 | without `ClipboardItem` the preview writes plain text where `copyToClipboard` writes the markup |
| SignaturePreview.HandleCopy | src/components/NewSignaturePreview.tsx:94-119 | with no node nothing happens; `onCopy` runs only after a successful write; a failure alerts and leaves the session unchanged |
| SignatureApp.HasPosition | src/App.tsx:19 | some position is not blank; `SignatureApp.HasPositionIffFilled` ties it to the composer's filter |
| SignatureApp.IsFormValid | src/App.tsx:20 | name, a position and email all present, by a presence test without trimming |
| SignatureApp.CopyButtonDisabled | src/App.tsx:19-20 | the button is disabled exactly when the name or the email is empty or the generated signature would list no position |
| SignatureApp.HasPositionIffFilled | src/App.tsx:19 | `hasPosition` holds exactly when the composer would emit a position |
| SignatureApp.EmptyFormDisabled | src/App.tsx:19-20 | the initial record cannot be copied |
| SignatureApp.WhitespaceCountsAsPresent | src/App.tsx:20 | a whitespace-only name or email enables the button, although the validator reports both as required |
| SignatureApp.NoErrorsEnablesCopy | src/App.tsx:20 | a record the validator accepts in full enables the button |
| SignatureApp.EnabledDespiteErrors | src/App.tsx:20 | a name with a digit enables the button although the validator rejects it |

## Left out

- React mechanics are not modelled: hooks, memoised callbacks, effects, JSX and the Tailwind classes. The state a hook holds becomes a class field, and a state setter becomes an assignment.
- The platform clipboard, `Blob`, `alert` and `console` are replaced by the abstract `Platform` input, which says whether a clipboard and `ClipboardItem` exist and whether the write resolves.
- The three-second timer that lowers `copySuccess` is not modelled, because it is timer-driven.
- `ResizeObserver` and the `offsetHeight` measurement are not modelled. The height is a parameter (`Option<nat>`, with none for a missing column).
- The rendered node's `outerHTML` and `innerText` are parameters (`RenderedNode`), because they are computed by the browser.
- SignaturePreview.ComputedSize: computed in exact reals, not in floating point, so the rounding of `height * 0.95` is not modelled.
- SignatureSession.Session.UpdateField: covers the text fields only. `updateField('positions', …)` is `SetPositions`. `updateField` with `social` or another non-string field is not modelled, since its type only admits a string or a list.
- SignatureSession.Session.UpdatePosition: indices are integers. A fractional or `NaN` index, which would match no position, is not modelled.
- SignatureHtml.SocialIcon: a social key outside the four known icons renders as `undefined`, as in the source. Keys inherited from `Object.prototype` are not modelled.
- JavaScript regular expressions in general are not modelled. Each pattern is the character-class and length predicate it denotes.
- The CSS limits on the displayed logo in the preview (60 to 120 pixels) are presentation and are not modelled.
- Overlapping copy calls are not modelled; each call runs to completion.
- The form widgets, the instructions modal, the header, the image preloader and the older preview component are not part of this model, because they are presentation only.

## Findings

| source | as written | input that shows it | evidently intended | confidence | as-written member | corrected member |
|---|---|---|---|---|---|---|
| src/components/NewSignaturePreview.tsx:122-140 | The effect that installs the resize observer depends on `data` only. Its `calculateLogoSize` therefore compares the computed size with the `logoSize` captured when the effect last ran, not with the size now held. | The effect captures 90. The column grows to 200 px, so the computed size is 190 and the logo becomes 190. The column then shrinks to 100 px, so the computed size is 95. The stale check sees \|95 − 90\| = 5, makes no update, and the logo stays at 190. | Compare with the current size, so the logo always ends within 5 of the computed size. | medium, not executed | SignaturePreview.StaleObserverKeepsWrongSize | SignaturePreview.LogoSizer.Recalculate |
