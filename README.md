# Report screen and legal-name form: a verified model

This project models the decision logic of two screens of a chat/report
application.

The **report screen** (`src/pages/home/ReportScreen.js`) covers five things:

- It reads the report it shows from the route parameter `reportID` with
  `parseInt(…, 10)`.
- It stores the currently viewed report. An ID that does not parse marks the
  report inaccessible. A numeric ID first resets the composer view, then
  records the ID as the one being viewed.
- It re-runs that store on mount, and on every update whose raw `reportID`
  string differs from the previous one.
- It decides whether to show the loader, and picks the chat footer's minimum
  height.
- It binds its props to store keys. A per-report key is a collection prefix
  followed by the string form of the parsed ID.

The **legal-name form** (`src/pages/settings/Profile/PersonalDetails/LegalNamePage.js`)
has a two-phase validator. Phase one flags invalid characters in either name.
If any field got an error there, the validator returns at once. Only
otherwise does phase two check the trimmed length against the form's
character limit. On submit, the form sends the trimmed first and last name.

Files:

- `wrappers.dfy`: `Option`, which stands where the source reads `undefined`.
- `js_string.dfy`: the white space of ECMA-262 (sections 12.2 and 12.3),
  plus `TrimStart`, `TrimEnd` and `Trim` (String.prototype.trim).
- `js_number.dfy`: `Number = NaN | Num(int)`, and `ParseInt`, the global
  function parseInt with radix 10 (section 19.2.5 of ECMA-262). It also holds
  the string form of a Number (`NumberToString`), truthiness, and the
  round trip between the two.
- `report_screen.dfy`: module `ReportScreen`. It has the effect datatype, the
  specification functions of the lifecycle rules, the loader, footer and key
  functions, and the class `Screen`. `Screen`'s methods append every outside
  call to the `effects` log, in order.
- `legal_name_page.dfy`: module `LegalNamePage`. It has `AssignError`, the
  imperative `Validate` method, `ValidationErrors` (the per-field statement
  `Validate` is proved against) and `UpdateLegalName`.

Outside calls are recorded, not performed. These calls are
`handleInaccessibleReport`, `toggleReportActionComposeView(true)`,
`updateCurrentlyViewedReportID(id)` and `addComment(id, text)`. The
validation helpers `findInvalidSymbols` and `doesFailCharacterLimitAfterTrim`
are parameters, and so is `CONST.FORM_CHARACTER_LIMIT`. So are the ONYXKEYS
strings and `CONST.CHAT_FOOTER_MIN_HEIGHT`: their defining files are not part
of this model. A translated message is the phrase key plus the phrase
parameters passed to `translateLocal`.

Points of the program's behaviour that the model reproduces as written:

- `componentDidUpdate` compares the raw route strings, not the parsed IDs.
  So `"12"` → `"012"` re-runs the store although both parse to 12
  (`LeadingZeroReRunsStore`).
- `handleInaccessibleReport` fires on mount when the route's ID does not
  parse. It also fires on every change of the raw string to one that does
  not parse, including a change from one unparsable string to another
  (`InaccessibleOnEachUnparsableChange`).
- The composer reset is the global call `toggleReportActionComposeView(true)`.
- `String.prototype.trim` and the white-space skipping of `parseInt` are
  modelled by their ECMA-262 definitions, not as opaque helpers.

## Model

| member | source | states |
|---|---|---|
| `JsString.IsWhiteSpace` | src/pages/home/ReportScreen.js:116 | the code points that trim and parseInt skip: WhiteSpace (section 12.2 of ECMA-262) and LineTerminator (section 12.3). Stated through LeadingWhiteSpace, TrailingWhiteSpace, TrimStart, TrimEnd, TrimDecomposes and ParseIntSkipsWhiteSpace |
| `JsString.TrimStart` | src/pages/home/ReportScreen.js:116 | parseInt's first step: the result is a suffix of the input; everything dropped is white space; the result does not start with white space |
| `JsString.Trim` | src/pages/settings/Profile/PersonalDetails/LegalNamePage.js:47-48 | `.trim()` gives a string that neither starts nor ends with white space, and is no longer than the input |
| `JsString.TrimDecomposes` | src/pages/settings/Profile/PersonalDetails/LegalNamePage.js:47-48 | the input is a white-space prefix, then its trim, then a white-space suffix |
| `JsString.TrimIdempotent` | src/pages/settings/Profile/PersonalDetails/LegalNamePage.js:47-48 | trimming a trimmed name changes nothing |
| `JsString.LeadingWhiteSpace` | src/pages/home/ReportScreen.js:116 | the count of leading white space: every code point it covers is white space, and the next one (if any) is not |
| `JsString.TrailingWhiteSpace` | src/pages/settings/Profile/PersonalDetails/LegalNamePage.js:47-48 | the count of trailing white space: every code point it covers is white space, and the one before (if any) is not |
| `JsString.TrimEnd` | src/pages/settings/Profile/PersonalDetails/LegalNamePage.js:47-48 | the result is a prefix of the input; everything dropped is white space; the result does not end with white space |
| `JsString.LeadingWhiteSpaceOfPadded` | src/pages/home/ReportScreen.js:116 | white space put in front of a string adds exactly its length to the leading white-space count |
| `JsString.TrimStartSkipsWhiteSpace` | src/pages/home/ReportScreen.js:116 | leading white space of any length is invisible to the start trim |
| `JsNumber.ParseInt` | src/pages/home/ReportScreen.js:114-117 | parseInt(s, 10): skip white space, an optional sign, then read the digit run; NaN with no digits. Its properties are stated by ParseIntTrimsStart, ParseIntStopsAtNonDigit, ParseIntNegative, ParseIntSkipsWhiteSpace, ParseIntNaN, ParseIntLeadingZero, ParseIntFalsy and ParseIntNumberToString |
| `JsNumber.NumberToString` | src/pages/home/ReportScreen.js:277 | the template literal's string form of the report ID: "NaN", or the signed canonical numeral. Stated by DecimalString, ParseIntNumberToString and NumberToStringInjective |
| `JsNumber.ParseSigned` | src/pages/home/ReportScreen.js:116 | parseInt after the start trim: an optional sign, then the digit run; NaN when the run is empty, a negated value after "-". Stated through ParseIntTrimsStart, ParseIntStopsAtNonDigit, ParseIntNegative and ParseIntNaN |
| `JsNumber.Truthy` | src/pages/home/ReportScreen.js:170 | ToBoolean of a Number, the `!` of `!getReportID(...)`: NaN and ±0 are falsy. Stated by ParseIntFalsy and Screen.ShouldShowLoader |
| `JsNumber.LeadingDigits` | src/pages/home/ReportScreen.js:116 | the digits parseInt reads are the longest all-digit prefix: they stop at the end or at the first non-digit |
| `JsNumber.DecimalString` | src/pages/home/ReportScreen.js:277 | the string form of a non-negative integer is a canonical decimal numeral (no leading zero except "0") whose value is that integer |
| `JsNumber.ParseIntNumberToString` | src/pages/home/ReportScreen.js:114-117 | parseInt of the string form of any modelled Number (NaN included) gives back that Number; in the program this holds for magnitudes below 10^21 |
| `JsNumber.NumberToStringInjective` | src/pages/home/ReportScreen.js:277-293 | two Numbers with the same string form are equal |
| `JsNumber.ParseIntTrimsStart` | src/pages/home/ReportScreen.js:114-117 | skipping white space one code point at a time reads the same as reading what the start trim leaves |
| `JsNumber.ParseIntStopsAtNonDigit` | src/pages/home/ReportScreen.js:114-117 | a digit run followed by a non-digit suffix reads as the value of the run |
| `JsNumber.ParseIntNegative` | src/pages/home/ReportScreen.js:114-117 | after "-", parseInt reads the negated value of the digit run and ignores the rest |
| `JsNumber.ParseIntSkipsWhiteSpace` | src/pages/home/ReportScreen.js:114-117 | leading white space does not change what parseInt reads |
| `JsNumber.ParseIntNaN` | src/pages/home/ReportScreen.js:114-117 | the empty string, or one starting with anything but white space, a sign or a digit, reads as NaN |
| `JsNumber.ParseIntLeadingZero` | src/pages/home/ReportScreen.js:114-117 | a "0" put before a numeral changes the string but not the parsed value |
| `JsNumber.ParseIntFalsy` | src/pages/home/ReportScreen.js:170 | `!getReportID(route)` holds exactly when the digit run read holds no digit other than '0' (the empty run included) |
| `JsNumber.DigitsValueZero` | src/pages/home/ReportScreen.js:170 | a digit string's value is zero exactly when all its digits are '0' |
| `JsNumber.ParseIntOfNumeral` | src/pages/home/ReportScreen.js:114-117 | `"123"` reads as 123 |
| `JsNumber.ParseIntOfNonNumerals` | src/pages/home/ReportScreen.js:114-117 | `""` and `"abc"` read as NaN |
| `JsNumber.ParseIntOfNegativeZero` | src/pages/home/ReportScreen.js:114-117 | `"-0"` reads as zero, which is falsy |
| `ReportScreen.GetReportID` | src/pages/home/ReportScreen.js:114-117 | the route's reportID read by ParseInt; its properties are those of ParseInt, and LoaderForZeroOrMissingID, SameReportSameKeys and DistinctReportsDistinctKeys use it |
| `ReportScreen.StoreEffects` | src/pages/home/ReportScreen.js:176-186 | the calls storeCurrentlyViewedReport makes for a parsed ID. Stated by StoreEffectsWhenInaccessible, StoreEffectsWhenNumeric and StoreEndsWithFinal; Screen.StoreCurrentlyViewedReport is proved to produce it |
| `ReportScreen.UpdateEffects` | src/pages/home/ReportScreen.js:137-143 | componentDidUpdate's calls: none for an equal raw string, else the store's. Stated by SessionStep, RepeatedRouteIsQuiet and LeadingZeroReRunsStore; Screen.ComponentDidUpdate is proved to produce it |
| `ReportScreen.NavigationEffectsAppend` | src/pages/home/ReportScreen.js:137-143 | one more route at the end of a visit adds the update rule's calls against the raw string shown until then |
| `ReportScreen.SessionEffectsStep` | src/pages/home/ReportScreen.js:137-143 | delivering route i of a visit shows that route and extends the visit's effects by the update rule against the route shown before |
| `ReportScreen.Visit` | src/pages/home/ReportScreen.js:120-143 | constructing, mounting and updating the component through any sequence of routes logs exactly the visit's effects, leaves the last route on screen, and ends with the store effect of that route's report |
| `ReportScreen.StoreEffectsWhenInaccessible` | src/pages/home/ReportScreen.js:176-181 | for a NaN ID, handleInaccessibleReport is called exactly once, and neither the composer toggle nor updateCurrentlyViewedReportID is called |
| `ReportScreen.StoreEffectsWhenNumeric` | src/pages/home/ReportScreen.js:183-185 | for a numeric ID, toggleReportActionComposeView(true) and updateCurrentlyViewedReportID(id) are each called once, the toggle strictly first; nothing else is called, handleInaccessibleReport included |
| `ReportScreen.SessionStep` | src/pages/home/ReportScreen.js:137-143 | an update to the same raw string adds nothing to a visit's effects; a changed string adds the store's effects for the new ID |
| `ReportScreen.SessionEndsWithCurrentReport` | src/pages/home/ReportScreen.js:132-186 | after a mount and any sequence of route updates, the last effect records the route's report as viewed, or marks it inaccessible when its ID does not parse |
| `ReportScreen.RepeatedRouteIsQuiet` | src/pages/home/ReportScreen.js:137-143 | updates that keep the raw reportID unchanged, however many, issue nothing beyond the mount's effects |
| `ReportScreen.InaccessibleOnEachUnparsableChange` | src/pages/home/ReportScreen.js:137-143 | any change of the raw string to one that does not parse, from any previous string, makes exactly the one call handleInaccessibleReport |
| `ReportScreen.LeadingZeroReRunsStore` | src/pages/home/ReportScreen.js:137-143 | "12" → "012" keeps the parsed ID but re-runs the store, because the raw strings are compared |
| `ReportScreen.LoaderForZeroOrMissingID` | src/pages/home/ReportScreen.js:168-171 | a route whose ID reads as NaN or zero shows the loader, whatever the report actions |
| `ReportScreen.ChatFooterStyles` | src/pages/home/ReportScreen.js:159-161 | the footer style keeps every chat-footer entry except `minHeight`, which is the footer minimum online and 0 offline |
| `ReportScreen.SubscriptionTable` | src/pages/home/ReportScreen.js:269-299 | the nine props of the withOnyx table and their static key or per-report collection. Stated by SubscriptionKeys and SubscriptionKeyShapes |
| `ReportScreen.ResolveKey` | src/pages/home/ReportScreen.js:277-295 | a static key as is, a per-report key as prefix plus the ID's string form. Stated by SubscriptionKeyShapes, UnparsedRouteKey, SameReportSameKeys and DistinctReportsDistinctKeys |
| `ReportScreen.SubscriptionKeys` | src/pages/home/ReportScreen.js:269-299 | one key for each of the nine props of the subscription table |
| `ReportScreen.SubscriptionKeyShapes` | src/pages/home/ReportScreen.js:269-299 | static keys are the ONYXKEYS constants whatever the route; each per-report key is its collection prefix followed by the string form of getReportID(route) |
| `ReportScreen.UnparsedRouteKey` | src/pages/home/ReportScreen.js:277 | a route whose ID does not parse subscribes to `<prefix>NaN` |
| `ReportScreen.SameReportSameKeys` | src/pages/home/ReportScreen.js:269-299 | two routes with the same parsed ID subscribe to identical keys |
| `ReportScreen.DistinctReportsDistinctKeys` | src/pages/home/ReportScreen.js:276-295 | two routes with different parsed IDs never share a per-report key |
| `ReportScreen.Screen.constructor` | src/pages/home/ReportScreen.js:120-130 | constructing the screen makes no outside call |
| `ReportScreen.Screen.ComponentDidMount` | src/pages/home/ReportScreen.js:132-135 | mounting appends the store's effects once, and nothing else |
| `ReportScreen.Screen.ComponentDidUpdate` | src/pages/home/ReportScreen.js:137-143 | an update whose raw reportID equals the previous one appends nothing; otherwise it appends the store's effects once |
| `ReportScreen.Screen.ReceiveProps` | src/pages/home/ReportScreen.js:137-143 | new props replace the old ones, then the update rule runs against the previous route |
| `ReportScreen.Screen.OnSubmitComment` | src/pages/home/ReportScreen.js:155-157 | a submitted comment appends exactly addComment(getReportID(route), text), with the text unchanged |
| `ReportScreen.Screen.ShouldShowLoader` | src/pages/home/ReportScreen.js:168-171 | the loader shows exactly when the parsed ID is NaN or zero, or when there are no report actions and they are loading |
| `ReportScreen.Screen.StoreCurrentlyViewedReport` | src/pages/home/ReportScreen.js:176-186 | the log grows by exactly the store's effects for the parsed ID (see the two StoreEffects lemmas) |
| `LegalNamePage.Element` | src/pages/settings/Profile/PersonalDetails/LegalNamePage.js:62-64 | array destructuring gives element i when there is one, and undefined past the end |
| `LegalNamePage.InvalidCharacter` | src/pages/settings/Profile/PersonalDetails/LegalNamePage.js:62-64 | the findInvalidSymbols call on both names, then destructuring element i (undefined past the end). Stated through ValidationErrorsPerField, InvalidCharacterShortCircuits and InvalidFirstNameExample |
| `LegalNamePage.HasInvalidCharacter` | src/pages/settings/Profile/PersonalDetails/LegalNamePage.js:68-77 | the `!_.isEmpty(...)` passed as hasError in phase one: a field whose reported character is neither undefined nor "". Stated through InvalidCharacterPhase, ValidationErrorsPerField and Validate |
| `LegalNamePage.InvalidCharacterMessage` | src/pages/settings/Profile/PersonalDetails/LegalNamePage.js:69-81 | the translateLocal call of phase one: the phrase personalDetails.error.hasInvalidCharacter with the reported character, or the phrase value undefined. Stated through InvalidCharacterPhase, InvalidFirstNameExample and Validate |
| `LegalNamePage.CharacterLimitMessage` | src/pages/settings/Profile/PersonalDetails/LegalNamePage.js:88 | the translateLocal call of phase two: the phrase personalDetails.error.characterLimit with the limit. Stated through CharacterLimitPhase, BothNamesTooLong and Validate |
| `LegalNamePage.FailsCharacterLimit` | src/pages/settings/Profile/PersonalDetails/LegalNamePage.js:89-94 | the destructured limit flag as assignError's `if (hasError)` reads it: only true counts, and an undefined flag is falsy. Stated through CharacterLimitPhase, ValidationErrorsPerField and Validate |
| `LegalNamePage.IsEmpty` | src/pages/settings/Profile/PersonalDetails/LegalNamePage.js:68 | `_.isEmpty` of a string or undefined: true for undefined and the empty string. Stated through ValidationErrorsPerField and Validate |
| `LegalNamePage.AssignError` | src/pages/settings/Profile/PersonalDetails/LegalNamePage.js:106-112 | `errors[key]` is set to the copy if and only if `hasError`; every other entry keeps its value, and no other key appears |
| `LegalNamePage.ValidationErrors` | src/pages/settings/Profile/PersonalDetails/LegalNamePage.js:58-97 | the errors validate returns, stated per field: the invalid-character errors if any, else the limit errors. Stated by ValidationErrorsPerField, ValidationErrorsEmpty, InvalidCharacterShortCircuits and LimitErrorSuppressedByOtherField; Validate is proved to return it |
| `LegalNamePage.InvalidCharacterPhase` | src/pages/settings/Profile/PersonalDetails/LegalNamePage.js:60-82 | the two assignError calls of the first phase, starting from no errors, give exactly the fields with an invalid character, each with its own message |
| `LegalNamePage.CharacterLimitPhase` | src/pages/settings/Profile/PersonalDetails/LegalNamePage.js:87-94 | the two assignError calls of the second phase, starting from no errors, give exactly the fields the limit helper flags, each with the limit message |
| `LegalNamePage.ValidationErrorsPerField` | src/pages/settings/Profile/PersonalDetails/LegalNamePage.js:58-97 | while any field holds an invalid character, a field has an error iff it holds one; otherwise iff the limit helper flags it; its message is its own invalid-character message, or the limit message |
| `LegalNamePage.ValidationErrorsEmpty` | src/pages/settings/Profile/PersonalDetails/LegalNamePage.js:58-97 | only the two input IDs can have errors, and there are none iff neither name has an invalid character or fails the limit |
| `LegalNamePage.Validate` | src/pages/settings/Profile/PersonalDetails/LegalNamePage.js:58-97 | the keys are a subset of the two input IDs; if any field has an invalid character, a field has an error iff it has one, with its own character's message; otherwise a field has an error iff the limit helper flags it, with the shared limit message; the result is empty iff neither check fails for either field |
| `LegalNamePage.InvalidCharacterShortCircuits` | src/pages/settings/Profile/PersonalDetails/LegalNamePage.js:83-85 | once a field has an invalid character, changing the limit helper or the limit cannot change the result |
| `LegalNamePage.LimitErrorSuppressedByOtherField` | src/pages/settings/Profile/PersonalDetails/LegalNamePage.js:83-94 | when only the first name has an invalid character, only the first name gets an error, even if the last name fails the limit |
| `LegalNamePage.InvalidFirstNameExample` | src/pages/settings/Profile/PersonalDetails/LegalNamePage.js:62-85 | "John$"/"Doe", with "$" found in the first name only, gives one error on the first name whose parameter is "$" |
| `LegalNamePage.BothNamesTooLong` | src/pages/settings/Profile/PersonalDetails/LegalNamePage.js:87-94 | two names without invalid characters that both fail the limit each get the same limit message |
| `LegalNamePage.UpdateLegalName` | src/pages/settings/Profile/PersonalDetails/LegalNamePage.js:45-50 | the request holds the trimmed first name, then the trimmed last name; neither starts or ends with white space |
| `LegalNamePage.UpdateLegalNameIdempotent` | src/pages/settings/Profile/PersonalDetails/LegalNamePage.js:45-50 | submitting the names just submitted sends the same request |

## Left out

- Rendering: all JSX, styles other than the footer's `minHeight`, and layout (`ReportScreen.js:196-261`, `LegalNamePage.js:114-153`). The render gating on permissions, report kind and drawer state (`ReportScreen.js:196-214`) is left out too. It depends on helpers that are not part of this model. As written, the render cannot run. The JSX does not parse, because `</SwipeableView>` (`ReportScreen.js:254`) has no opening tag. `FullScreenLoadingIndicator` (`:234`) is not imported, so a true `shouldShowLoader()` would make render throw. Nothing in the file supplies `this.props.network` (`:245`), the only caller of `setChatFooterStyles`. The model describes the screen with its render repaired.
- The visual-viewport listener and `componentWillUnmount` (`ReportScreen.js:124-125, 134, 145-150, 191-194`). This is DOM input and output. As written, `componentDidMount` calls `addViewportResizeListener`, which the file neither imports nor defines. So mounting throws a ReferenceError right after the store, and the model's mount stops at the store. Unmount passes `this.viewportOffsetTop`, which is never assigned, so no listener is ever removed. The error leaves `componentDidMount`, so React unmounts the screen (or an error boundary replaces it), and no `componentDidUpdate` of that instance runs. `Visit`, `RepeatedRouteIsQuiet`, `LeadingZeroReRunsStore` and `SessionEndsWithCurrentReport` therefore describe the component as if that call were defined.
- The bound handlers and initial viewport state built by the two constructors. They make no outside call.
- Store subscription mechanics: the `withOnyx` wrapper, `canEvict`, `initWithStoredValues`, subscribing and releasing. Only the key strings are modelled.
- Navigation, localised text, and what the remote actions do (`Report.*`, `PersonalDetails.updateLegalName`). They are recorded as effects or requests.
- The values of `ONYXKEYS`, `CONST.FORM_CHARACTER_LIMIT` and `CONST.CHAT_FOOTER_MIN_HEIGHT`, and the internals of the `ValidationUtils` helpers. Their files are not part of this model, so they are parameters.
- A translated message as display text: two different phrase keys or parameter sets are treated as different messages.
- Property-type checking and default props. The screen receives its props through its constructor instead.
- JsNumber.ParseInt: a parsed value is an exact integer. IEEE-754 rounding beyond 2^53, and the approximation ECMA-262 allows past 20 significant digits, are not modelled. +0 and -0 are one value; they render and test alike.
- JsNumber.NumberToString: no exponent form for magnitudes of 10^21 and above. parseInt("1000000000000000000000") is exactly 1e21, which the program renders "1e+21", and parseInt("1e+21") is 1. So the model's string form, the round trip (ParseIntNumberToString) and the key shapes (SubscriptionKeyShapes, DistinctReportsDistinctKeys) match the program only for IDs of magnitude below 10^21. IDs above 2^53 are also rounded (see the JsNumber.ParseInt line).
- JsString.IsWhiteSpace: strings are sequences of Unicode scalar values, not UTF-16 code units. Neither the white-space code points nor the decimal digits lie outside the Basic Multilingual Plane, so this changes no result here.
- ReportScreen.Route: the property type of `route.params.reportID` is an optional string (`ReportScreen.js:35`, not `.isRequired`), but the model takes it as a string. An absent value reads as NaN, subscribes to `<prefix>NaN`, and equals another absent value, just as a fixed non-numeric string does. The only behaviour not reproduced is a change between absent and the literal string "undefined": the program sees a change there, which the model cannot express.
- LegalNamePage.AssignError: the program changes the caller's `errors` object in place and returns that same object (`LegalNamePage.js:107-111`), and `validate` discards the return value (`LegalNamePage.js:65, 74, 93-94`). The model is a value update whose result `Validate` assigns back. The observable result is the same, because the map is local to `validate`.
