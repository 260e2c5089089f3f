# Number plate recognition: a Dafny model of the client logic

The application is a single page. The user picks an image, the page sends it
to the Gemini multimodal model, and the page shows the licence-plate text that
comes back. With the markup and the network set aside, three pieces of logic
are left, and this project models and verifies each of them:

- **The interaction state of the `App` component** (`app.dfy`, module `App`).
  There are five fields: `imageFile`, `imagePreview`, `result`, `isLoading`
  and `error`. They are the fields of class `App.Controller`. Each handler is a
  method whose postcondition ties the new state to a pure transition function
  of the old one (`AfterImageChange`, `AfterBegin`, `AfterComplete`).
  `handleRecognize` is split at its awaits:
  - `BeginRecognize` is the guard and the reset.
  - `CompleteRecognize(outcome)` is the try/catch/finally after the awaits.
    `outcome` is whatever the awaited data-URL read and service call produced.
  The button-enabled and result-shown predicates are members of `Snapshot`.
  The `split(',')[1]` step of `fileToBase64` is `Base64Payload`.
- **A session model** (also in `App`). It replays any sequence of page events
  through these transitions and through the upload handler. The session is the
  UI state plus the number of calls not yet settled:
  - a disabled button delivers no click;
  - the file picker is reachable only while no preview is shown, and the
    remove button exists only while one is;
  - only a pending call can settle.
  This is where the property "at most one recognition call in flight" is proved.
- **The recognition client** (`gemini_service.dfy`, module `GeminiService`):
  - the declared response schema;
  - normalisation of the parsed response with JavaScript `||` truthiness;
  - the try/catch that turns every failure into the one error
    "Failed to recognize number plate via Gemini API.".
  The SDK call's outcome and `JSON.parse` are inputs.
- **The upload handler** (`image_uploader.dfy`, module `ImageUploader`). It
  rejects a file over 4 MiB (the alert), passes on the first file with its
  preview URL, or clears on an empty selection. "Remove image" always clears.
- `js_string.dfy` (module `JsString`) models `String.prototype.split` with a
  one-character separator, `join`, and `String.prototype.trim`, using the
  ECMAScript whitespace and line-terminator set.
- `common.dfy` (module `Common`) holds the `Option` and `Result` types.

In a few places the code does less than a reader might expect; the model follows the code:

- There is no stale-response guard. A completion writes its result even after
  the image has been removed and another picked (`LateAnswerOverwrites`).
- `found == false` does not force `plateNumber` to `""` (`NotFoundKeepsPlate`).
- Nothing is type-checked after parsing (`WrongTypePassesThrough`).
- Service failures and unparsable responses are not told apart. Both become
  the same error (`FailuresAreIndistinguishable`).
- `split(',')[1]` is the text between the first comma and the next one, not
  everything after the first comma. For a `data:` URL the two agree
  (`DataUrlPayload`).

## Model

| member | source | states |
|---|---|---|
| `App.Controller.constructor` | App.tsx:15-19 | the first render has no file, preview, result or error, and is not loading |
| `App.Controller.HandleImageChange` | App.tsx:21-26 | stages the new file and preview, clears result and error, keeps `isLoading` |
| `App.Controller.BeginRecognize` | App.tsx:40-48 | a call is started exactly when a file is staged; the new state is the guard or the reset; afterwards the button is disabled |
| `App.Controller.CompleteRecognize` | App.tsx:50-62 | the new state is the try/catch/finally result for the outcome, and loading has stopped |
| `App.Snapshot.ButtonEnabled` | App.tsx:86 | the recognise button is enabled exactly when a file is staged and no call is loading |
| `App.Snapshot.PreviewShown` | components/ImageUploader.tsx:47-68 | the uploader shows the preview with its remove button when `imagePreview` is truthy, and otherwise the upload area that opens the file picker |
| `App.Snapshot.ResultShown` | App.tsx:105 | the result panel is rendered when `result && imagePreview` is truthy: a result and a non-empty preview |
| `App.Snapshot.ErrorShown` | App.tsx:103 | the error banner is rendered when `error` is truthy: a non-empty message |
| `App.AfterImageChange` | App.tsx:21-26 | after an image change neither the error banner nor the result panel shows, and the button is enabled iff a file was given and no call is loading |
| `App.AfterBegin` | App.tsx:40-48 | afterwards the button is disabled; loading starts iff a file is staged; the error banner shows iff no file is staged; with a file no result panel shows |
| `App.AfterComplete` | App.tsx:50-62 | loading has stopped; the button is enabled iff a file is staged; the error banner shows iff the call failed, found no plate, or an error was already shown; on success the panel shows iff a preview is present |
| `App.ImageChangeResets` | App.tsx:21-26 | file and preview are the arguments; result and error are null; the loading flag is unchanged |
| `App.BeginWithoutFile` | App.tsx:41-44 | with no file, only the error changes, to "Please select an image first." |
| `App.BeginWithFile` | App.tsx:46-48 | with a file, loading starts, error and result are cleared, and the button is disabled |
| `App.CompletionStopsLoading` | App.tsx:60-62 | every outcome ends loading and keeps the staged file and preview; the button is enabled again iff a file is staged |
| `App.AttemptOutcomes` | App.tsx:53-59 | after begin and complete: found gives the result and no error; not found gives the result and "Could not detect…"; failure gives no result and the generic error |
| `App.ResultShownNeedsPreview` | App.tsx:105 | the result panel is shown only when both a result and a preview are present |
| `App.Base64Payload` | App.tsx:33 | the payload is undefined iff the data URL has no comma; a payload never contains a comma |
| `App.PayloadFollowsFirstComma` | App.tsx:33 | the payload is the text right after the first comma, up to the next comma or the end |
| `App.DataUrlPayload` | App.tsx:33 | `data:<mime>;base64,<payload>` with comma-free parts yields exactly `payload` |
| `App.StepKeepsConsistent` | App.tsx:40-63 | one page event preserves the session invariant (pending calls, loading flag, result/error agreement) |
| `App.RunKeepsConsistent` | App.tsx:40-63 | any sequence of page events preserves the session invariant |
| `App.AtMostOneCallInFlight` | App.tsx:86 | from the first render, at most one call is pending, `isLoading` is true iff one is, a loading page holds no result or error and shows neither the result panel nor the error banner, and "select an image first" never appears |
| `App.LateAnswerOverwrites` | App.tsx:50-62 | an answer that arrives after the image was removed and another picked is still stored and shown |
| `ImageUploader.HandleFileChange` | components/ImageUploader.tsx:13-25 | rejects iff the first file exceeds 4 MiB; clears iff no file was selected; otherwise passes the first file with its preview URL |
| `ImageUploader.HandleRemoveImage` | components/ImageUploader.tsx:27-28 | always passes no file and no preview |
| `ImageUploader.SizeCeilingIsInclusive` | components/ImageUploader.tsx:16 | exactly 4·1024·1024 bytes is accepted and one byte more is rejected |
| `ImageUploader.OnlyFirstFileMatters` | components/ImageUploader.tsx:14 | files after the first do not affect the decision |
| `GeminiService.Truthy` | services/geminiService.ts:61-62 | a value is falsy exactly when it is undefined, null, false, 0 or the empty string |
| `GeminiService.Or` | services/geminiService.ts:61-62 | JavaScript's or-operator on `v` and `fallback` yields `v` when `v` is truthy and `fallback` otherwise, and is truthy iff either operand is |
| `GeminiService.Property` | services/geminiService.ts:61-62 | reading a key gives an object's own field, and undefined for a missing key or a non-object |
| `GeminiService.Normalize` | services/geminiService.ts:60-63 | fails iff the parsed value is null (or undefined, which `JSON.parse` never returns); a truthy field is the response's own value; a falsy plate number becomes `""` and a falsy found flag becomes `false`; truthiness of `found` is preserved |
| `GeminiService.RecognizeNumberPlate` | services/geminiService.ts:27-68 | every failure carries the one message; a rejected call or missing text fails; a response whose trimmed text parses to a non-null value succeeds with its normalisation, and every success is of that kind |
| `GeminiService.SchemaRequiresExactlyItsProperties` | services/geminiService.ts:11-24 | the schema is an object schema whose required list is exactly its two properties `plateNumber` and `found` |
| `GeminiService.PlateStringKept` | services/geminiService.ts:61 | a non-empty string plate number is returned unchanged |
| `GeminiService.PlateFalsyBecomesEmpty` | services/geminiService.ts:61 | an absent, null or empty plate number becomes `""` |
| `GeminiService.FoundBecomesBoolean` | services/geminiService.ts:62 | `found: true` gives true; absent, null or false gives false |
| `GeminiService.OnlyFalsyReplaced` | services/geminiService.ts:60-63 | truthy values of any type pass through; falsy values of any type become the defaults |
| `GeminiService.WrongTypePassesThrough` | services/geminiService.ts:60-63 | a number plate number and a string found flag come back as they are |
| `GeminiService.NotFoundKeepsPlate` | services/geminiService.ts:60-63 | `found: false` leaves a stray plate number in place |
| `GeminiService.NormalizeIdempotent` | services/geminiService.ts:60-63 | normalising a normalised result gives the same result |
| `GeminiService.ConformingResponseUnchanged` | services/geminiService.ts:60-63 | a response that honours the schema is returned exactly, with a string plate number and a boolean found flag |
| `GeminiService.ResponseWhitespaceIgnored` | services/geminiService.ts:56-58 | whitespace around the response text does not change the outcome |
| `GeminiService.FailuresAreIndistinguishable` | services/geminiService.ts:65-67 | any two failures are the same error value |
| `JsString.Split` | App.tsx:33 | `split` always yields at least one piece |
| `JsString.JoinOfSplit` | App.tsx:33 | joining the pieces of a split restores the string |
| `JsString.SplitOfJoin` | App.tsx:33 | splitting a join of separator-free pieces restores the pieces |
| `JsString.SplitPiecesFree` | App.tsx:33 | no piece contains the separator |
| `JsString.SplitHasSecondPiece` | App.tsx:33 | there is a second piece iff the separator occurs |
| `JsString.SplitFirstPiece` | App.tsx:33 | the first piece is the longest separator-free prefix |
| `JsString.LeadingEnd` | services/geminiService.ts:56 | the scan from an index stops at the first non-whitespace character, having passed only whitespace |
| `JsString.TrailingStart` | services/geminiService.ts:56 | the backward scan from an index stops just after the last non-whitespace character, having passed only whitespace |
| `JsString.TrimStart` | services/geminiService.ts:56 | the result is a suffix; what was dropped is whitespace; the result does not start with whitespace |
| `JsString.TrimEnd` | services/geminiService.ts:56 | the result is a prefix; what was dropped is whitespace; the result does not end with whitespace |
| `JsString.Trim` | services/geminiService.ts:56 | the result is the slice of the input between a whitespace-only prefix and a whitespace-only suffix, and neither starts nor ends with whitespace |
| `JsString.TrimIgnoresSurroundingWhitespace` | services/geminiService.ts:56 | whitespace added on either side does not change what `trim` returns |
| `JsString.TrimIdempotent` | services/geminiService.ts:56 | trimming twice equals trimming once |

## Left out

- The Gemini SDK call, the model name and the prompt text are external. The
  call's outcome is the input `CallOutcome`, so the model does not connect the
  answer to the image that was sent.
- `JSON.parse` is a parameter, because the JSON grammar is not part of this
  model. JSON numbers are integers: floating point, NaN and `-0` are not
  modelled.
- Arrays and primitive values have no `plateNumber` or `found` property.
  An object has only its own fields, because prototype properties are not
  modelled.
- `FileReader`, base64 encoding, `URL.createObjectURL` and `alert` are browser
  I/O. `console.error` is logging. Resetting the DOM input's value is a DOM
  mutation. The preview URL is an input to `HandleFileChange`. A failed read
  reaches `CompleteRecognize` as a `Failure`.
- The `accept` mime-type list is only a browser hint and is never enforced.
- The API-key check at module load is startup configuration.
- All JSX rendering, including `ResultDisplay`, is presentation. Only the
  enabled, preview-shown, result-shown and error-shown conditions are modelled.
- Async interleaving is modelled only at the two await points. A completion
  writes state unconditionally, as the code does. The session model counts
  pending calls for the proof; the code itself keeps no attempt identity.
