# Verified model of the decision logic of the nutrition-coaching admin dashboard

The dashboard is a Next.js front end over a REST backend. This project models
the parts of it that decide something on their own, and proves what they
promise:

- **The session gate** (`src/middleware.ts`, module `SessionGate`). For every
  request it reads the path, the `jwt` cookie and the clock. It then lets the
  request pass, redirects it, or (for `/logout...`) deletes the cookie and
  answers 302 to `/login`. The framework's response objects become a
  `Disposition` value. The decoded token is abstract: `Absent`,
  `Decoded(exp)` or `Malformed`. A malformed token makes `jwtDecode` throw,
  which nothing catches, so it becomes its own outcome, `DecodeThrows`. The
  `config.matcher` is modelled as the predicate `GateApplies`, and `Handle`
  combines it with the decision.
- **The display-code translators** (`src/i18n/translate.ts`, module
  `Translate`). They map section, food-item and registration-step codes to
  Spanish labels, and any unknown code passes through unchanged.
- **The PDF picker `ChakraFileUpload`** (module `PdfUpload`). A type-then-size
  validator sits in front of the component state. The state is the class
  `ChakraFileUpload`, whose fields are `selectedFile`, `isDragOver`, the hidden
  input's `value`, and logs of the toasts shown, the `onFileSelect` calls and
  the file-dialog openings, beside the props `disabled` and `isUploading`,
  which a re-render may change. Each handler is a method. Its postcondition
  equates the new state with a pure function of the old one, and the lemmas
  are stated about those functions.
- **The dropzone uploader `FileUpload`** (module `DropzoneUpload`). Its
  `onDrop` callback is a pure function from the accepted and rejected lists to
  the toasts and callbacks it produces.
- **The reset-password rules** (module `ResetPassword`). The `newPassword`
  regular expression is modelled part by part (two lookaheads and a character
  run). It is proved equal to the rule in plain words: at least 8 characters,
  all from `[a-zA-Z0-9!@#$%^&*]`, at least one digit and at least one symbol.
  The module also models the `required` rule and the rule that confirmation
  must match. Formik turns an empty field into `undefined` before Yup runs,
  so an empty confirmation is accepted (see "## Findings").

Shared types: `Wrappers.Option` and `Files.File` (name, MIME type, size).

At three points the code does not do what a textbook session gate does. The
model follows the code:

- A token with no `exp` claim, or with `exp == 0`, counts as unexpired. It does
  not send the user to `/login`.
- A token that cannot be decoded is not absorbed into a redirect. `jwtDecode`
  throws (`DecodeThrows`).
- Logout is a prefix test (`startsWith("/logout")`), not a test for one exact
  path.

Other behaviour of the code that the model keeps:

- The matcher's exclusion is a bare prefix test on the text after the leading
  `/`, so `/apiary` bypasses the gate too.
- The `.` in `favicon.ico` is a regular-expression wildcard, so
  `/favicon-ico` bypasses the gate as well.
- `new Date(exp * 1000)` is an Invalid Date beyond ±8.64e15 ms, and `isBefore`
  is then false. Such a token never expires.

## Model

| member | source | states |
|---|---|---|
| `SessionGate.ReadToken` | src/middleware.ts:28-32 | a missing cookie or an empty value is `Absent`; any other value is `Malformed` exactly when the decoder fails, else `Decoded` with the decoder's `exp` |
| `SessionGate.RedirectFor` | src/middleware.ts:5-11 | the helper allows the request exactly when it is under `/login` and the destination is `/login`, and otherwise redirects to the destination; it never sends a `/login` request to `/login` |
| `SessionGate.Middleware` | src/middleware.ts:13-40 | `/logout...` deletes the cookie and answers 302 to origin+`/login` whatever the token, and this is the only branch that touches cookies; a malformed token throws; with no live session, `/login...` is allowed and anything else is redirected to `/login`; with a live session, `/login...` is redirected to `/dashboard` and anything else is allowed |
| `SessionGate.MiddlewareIsDecisionTable` | src/middleware.ts:13-40 | the ordered branches equal a decision table keyed on logout, malformed, authenticated and login |
| `SessionGate.Expired` | src/middleware.ts:33 | transcribes the expiry test: `exp` is present and non-zero, `exp*1000` is a valid `Date` time, and it is strictly before `now` |
| `SessionGate.ExpiredIsAbsent` | src/middleware.ts:29-34 | an expired token gets the same disposition as a missing one, on every path |
| `SessionGate.NoExpiryClaimNeverExpires` | src/middleware.ts:33 | a token with no `exp`, or `exp == 0`, is never expired |
| `SessionGate.ExpiryBoundary` | src/middleware.ts:33 | the comparison is strict: at `exp*1000 == now` the token is live, and one millisecond later it is expired |
| `SessionGate.OutOfRangeExpiryNeverExpires` | src/middleware.ts:33 | an `exp` whose millisecond value is outside the range of `Date` is never expired |
| `SessionGate.ExpiryIsMonotone` | src/middleware.ts:33 | once expired, a token stays expired at every later time |
| `SessionGate.NoSelfRedirect` | src/middleware.ts:5-39 | the gate never redirects a request to a path it is already under (no redirect loop) |
| `SessionGate.RedirectSettles` | src/middleware.ts:5-39 | following a redirect with the same cookie at the same time is allowed, so a chain of redirects has length one |
| `SessionGate.ExcludedTail` | src/middleware.ts:43 | transcribes the negative lookahead: the text after `/` starts with `api`, `_next/static` or `_next/image`, or with `favicon`, any character, `ico` |
| `SessionGate.GateApplies` | src/middleware.ts:43 | transcribes the matcher: the path starts with `/` and the rest is not excluded |
| `SessionGate.Handle` | src/middleware.ts:42-44 | the request bypasses the gate exactly when the matcher excludes its path; otherwise the outcome is the middleware's disposition |
| `SessionGate.ExcludedPathsBypass` | src/middleware.ts:43 | `/api/...`, `/_next/static/...`, `/_next/image` and `/favicon.ico` bypass the gate whatever the token |
| `SessionGate.ExcludedPrefixesBypass` | src/middleware.ts:43 | every path starting `/api`, `/_next/static` or `/_next/image`, and every path `/favicon`, any one character, `ico`, with anything after, bypasses the gate whatever the token |
| `SessionGate.OtherPathsAreGated` | src/middleware.ts:42-44 | a path whose first character after `/` is not `a`, `_` or `f` always reaches the middleware, and gets its disposition |
| `SessionGate.ExclusionIsPrefixOnly` | src/middleware.ts:43 | `/apiary` and `/favicon-ico` bypass the gate as well, while `/patients`, `/login` and `/logout` are gated |
| `SessionGate.LogoutWithLiveToken` | src/middleware.ts:16-27 | `/logout` with a live token deletes the cookie and redirects to origin+`/login` |
| `SessionGate.PatientsWithExpiredToken` | src/middleware.ts:28-35 | `/patients` with a token that expired an hour ago is redirected to `/login` |
| `SessionGate.LoginWithLiveToken` | src/middleware.ts:36-38 | `/login` with a token valid for another hour is redirected to `/dashboard` |
| `SessionGate.MalformedTokenThrows` | src/middleware.ts:32 | a malformed token on a gated non-logout path makes the middleware throw |
| `Translate.TranslateSectionName` | src/i18n/translate.ts:1-18 | each of the six section keys maps to its label, which is never itself a section key, and every other string is returned unchanged |
| `Translate.FoodDictionary` | src/i18n/translate.ts:21-54 | the dictionary has a non-empty value exactly for the 30 listed keys |
| `Translate.TranslateFoodItem` | src/i18n/translate.ts:20-56 | each of the 30 listed keys maps to its dictionary value, and every other string is returned unchanged |
| `Translate.RenderStepName` | src/i18n/translate.ts:58-78 | each of the seven step keys maps to its label, which is never itself a step key, and every other string is returned unchanged |
| `Translate.SectionNameIdempotent` | src/i18n/translate.ts:1-18 | translating a section name twice gives the same as translating it once |
| `Translate.StepNameIdempotent` | src/i18n/translate.ts:58-78 | rendering a step name twice gives the same as rendering it once |
| `Translate.SectionAndStepFixedPoints` | src/i18n/translate.ts:1-78 | a section or step name is returned unchanged exactly when it is not listed |
| `Translate.FoodItemFixedPoints` | src/i18n/translate.ts:20-56 | a food item is returned unchanged exactly when it is unlisted or is "chocolate", "yoghurt" or "granola" |
| `Translate.FoodItemIdempotentExceptSparklingWater` | src/i18n/translate.ts:20-56 | translating a food item twice gives the same as once, for every input except "sparkling-water" |
| `Translate.FoodItemExamples` | src/i18n/translate.ts:24-55 | "sparkling-water" gives "soda", "soda" gives "gaseosas", and "chocolate" and "yoghurt" map to themselves |
| `PdfUpload.ToLower` | src/components/FileUpload/ChakraFileUpload.tsx:49 | `name.toLowerCase()`, on ASCII letters, one character at a time; what the name test then decides is `PdfUpload.PdfSuffixIgnoresCase` |
| `PdfUpload.LooksLikePdf` | src/components/FileUpload/ChakraFileUpload.tsx:49 | transcribes the type test: the MIME type contains "pdf" or the lower-cased name ends in ".pdf" |
| `PdfUpload.PdfSuffixIgnoresCase` | src/components/FileUpload/ChakraFileUpload.tsx:49 | for every name, the name test passes exactly when the name ends in `.` followed by `p`, `d` and `f`, each in either case |
| `PdfUpload.Validate` | src/components/FileUpload/ChakraFileUpload.tsx:47-71 | a file is refused for its type exactly when its MIME type has no "pdf" and its lower-cased name does not end in ".pdf"; otherwise it is refused for size exactly when `size > maxFileSize`; otherwise it is accepted |
| `PdfUpload.TypeCheckedBeforeSize` | src/components/FileUpload/ChakraFileUpload.tsx:49-61 | a non-PDF that is also too large gets only the type verdict |
| `PdfUpload.SizeLimitInclusive` | src/components/FileUpload/ChakraFileUpload.tsx:61 | a PDF exactly at the limit is accepted, and one byte more is too large |
| `PdfUpload.EitherTypeConditionSuffices` | src/components/FileUpload/ChakraFileUpload.tsx:49 | "PLAN.PDF" with no type passes, a file typed "application/pdf" passes whatever its name, and "plan.txt" typed "text/plain" fails |
| `PdfUpload.DefaultLimit` | src/components/FileUpload/ChakraFileUpload.tsx:35 | the default limit is 10*1024*1024 bytes, and a PDF of exactly that size is accepted |
| `PdfUpload.SelectFile` | src/components/FileUpload/ChakraFileUpload.tsx:47-74 | a rejected file adds the matching toast and changes nothing else; an accepted file becomes the selected file and is passed to `onFileSelect` once; each call has exactly one visible effect |
| `PdfUpload.SelectFirst` | src/components/FileUpload/ChakraFileUpload.tsx:76-101 | only the first file of an event is validated, and an empty list changes nothing |
| `PdfUpload.InputChange` | src/components/FileUpload/ChakraFileUpload.tsx:76-81 | an input change stores the input's value, validates the first chosen file (and no other), and leaves the drag flag alone; with no file it changes only the value |
| `PdfUpload.DragOver` | src/components/FileUpload/ChakraFileUpload.tsx:83-86 | dragOver sets `isDragOver` and nothing else |
| `PdfUpload.DragLeave` | src/components/FileUpload/ChakraFileUpload.tsx:88-91 | dragLeave clears `isDragOver` and nothing else |
| `PdfUpload.Drop` | src/components/FileUpload/ChakraFileUpload.tsx:93-101 | a drop clears `isDragOver` and then validates the first dropped file (and no other); an empty drop only clears the flag |
| `PdfUpload.ClearSelection` | src/components/FileUpload/ChakraFileUpload.tsx:103-108 | clearing sets the selection to none and resets the input value to "" when the input is mounted, and touches nothing else |
| `PdfUpload.RequestDialog` | src/components/FileUpload/ChakraFileUpload.tsx:110-114 | the file dialog opens, once, exactly when the input is mounted and the component is neither disabled nor uploading; nothing else changes |
| `PdfUpload.HandlersKeepConsistent` | src/components/FileUpload/ChakraFileUpload.tsx:44-114 | every handler keeps the invariant: every file passed to `onFileSelect` passed the validator, and the selected file is the last of them |
| `PdfUpload.SelectFileKeepsConsistent` | src/components/FileUpload/ChakraFileUpload.tsx:47-74 | validating a file keeps the invariant |
| `PdfUpload.RejectionKeepsSelection` | src/components/FileUpload/ChakraFileUpload.tsx:47-74 | a rejected file after an accepted one leaves the accepted file selected, with one callback and one toast |
| `PdfUpload.ChakraFileUpload.constructor` | src/components/FileUpload/ChakraFileUpload.tsx:32-45 | a new component has no selection, no drag highlight, an empty input and empty logs, and keeps its props |
| `PdfUpload.ChakraFileUpload.WithDefaults` | src/components/FileUpload/ChakraFileUpload.tsx:32-45 | with default props, the limit is 10 MiB and the component is enabled and not uploading |
| `PdfUpload.ChakraFileUpload.SetFlags` | src/components/FileUpload/ChakraFileUpload.tsx:36-38 | a re-render with new `disabled` and `isUploading` props keeps the state and the invariant, and later handlers see the new flags |
| `PdfUpload.ChakraFileUpload.HandleFileSelect` | src/components/FileUpload/ChakraFileUpload.tsx:47-74 | the new state is `SelectFile` of the old one, and the invariant holds |
| `PdfUpload.ChakraFileUpload.HandleInputChange` | src/components/FileUpload/ChakraFileUpload.tsx:76-81 | the new state is `InputChange` of the old one, and the invariant holds |
| `PdfUpload.ChakraFileUpload.HandleDragOver` | src/components/FileUpload/ChakraFileUpload.tsx:83-86 | the new state is `DragOver` of the old one |
| `PdfUpload.ChakraFileUpload.HandleDragLeave` | src/components/FileUpload/ChakraFileUpload.tsx:88-91 | the new state is `DragLeave` of the old one |
| `PdfUpload.ChakraFileUpload.HandleDrop` | src/components/FileUpload/ChakraFileUpload.tsx:93-101 | the new state is `Drop` of the old one, and the invariant holds |
| `PdfUpload.ChakraFileUpload.ClearFile` | src/components/FileUpload/ChakraFileUpload.tsx:103-108 | the new state is `ClearSelection` of the old one |
| `PdfUpload.ChakraFileUpload.OpenFileDialog` | src/components/FileUpload/ChakraFileUpload.tsx:110-114 | the new state is `RequestDialog` of the old one under the current `disabled` and `isUploading` flags, which `SetFlags` may have changed since construction |
| `DropzoneUpload.MessageFor` | src/components/FileUpload/FileUpload.tsx:45-70 | "file-too-large" as the first code gives the size message, "file-invalid-type" the type message, and any other code or no error at all the generic message |
| `DropzoneUpload.OnDrop` | src/components/FileUpload/FileUpload.tsx:43-77 | with any rejection there is exactly one toast, chosen by the first rejection, and no callback, even beside accepted files; with none there is no toast, and `onFileSelect` gets only the first accepted file, once, or nothing when the list is empty |
| `DropzoneUpload.OnlyFirstCodeMatters` | src/components/FileUpload/FileUpload.tsx:44-46 | later rejections, later error codes and the accepted list do not change what a drop does |
| `DropzoneUpload.MessageExamples` | src/components/FileUpload/FileUpload.tsx:46-70 | a first code of "file-too-large" or "file-invalid-type" picks its message whatever follows, a second code never decides ("too-many-files" then "file-too-large" gives the generic message), and no errors at all gives the generic message |
| `DropzoneUpload.EmptyDropDoesNothing` | src/components/FileUpload/FileUpload.tsx:74 | an empty drop produces no toast and no callback |
| `ResetPassword.MatchesPattern` | src/app/login/reset-password/page.tsx:25 | transcribes the regular expression: the digit lookahead and the symbol lookahead (each `.*` free of line terminators) and the anchored run of 8 or more class characters |
| `ResetPassword.Prepared` | src/app/login/reset-password/page.tsx:59-68 | Formik's preparation of the values for Yup: "" becomes `undefined` (`None`), any other string is kept |
| `ResetPassword.PatternIsStrongPassword` | src/app/login/reset-password/page.tsx:25 | the regular expression accepts exactly the passwords of at least 8 class characters with a digit and a symbol |
| `ResetPassword.ResetPasswordErrors` | src/app/login/reset-password/page.tsx:23-32 | Formik first turns "" into `undefined`, which only `required` rejects: the two fields are valid exactly when the new password is strong and the confirmation is empty or equals it; "required" fails exactly on ""; the pattern fails exactly on a non-empty password that is not strong; the mismatch error appears exactly when the confirmation is non-empty and differs |
| `ResetPassword.EmptyPasswordOnlyRequired` | src/app/login/reset-password/page.tsx:23-28 | an empty new password fails "required" and never the pattern; with an empty confirmation that is the only error |
| `ResetPassword.PasswordExamples` | src/app/login/reset-password/page.tsx:25 | "12345678!" and "abcdef1!" are accepted; a 7-character password, one holding '.', one without a digit and one without a symbol are refused |
| `ResetPassword.NoMaximumLength` | src/app/login/reset-password/page.tsx:25 | appending class characters to a strong password keeps it strong |
| `ResetPassword.ConfirmationMustMatch` | src/app/login/reset-password/page.tsx:29-32 | a strong password confirmed by itself, or with the confirmation left empty, has no error; confirmed by any other non-empty text it has only the mismatch error |
| `ResetPassword.EmptyConfirmationAccepted` | src/app/login/reset-password/page.tsx:29-32 | the strong password "abcdef1!" with an empty confirmation gives the two password fields no error, so once `email` and `code` are valid the submit button is enabled |
| `ResetPassword.IntendedResetPasswordErrors` | src/app/login/reset-password/page.tsx:23-32 | the intended rule: valid exactly when the password is strong and the confirmation equals it, the empty one included; the mismatch error appears exactly when the two differ |
| `ResetPassword.IntendedDiffersOnlyOnEmptyConfirmation` | src/app/login/reset-password/page.tsx:29-32 | the intended rule agrees with the written one everywhere except an empty confirmation of a non-empty password, where it adds only the mismatch error |

## Left out

- JWT decoding (`jwtDecode`'s base64url and JSON parsing) is a foreign library and is abstracted to `Token`. No signature is checked by the source either.
- A non-numeric `exp` claim (for example a string or `NaN`) and fractional seconds are not modelled: `exp` is an integer or absent.
- `Date.now()` is the parameter `now` in milliseconds. `NextResponse`, `new URL(...)` and the cookie jar become the `Disposition` value. A `Redirect` carries the destination path, not the absolute URL the framework builds from it.
- How Next.js compiles and evaluates `config.matcher` is framework behaviour. Only the prefix exclusion is modelled, and paths with raw line terminators are not considered.
- The megabyte figures in toast and help texts (`Math.round(maxFileSize/1024/1024)`, `toFixed(1)`) use floating point. They are left out with all toast texts and the JSX/Chakra rendering.
- `toLowerCase` is modelled on ASCII letters only. Other characters are kept as they are. The ".pdf" suffix test cannot be affected by that, because no non-ASCII character lower-cases to `.`, `p`, `d` or `f`.
- JavaScript strings are UTF-16 code units; the model's strings are sequences of Unicode characters.
- React's batching of `setState` calls is not modelled: each handler's updates take effect at once. A null `FileList` is treated like an empty one.
- `PdfUpload.ChakraFileUpload`: `maxFileSize` and whether the input is mounted are fixed for the object's lifetime, while `disabled` and `isUploading` change through `SetFlags`. The invariant `Consistent` assumes the size limit never changes: a re-render with a smaller limit would not re-check the file already passed on.
- `PdfUpload.InputChange`: the input's `value` is set by the browser, not by the handler, and is passed in with the event.
- react-dropzone's own type and size validation (its `accept`, `maxSize` and `multiple` options) is unseen. The accepted and rejected lists and the error codes are inputs.
- Yup's `email()` and `number()` validators for the `email` and `code` fields have unseen semantics and are left out. So are the submit handlers (`restClient`, `router.push`), which are I/O.
- `ResetPassword.ResetPasswordErrors` gives the set of failing rules. Which single message Formik then shows for a field is not modelled.
- Formik's `""`-to-`undefined` step is modelled only for the two password fields, through `ResetPassword.Prepared`.
- `Translate.TranslateFoodItem`: the dictionary is a lookup of the 30 listed keys. In JavaScript, `dictionary[item]` also finds inherited members such as "constructor", and the function would return that member instead of the input.
- The HTTP wrappers, the table, layout, button and input components, and the invite-status badge are UI or I/O with no decision logic of their own. They are not part of this model.

## Findings

| source | as written | input that shows it | evidently intended | confidence | as-written member | corrected member |
|---|---|---|---|---|---|---|
| src/app/login/reset-password/page.tsx:29-32 | `confirmNewPassword` is `Yup.string().oneOf([ref("newPassword")])` with no `required()`; Formik passes an empty field as `undefined`, which `oneOf` lets through | newPassword "abcdef1!", confirmNewPassword "" gives the two password fields no error, so once `email` and `code` are valid the submit button is enabled | the confirmation must equal the new password, also when it is left empty | medium, not executed; rests on Formik's and Yup's documented handling of empty fields | `ResetPassword.EmptyConfirmationAccepted` | `ResetPassword.IntendedResetPasswordErrors` |
