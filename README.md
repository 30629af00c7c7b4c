# fleeting-file-share in Dafny

A model of the core of fleeting-file-share, a web application that shares a
file through a link that expires after a chosen time or number of downloads.

- `upload_file.dfy` (module `UploadFile`) models the `upload-file` edge
  function. It reads a multipart form with `file`, `expiryTime` and
  `downloadLimit`. It stores the file in the `files` storage bucket under
  `<uuid>.<extension>`. It then inserts one metadata row into the `files`
  table, and removes the stored file again when that insert fails.
  `Handle` says what one request does, as a value. The class
  `FileShareBackend` holds the bucket (a map from path to blob) and the table
  (a sequence of rows). Its `Serve` method performs the same steps on that
  state and is proved to agree with `Handle`, including the order of the
  service calls.
- `upload_result.dfy` (module `UploadResult`) models the two labels of the
  upload result panel: `formatExpiryTime` and "Downloads remaining".
- `upload_utils.dfy` (module `UploadUtils`) models `simulateUpload`. Its start
  step and its interval tick form a state machine over progress, the
  uploading flag, the complete flag and the share link. The class
  `UploadSimulation` holds that state and its methods update it in place.
- `upload_settings.dfy` (module `UploadSettings`) lists the expiry and
  download-limit choices the settings form offers. It follows each choice
  through the edge function and the result panel.
- `js_text.dfy` (module `JsText`) gives the JavaScript built-ins the code
  relies on: `endsWith`, `slice(0, -1)`, `substring`, `split('.').pop()`, and
  `parseInt` without a radix as section 19.2.5 of ECMA-262 defines it.
  `wrappers.dfy` holds `Option`, used for `null` and `NaN`.

Everything the outside world decides during a request is a parameter (the
`Env` value): the random UUID, the clock, whether storage or the database
report an error, and whether the compensating remove succeeds. Times are
integer time values in milliseconds. A `Date` is valid when its time value
is at most 8.64e15 in magnitude.

## Model

| member | source | states |
|---|---|---|
| JsText.DropLast | src/components/upload/UploadResult.tsx:29-30 | `slice(0, -1)` is the string without its last character, and "" stays "" |
| JsText.Substring | src/components/upload/uploadUtils.ts:17 | `substring(start)` is the text from `start` on, and the string is that text's prefix plus the text |
| JsText.Split | supabase/functions/upload-file/index.ts:32 | `split` gives at least one piece, no piece holds the separator, and there is exactly one piece when the separator does not occur |
| JsText.SplitJoin | supabase/functions/upload-file/index.ts:32 | joining the pieces of a split with the separator gives back the original string |
| JsText.LastPieceAfterLastSeparator | supabase/functions/upload-file/index.ts:32 | `pop()` of the split is the text after the last separator; it is the whole string exactly when there is no separator |
| JsText.TrimStart | supabase/functions/upload-file/index.ts:48 | `parseInt` first drops exactly the leading white space: every dropped character is white space, and the rest is a suffix of the text that does not start with white space |
| JsText.LeadingDigits | supabase/functions/upload-file/index.ts:48 | `parseInt` reads the longest prefix of digits, stopping at the first non-digit |
| JsText.ParseIntOfDecimalPrefix | supabase/functions/upload-file/index.ts:48 | `parseInt` of a decimal number followed by a non-digit (such as a unit letter) is that number |
| JsText.ParseIntOfNegativeDecimalPrefix | supabase/functions/upload-file/index.ts:60 | `parseInt` of "-" and a decimal number is the negated number |
| JsText.ParseIntNoLeadingDigit | supabase/functions/upload-file/index.ts:48 | a text that starts with anything but white space, a sign or a digit reads as `NaN` |
| JsText.EndsWith | src/components/upload/UploadResult.tsx:29 | `endsWith(suffix)`: the last characters of the string are the suffix; `LabelUnit` states what it decides for the label |
| JsText.Join | supabase/functions/upload-file/index.ts:32 | the inverse of `split` used to pin it down; `SplitJoin` states the round trip |
| JsText.Last | supabase/functions/upload-file/index.ts:32 | `pop()` as a value, the last piece; `LastPieceAfterLastSeparator` states which text it is |
| JsText.ParseUnsigned | supabase/functions/upload-file/index.ts:48 | the unsigned part of `parseInt`: radix 16 after "0x"/"0X", radix 10 otherwise, the longest run of digits, `NaN` when there is none; `ParseUnsignedOfDecimalPrefix` states its value on decimal text |
| JsText.ParseInt | supabase/functions/upload-file/index.ts:48 | `parseInt` without a radix: skip white space, take one optional sign, read the unsigned number; its properties are `ParseIntOfDecimalPrefix`, `ParseIntOfNegativeDecimalPrefix` and `ParseIntNoLeadingDigit` |
| UploadFile.FileExtension | supabase/functions/upload-file/index.ts:32 | `file.name.split('.').pop()`; `FilePathShape` states what text it is |
| UploadFile.FilePath | supabase/functions/upload-file/index.ts:33 | the storage path `<uuid>.<extension>`; `FilePathShape` states its shape |
| UploadFile.MaxDownloads | supabase/functions/upload-file/index.ts:60 | -1 for "unlimited", otherwise `parseInt` of the entry's text; `MaxDownloadsUnlimited` and `MaxDownloadsOfNumber` state its values |
| UploadFile.ExpiryHours | supabase/functions/upload-file/index.ts:48 | `parseInt` of the expiry entry's text, used as hours; `ExpiryHoursOfCode` states its value on a code |
| UploadFile.ExpiresAt | supabase/functions/upload-file/index.ts:49-61 | the clock advanced by the hours, or no date when the hours are `NaN` or the result is outside the range of `Date` (where `toISOString()` throws); `ExpiresAtHours` and `ExpiryWithoutDigitsIsInvalid` state its values |
| UploadFile.Admit | supabase/functions/upload-file/index.ts:10-32 | the handler up to the first service call: OPTIONS, an unparseable form, a missing field, or a text `file` entry are answered; otherwise the three entries go on; `OptionsRequestTouchesNothing` and `MissingFieldIsRejected` state the answers |
| UploadFile.InsertOrCompensate | supabase/functions/upload-file/index.ts:53-70 | insert the row, or on `dbError` remove the stored file and answer 500; `InsertOrCompensateOrphans` and `CommitInsertRejection` state its effect |
| UploadFile.Commit | supabase/functions/upload-file/index.ts:32-78 | upload, then the date check, then insert or compensation, as written; `CommitCallOrder`, `CommitPreservesData` and `CommitOrphans` state its properties |
| UploadFile.Handle | supabase/functions/upload-file/index.ts:9-85 | one request as written; the lemmas over `Handle` below state what it does, and `FileShareBackend.Serve` is proved to perform it |
| UploadFile.IntendedExpiryHours | supabase/functions/upload-file/index.ts:48-50 | the corrected reading of the expiry code, n hours for "<n>h" and 24·n for "<n>d"; `IntendedExpiryOfCode` states it |
| UploadFile.CommitChecked | supabase/functions/upload-file/index.ts:47-78 | the corrected order: date check, then upload, then insert or compensation; `CommitCheckedOrphans` states its effect on orphans |
| UploadFile.HandleChecked | supabase/functions/upload-file/index.ts:9-85 | one request with the corrected reading and order; `CheckedInvalidExpiryStoresNothing` and `CheckedOrphansOnlyFromFailedRemove` state its properties |
| UploadFile.FilePathShape | supabase/functions/upload-file/index.ts:32-33 | the path is the UUID, a dot and the text after the name's last dot (the whole name when it has none) |
| UploadFile.StorageUpload | supabase/functions/upload-file/index.ts:36-45 | an upload with `upsert: false` fails, storing nothing, on a service failure or an existing path; otherwise it stores the blob at the path |
| UploadFile.StorageRemove | supabase/functions/upload-file/index.ts:68 | a successful remove drops exactly the listed paths and keeps every other blob; a failed one changes nothing |
| UploadFile.OptionsRequestTouchesNothing | supabase/functions/upload-file/index.ts:10-12 | an OPTIONS request gets an empty 200 answer and calls no service |
| UploadFile.MissingFieldIsRejected | supabase/functions/upload-file/index.ts:20-25 | a `file`, `expiryTime` or `downloadLimit` entry that is absent or is the empty text gives a 400 "Missing required fields" and calls no service; a file entry always passes this check, even a zero-byte file with an empty name (`EmptyFileIsAdmitted`) |
| UploadFile.EmptyFileIsAdmitted | supabase/functions/upload-file/index.ts:20-33 | a zero-byte file with an empty name, with non-empty expiry and limit texts, is admitted and would be stored at the UUID followed by a dot: the handler does not enforce a non-empty file |
| UploadFile.CommitCallOrder | supabase/functions/upload-file/index.ts:32-70 | as written, exactly one upload of the request's path comes first; corrected, an invalid date makes no call and a valid one starts with that upload; then at most one insert, only after that upload succeeded, then at most one remove, only after the insert failed |
| UploadFile.CallOrder | supabase/functions/upload-file/index.ts:36-70 | every request, as written or corrected, uploads at most once and calls storage and the database only in that order, and the insert and remove use the uploaded path |
| UploadFile.UploadErrorChangesNothing | supabase/functions/upload-file/index.ts:43-45 | an upload error (service failure or existing path) is a 500 that changes neither bucket nor table and makes no further call |
| UploadFile.CommitInsertRejection | supabase/functions/upload-file/index.ts:66-70 | a rejected insert leaves the table unchanged, calls remove on the stored file, which is gone exactly when that remove succeeds, and answers 500 with the database's message |
| UploadFile.InsertRejectionIsCompensated | supabase/functions/upload-file/index.ts:53-70 | when the database rejects the row the table is unchanged, the answer is a 500 with its message, and storage is back to its old state exactly when the remove succeeded |
| UploadFile.SuccessStoresOneFileAndOneRow | supabase/functions/upload-file/index.ts:32-78 | a success answer means one new file at a fresh `<uuid>.<ext>` path and one appended row pointing at it with the decoded policy, whose id is the answer's `fileId` |
| UploadFile.CommitPreservesData | supabase/functions/upload-file/index.ts:38-41 | the upload, insert and compensation never change an existing blob and never change or drop an existing row |
| UploadFile.ExistingDataIsPreserved | supabase/functions/upload-file/index.ts:38-41 | no request overwrites a stored file (`upsert: false`) or changes or drops an existing row |
| UploadFile.InvalidExpiryLeavesOrphan | supabase/functions/upload-file/index.ts:43-61 | an expiry that gives an invalid date is noticed only after the upload: 500, no row, and the stored file becomes an orphan |
| UploadFile.ExpiryWithoutDigitsIsInvalid | supabase/functions/upload-file/index.ts:48-50 | an expiry text with no digit after its leading white space and optional sign (such as "abc", " abc" or "-abc") never gives a valid date |
| UploadFile.UploadOnlyAddsOrphan | supabase/functions/upload-file/index.ts:36-41 | storing a file at a fresh path keeps every row pointing at a file and adds exactly that path to the orphans |
| UploadFile.InsertOrCompensateOrphans | supabase/functions/upload-file/index.ts:53-70 | after the upload, insert or compensation leaves the orphans as before unless both insert and remove failed, which adds the path |
| UploadFile.CommitOrphans | supabase/functions/upload-file/index.ts:36-70 | the steps after admission add at most the request's own path to the orphans, and only on an invalid date or a failed remove |
| UploadFile.OrphansOnlyFromInvalidExpiryOrFailedRemove | supabase/functions/upload-file/index.ts:36-70 | a request keeps every row pointing at a stored file, and adds its own path to the orphans only on an invalid expiry after the upload or a failed remove |
| UploadFile.CommitCheckedOrphans | supabase/functions/upload-file/index.ts:47-70 | with the date checked first, the steps after admission add an orphan only when the remove failed |
| UploadFile.CheckedInvalidExpiryStoresNothing | supabase/functions/upload-file/index.ts:47-50 | in the corrected handler an invalid expiry is a 500 before anything is stored or called |
| UploadFile.CheckedOrphansOnlyFromFailedRemove | supabase/functions/upload-file/index.ts:36-70 | in the corrected handler a request adds an orphan only when the compensating remove failed |
| UploadFile.MaxDownloadsUnlimited | supabase/functions/upload-file/index.ts:60 | `max_downloads` is -1 exactly for "unlimited" or a text `parseInt` reads as -1 |
| UploadFile.MaxDownloadsOfNumber | supabase/functions/upload-file/index.ts:60 | a decimal limit is stored as that number, and a file entry as `null` (NaN) |
| UploadFile.ExpiryHoursOfCode | supabase/functions/upload-file/index.ts:48 | an expiry code `<n><unit>` reads as n hours whatever the unit letter |
| UploadFile.ExpiresAtHours | supabase/functions/upload-file/index.ts:49-50 | a valid clock advanced by h hours is the time value h·3600000 ms later |
| UploadFile.ExpiryCodeIsHours | supabase/functions/upload-file/index.ts:48-50 | `expires_at` for a code `<n><unit>` is n hours from now, for any unit letter |
| UploadFile.IntendedExpiryOfCode | supabase/functions/upload-file/index.ts:48-50 | the corrected reading takes `<n>d` as 24·n hours and `<n>h` as n hours |
| UploadFile.FileShareBackend.Upload | supabase/functions/upload-file/index.ts:36-41 | the bucket gains the blob exactly when the upload succeeds; the table is unchanged and the call is logged |
| UploadFile.FileShareBackend.Insert | supabase/functions/upload-file/index.ts:53-64 | the row is appended with the database's id exactly when the insert succeeds; the bucket is unchanged |
| UploadFile.FileShareBackend.Remove | supabase/functions/upload-file/index.ts:68 | a successful remove drops the listed paths and nothing else; the table is unchanged |
| UploadFile.FileShareBackend.CommitFile | supabase/functions/upload-file/index.ts:32-78 | the upload, date check, insert and compensation leave state, answer and call log exactly as `Commit` says |
| UploadFile.FileShareBackend.CommitFileChecked | supabase/functions/upload-file/index.ts:47-78 | the corrected steps leave state, answer and call log exactly as `CommitChecked` says |
| UploadFile.FileShareBackend.Serve | supabase/functions/upload-file/index.ts:9-85 | the handler leaves bucket, table, answer and call log exactly as `Handle` says |
| UploadFile.FileShareBackend.ServeChecked | supabase/functions/upload-file/index.ts:9-85 | the corrected handler leaves them exactly as `HandleChecked` says |
| UploadResult.FormatExpiryTime | src/components/upload/UploadResult.tsx:28-31 | the label is the code without its last character followed by " days" exactly when the code ends in 'd', and by " hours" otherwise |
| UploadResult.LabelUnit | src/components/upload/UploadResult.tsx:29-30 | the label ends in " days" exactly for a code ending in 'd', and in " hours" exactly for any other code |
| UploadResult.FormatExpiryTimeRoundTrip | src/components/upload/UploadResult.tsx:28-31 | for codes ending in 'd' or 'h' the code can be recovered from its label |
| UploadResult.FormatExpiryTimeEdgeCases | src/components/upload/UploadResult.tsx:28-31 | "" is shown as " hours", "1h" as "1 hours" (no singular), "7d" as "7 days" |
| UploadResult.DownloadsRemaining | src/components/upload/UploadResult.tsx:49 | the label is "Unlimited" for the limit "unlimited", and the limit text unchanged otherwise |
| UploadUtils.Start | src/components/upload/uploadUtils.ts:8-11 | the start step: uploading, progress 0, interval set; `StartResetsProgress` states it |
| UploadUtils.Tick | src/components/upload/uploadUtils.ts:11-22 | one interval tick: +10 below 100, completion at 100, nothing once the interval is cleared; `TickBelowFull`, `TickAtFull` and `StoppedTimerIsInert` state it |
| UploadUtils.ShareableLink | src/components/upload/uploadUtils.ts:17 | the link starts with `https://share.temp/` |
| UploadUtils.StartResetsProgress | src/components/upload/uploadUtils.ts:8-11 | starting sets uploading and progress 0 and sets the interval; completion and link are kept |
| UploadUtils.TickBelowFull | src/components/upload/uploadUtils.ts:13-20 | a running tick below 100 adds exactly 10 and changes nothing else |
| UploadUtils.TickAtFull | src/components/upload/uploadUtils.ts:13-18 | a running tick at 100 or more gives progress 100, not uploading, complete, a share link, and clears the interval |
| UploadUtils.LinkChangesOnlyAtCompletion | src/components/upload/uploadUtils.ts:13-18 | a tick changes the link only when it is the completing tick |
| UploadUtils.StoppedTimerIsInert | src/components/upload/uploadUtils.ts:14 | once the interval is cleared no number of ticks changes anything |
| UploadUtils.InitialIsSteady | src/components/FileUpload.tsx:18-21 | the page's initial state satisfies the progress invariant |
| UploadUtils.StartPreservesSteady | src/components/upload/uploadUtils.ts:8-9 | starting keeps progress a multiple of 10 in [0, 100], the flag set while the timer runs, and the link empty or a share link |
| UploadUtils.TickPreservesSteady | src/components/upload/uploadUtils.ts:11-22 | every tick keeps that invariant |
| UploadUtils.ProgressFromStart | src/components/upload/uploadUtils.ts:11-22 | after a start, tick k ≤ 10 leaves progress 10·k and nothing else changed; from tick 11 on the run is complete |
| UploadUtils.CompletionOnEleventhTick | src/components/upload/uploadUtils.ts:11-22 | from a start that is not complete, the run is complete and no longer uploading exactly from the 11th tick on |
| UploadUtils.UploadSimulation.SimulateUpload | src/components/upload/uploadUtils.ts:8-11 | the fields become the `Start` state of the old ones |
| UploadUtils.UploadSimulation.IntervalTick | src/components/upload/uploadUtils.ts:11-22 | the fields become the `Tick` state of the old ones |
| UploadSettings.ExpiryOptionCodes | src/components/upload/UploadSettings.tsx:36-44 | the expiry choices are exactly the codes "1h" … "30d" in the form's order |
| UploadSettings.LimitOptionCodes | src/components/upload/UploadSettings.tsx:58-66 | the limit choices are exactly "1" … "100" and "unlimited" in the form's order |
| UploadSettings.ExpiryOptionCaptions | src/components/upload/UploadSettings.tsx:36-44 | the expiry choices' captions are exactly "1 hour" … "30 days" in the form's order |
| UploadSettings.CaptionShown | src/components/upload/UploadResult.tsx:28-31 | the result panel repeats the form's caption of an expiry choice exactly when its amount is not 1 ("1 hour" is shown as "1 hours") |
| UploadSettings.ExpiryOptionsAsWritten | supabase/functions/upload-file/index.ts:48-50 | every expiry choice is read as its amount in hours, so each day choice is not the hours its label promises |
| UploadSettings.SevenDaysExpireAfterSevenHours | src/components/upload/UploadSettings.tsx:42 | the "7 days" choice is shown as "7 days" and expires 7 hours after the upload |
| UploadSettings.ExpiryOptionsCorrected | src/components/upload/UploadSettings.tsx:36-44 | with the corrected reading every expiry choice lasts the hours its label promises |
| UploadSettings.ExpiryOptionsShown | src/components/upload/UploadResult.tsx:28-31 | the result panel shows each expiry choice as its amount and the plural unit word |
| UploadSettings.LimitOptionsStored | src/components/upload/UploadSettings.tsx:58-66 | a limit choice is stored as -1 and shown as "Unlimited" exactly when it is "unlimited"; a number choice is stored and shown as that number |

## Left out

- HTTP, CORS headers, JSON encoding, `req.formData()` parsing and the
  Supabase client are not modelled. A form that cannot be parsed is an
  `Unparseable` body whose message is answered with a 500.
- The environment variables for the Supabase URL and key are not modelled.
- `toISOString()` formatting is not modelled. `expires_at` is the time value
  in milliseconds, and only its validity matters.
- `setHours` works in local time. Daylight-saving shifts are left out, so
  adding h hours is h·3600000 ms.
- UploadFile.ExpiresAt: treats the time value as an unbounded integer, not a
  double. Every hour count a valid date can take is exactly representable,
  so the result is the same.
- JsText.ParseInt: reads digits into an unbounded integer. It does not model
  the rounding of very long digit runs to a double, nor `-0`, which it reads
  as 0.
- UploadFile.MaxDownloads: `NaN` is stored as `null`, modelled as `None`;
  how the database treats a `null` or a non-integer limit is not modelled.
- A `remove` that throws instead of reporting an error is not modelled; the
  model lets the remove succeed or fail, and the handler answers the same
  either way.
- Row ids are chosen by the database and are a parameter; their uniqueness
  is not modelled.
- Requests are modelled one at a time: `Handle` maps one store to the next
  and `FileShareBackend.Serve` makes its calls back to back, while the
  function lets other requests run during its awaits. The compensation and
  orphan properties are about the request's own path and row, which other
  requests do not touch because paths are fresh UUIDs and rows are only
  appended.
- An error reply from the storage upload or the database insert is taken to
  mean that nothing was written. An insert that commits but reports an error
  (a lost reply) would be followed by the remove and leave a row pointing at
  no file; `NoDangling` rules that out by this assumption.
- The call log of `FileShareBackend` is ghost state that records the order of
  the service calls; it has no counterpart in the function.
- src/components/FileUpload.tsx is not part of this model beyond its initial
  state values. Its size check and the `uploadFile` it imports (which
  uploadUtils.ts does not export) are UI wiring.
- src/pages/Download.tsx and src/pages/Index.tsx are not part of this model.
  The download page only shows a message, so no download, quota or expiry
  check exists to model.
- UploadUtils: the 500 ms period of the interval, `Math.random()` (a
  parameter) and the clipboard and toast effects are left out.
- UploadUtils.UploadSimulation.SimulateUpload: a second start while an
  interval runs would leave two intervals ticking; the model has one timer,
  which a start resets.
- JsText.DropLast: strings are sequences of Unicode scalar values, so a
  trailing character outside the Basic Multilingual Plane is dropped whole,
  where JavaScript's `slice(0, -1)` leaves the first half of its surrogate
  pair; no expiry choice of the form contains such a character.
- UploadUtils.Ticks: all ticks of a run receive the same random text. Only
  the completing tick uses it, so this loses nothing.

## Findings

| source | as written | input that shows it | evidently intended | confidence | as-written member | corrected member |
|---|---|---|---|---|---|---|
| supabase/functions/upload-file/index.ts:48-50 | the expiry code is read with `parseInt` and added as hours, whatever its unit letter | the settings choice "7d", labelled "7 days" | a "d" code lasts that many days (7·24 = 168 hours) | high, not executed | UploadSettings.SevenDaysExpireAfterSevenHours | UploadSettings.ExpiryOptionsCorrected |
| supabase/functions/upload-file/index.ts:43-61 | the expiry date is only checked by `toISOString()` after the file is stored, outside the insert's clean-up | `expiryTime` = "abc" with a file that uploads | reject the request before storing anything, leaving no orphan file | medium, not executed | UploadFile.InvalidExpiryLeavesOrphan | UploadFile.CheckedOrphansOnlyFromFailedRemove |
