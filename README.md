# converter-files: the conversion service, modelled in Dafny

The server receives files uploaded by a browser at `POST /convert` together
with a target format. It converts each file through the CloudConvert job
API and answers with one ZIP archive of the converted files. Converting one
file (`convertFile`) follows the provider's job protocol in four steps:

1. Create a job with an import, a convert and an export task.
2. Post the file to the import task's upload form.
3. Poll the job up to 60 times until it reports "finished" or "error".
4. Download the file behind the export task's first URL.

The handler converts the files one after another into a staging folder
named from the clock, streams that folder as the archive, and removes the
uploads and the folder.

The project has five modules:

- `Wrappers`: `Option` and `Result`.
- `JsStrings`: the JavaScript string operations the server uses. These are
  truthiness and `||` on a value that may be `undefined`,
  `String.prototype.includes` and `String.prototype.toLowerCase`.
- `NodePath`: `path.extname` and `path.basename(p, ext)` of Node's POSIX
  path module, with `ext` the extension `path.extname(p)` gives, as the
  server calls it. Both work on the last segment of the path.
- `Conversion`: `convertFile`. The provider is an oracle value, `Provider`,
  which holds:
  - the creation reply;
  - the upload outcome;
  - the job's `data` returned by the i-th status fetch, as a function of i;
  - the body returned for each download URL.

  Every request the call sends is appended to a log of `RemoteCall`s. This
  lets the contracts say which requests happen, in which order and how many.
  `ConvertOutcome` is the specification of one call. The method
  `ConvertFile`, with its poll loop `Poll`, is proved equal to it.
- `ConvertRoute`: the `/convert` handler.
  - `Batch` specifies the loop over the files. It takes the list of entry
    names and each file's conversion, and yields the staged entries and the
    tagged request log, or the first error.
  - The `Storage` class holds the upload paths and the staging folders, and
    its methods change them in place.
  - `HandleConvert` is the handler. It calls `ConvertAndArchive`, which
    calls `StageFiles`, which calls `StageFile` once per file. It is proved
    against `Batch`.

Clocks, the environment and the network are parameters:

- The API key is `key`.
- The staging folder name is `jobFolder`.
- `oracle(i)` is the provider as seen by the conversion of file i.

### Two behaviours of the code

- **No poll timeout.** The code raises no timeout error. After 60 fetches
  without "finished" or "error", it leaves the loop with the 60th status
  and tries to download from it. The model makes this outcome explicit
  (`PollOutcome.Exhausted`), and `Conversion.ExhaustedBudgetReachesDownload`
  states it.
- **Entry names can collide.** Each entry is named after the file's base
  name and the format, so `a.txt` and `a.png` both become `a.pdf`, and the
  later file overwrites the earlier. `ConvertRoute.SameStemSameEntry` and
  `ConvertRoute.BatchLastWriterWins` state the collision.
  `ConvertRoute.DistinctNamesOneEntryEach` gives one entry per file when
  the derived names are distinct.

## Model

| member | source | states |
|---|---|---|
| JsStrings.OrElse | server.js:51 | JavaScript's or-default gives the value when it is a non-empty string and the fallback when it is `undefined` or empty |
| JsStrings.Includes | server.js:52 | a string includes only substrings no longer than itself; `IncludesIffOccurs` and `MissingCharExcludes` describe it fully |
| JsStrings.IncludesIffOccurs | server.js:52 | the left-to-right `includes` scan succeeds exactly when the substring occurs at some position |
| JsStrings.MissingCharExcludes | server.js:51-52 | a string that lacks one of the characters of `sub` does not include `sub` |
| JsStrings.LowerChar | server.js:89 | maps an upper-case ASCII letter to its lower-case letter (code + 32) and leaves every other character unchanged; the result is never upper case |
| JsStrings.ToLowerCase | server.js:89 | `toLowerCase` keeps the length and lower-cases each character in place |
| JsStrings.ToLowerCaseIdempotent | server.js:89 | lower-casing leaves no upper-case letter, and lower-casing twice equals lower-casing once |
| NodePath.TrimTrailingSeparatorsSpec | server.js:93 | dropping trailing `/` keeps a prefix of the path that does not end in `/`, and removes only `/` characters |
| NodePath.AfterLastSeparatorSpec | server.js:93 | the last segment is a suffix without `/`, preceded by `/` unless it is the whole string |
| NodePath.PlainNameIsLastSegment | server.js:93 | a name without `/` is its own last segment |
| NodePath.LastIndexOfSpec | server.js:93 | the last index of a character is an occurrence with no later occurrence; there is none only when the character is absent |
| NodePath.ExtName | server.js:93 | `extname` is empty or starts with a dot; `ExtNameSpec`, `ExtNameNonEmptyIff` and `PlainNameSplit` describe it fully |
| NodePath.BaseName | server.js:93 | `basename(p, extname(p))` is never longer than the last segment of `p`; `StemAndExtension`, `DotFileHasNoExtension` and `PlainNameSplit` describe it fully |
| NodePath.ExtNameSpec | server.js:93 | a non-empty `extname` starts with a dot, is shorter than the last segment, ends it, and has no other dot |
| NodePath.ExtNameNonEmptyIff | server.js:93 | `extname` is non-empty exactly when the last segment has a dot after its first character and is not `..` |
| NodePath.DotFileHasNoExtension | server.js:93 | a dot-file such as `.env` has no extension, and its base name is the whole segment |
| NodePath.StemAndExtension | server.js:93 | `basename(p, extname(p)) + extname(p)` gives back the last segment of `p` |
| NodePath.PlainNameSplit | server.js:93 | for a name without `/` whose last dot is at d > 0, the extension is the part from d on and the base name is the part before d |
| Conversion.ErrorMessage | server.js:107-111 | the message sent with the 500 reply: "API key not found in .env file" for a missing key, the out-of-credits text for a credits rejection, the provider's message for another rejection, the upload error's own message ("Upload failed" or the transport error's), "Conversion failed" for an error status; none exactly for the errors the JavaScript runtime raises (a missing upload form or export URL, a failed download) |
| Conversion.ClassifyRejection | server.js:50-54 | a creation reply without `data` gives the out-of-credits error exactly when its message (or "Job creation failed" when there is none) includes "credits"; otherwise it is rejected with that message |
| Conversion.DefaultMessageLacksCredits | server.js:51-52 | the default message "Job creation failed" never counts as an out-of-credits reply |
| Conversion.FindTask | server.js:58 | `tasks.find` by operation returns the first task with that operation, or none when no task has it |
| Conversion.UploadTarget | server.js:58-60 | the upload form is the form of the first task with operation "import/upload": found exactly when that task exists and its result has a form |
| Conversion.FormFieldNames | server.js:59-61 | the multipart fields are the form's parameters in order, followed by "file" |
| Conversion.UploadError | server.js:63-68 | the upload succeeds exactly on a response with status below 400; a transport error is rethrown with its own message, a status of 400 or more fails with "Upload failed" |
| Conversion.PollFromSpec | server.js:71-77 | polling stops at the first terminal status among at most 60 fetches; it ends "finished" or "error" exactly when the last fetched status says so, and otherwise has made all 60 fetches |
| Conversion.PollSkip | server.js:72-77 | statuses that are not terminal do not change where polling ends |
| Conversion.PollFirstTerminal | server.js:71-77 | a first terminal status at attempt k ends polling after k + 1 fetches, with "finished" or with the error; 60 non-terminal statuses leave the loop exhausted with the last of them |
| Conversion.Poll | server.js:71-77 | the poll loop returns the outcome and fetch count of the polling specification |
| Conversion.ExportUrl | server.js:80 | the export URL is the first file URL of the first task with operation "export/url": found exactly when that task exists and its result lists at least one file |
| Conversion.DownloadFrom | server.js:80-81 | without an export URL it fails with no request sent; with one it sends exactly one download of that URL, succeeds exactly when the URL yields a body and returns those bytes, and otherwise fails as a failed download |
| Conversion.PollFrom | server.js:71-77 | polling from fetch i makes at least one more fetch and never more than 60 in all; `PollFromSpec`, `PollSkip` and `PollFirstTerminal` describe where it stops |
| Conversion.ConvertOutcome | server.js:27-81 | a call sends no request exactly when the API key is missing, and otherwise starts with the creation request; the call lemmas below state the outcome of each path (missing key, rejected creation, missing upload form, failed upload, "error", "finished", exhausted budget, success) |
| Conversion.ConvertFile | server.js:27-81 | one `convertFile` call returns the result and request log of the conversion specification |
| Conversion.MissingKeyFailsFirst | server.js:28-30 | without an API key the call fails with "API key not found in .env file" before sending any request |
| Conversion.RejectedCreationFails | server.js:49-54 | a rejected creation fails the call right after the creation request, with the credits classification of its message |
| Conversion.MissingUploadTargetFails | server.js:58-60 | a created job without an upload form fails the call with the missing-form error right after the creation request |
| Conversion.UploadFailureStopsCall | server.js:63-68 | a failed upload fails the call with the upload's own error right after the creation and upload requests; no status is fetched and nothing is downloaded |
| Conversion.PollBudgetRespected | server.js:72-74 | no call makes more than 60 status fetches |
| Conversion.ErrorStopsPolling | server.js:74-76 | a first terminal status "error" at attempt k fails the call with "Conversion failed" after exactly k + 1 fetches, and nothing is downloaded |
| Conversion.FinishedReachesDownload | server.js:71-81 | a first terminal status "finished" at attempt k leads, after exactly k + 1 fetches, to the download step on that same status |
| Conversion.ExhaustedBudgetReachesDownload | server.js:71-80 | 60 non-terminal statuses raise no error: the call goes on to download from the 60th status |
| Conversion.SuccessIsDownload | server.js:27-81 | a successful call had a key, a created job with an upload form and a successful upload, and polling that did not end in "error"; its log is the creation, the upload, the status fetches, and one download of the export URL of the status the loop ended with, whose bytes it returns |
| ConvertRoute.NormalizeFormat | server.js:89 | the format is the request's field lower-cased, or "pdf" when the field is missing or empty; it is never empty and has no upper-case letter |
| ConvertRoute.NormalizeFormatIdempotent | server.js:89 | normalising an already normalised format changes nothing |
| ConvertRoute.EntryName | server.js:93-94 | every entry name ends with "." and the format; `EntryNameShape` and the examples below describe the rest |
| ConvertRoute.EntryNameShape | server.js:93-94 | an entry name ends with "." and the format, and what precedes that, followed by the original extension, is the original file's last segment |
| ConvertRoute.PlainNameEntry | server.js:93-94 | for a plain name whose last dot is at d > 0, the entry is the part before d, then "." and the format |
| ConvertRoute.EntryNameReplacesExtension | server.js:93-94 | `a.txt` converted to PDF is staged as `a.pdf` |
| ConvertRoute.EntryNameReplacesLastExtensionOnly | server.js:93-94 | only the last extension is replaced: `a.tar.gz` to zip is `a.tar.zip` |
| ConvertRoute.SameStemSameEntry | server.js:93-94 | two files that differ only after their last dot get the same entry name |
| ConvertRoute.DotFileEntry | server.js:93-94 | a dot-file such as `.env` keeps its whole name: `.env.` followed by the format |
| ConvertRoute.Batch | server.js:92-96 | an aborted loop over n files failed at a file below n, whose conversion threw exactly the loop's error; the lemmas below describe the rest |
| ConvertRoute.BatchAbortSticks | server.js:92-96 | once a file's conversion throws, later files change nothing: the outcome, error and log stay as they were |
| ConvertRoute.BatchDoneIff | server.js:92-96 | the loop completes exactly when every file's conversion succeeds |
| ConvertRoute.BatchStopsAtFirstFailure | server.js:92-96 | a failed loop stops at its first failing file: that file's error is the loop's, all earlier files succeeded, and no request was sent for a later file |
| ConvertRoute.BatchCallsBelow | server.js:92-96 | a completed prefix of n files sent requests only for those files |
| ConvertRoute.BatchCallsInRequestOrder | server.js:92-96 | files are converted one after another: the file index never decreases along the request log |
| ConvertRoute.BatchWrittenNames | server.js:92-96 | a completed loop stages one entry for each distinct derived name, and nothing else |
| ConvertRoute.BatchLastWriterWins | server.js:93-94 | an entry holds the bytes of the last file that derived that name |
| ConvertRoute.EntryNamesOfRequest | server.js:92-94 | the names derived for a request are the entry names of its files, each ending with "." and the format |
| ConvertRoute.StagedEntriesOfRequest | server.js:92-96 | a completed loop stages exactly the entry names of the request's files, each ending with "." and the format |
| ConvertRoute.OutOfCreditsReply | server.js:92-111 | a first creation reply whose message mentions "credits" stops the loop at the first file after its creation request alone, and the error's message, which the 500 reply carries, is the out-of-credits text |
| ConvertRoute.DistinctNamesOneEntryEach | server.js:92-96 | when the derived names are pairwise distinct, the staging folder holds one entry per uploaded file |
| ConvertRoute.Storage.EnsureDir | server.js:90 | the staging folder exists afterwards with its former entries, and nothing else changes |
| ConvertRoute.Storage.WriteFile | server.js:94 | writing adds or replaces exactly one entry of one folder |
| ConvertRoute.Storage.RemoveUpload | server.js:95 | removing an upload deletes exactly that path |
| ConvertRoute.Storage.RemoveFolder | server.js:105 | removing a staging folder deletes it with all its entries |
| ConvertRoute.RemoveUploads | server.js:109 | the error path removes every upload of the request and touches no folder |
| ConvertRoute.StageFile | server.js:93-95 | one pass of the loop: on success it writes the file's bytes under its entry name and removes its upload; on failure it changes nothing |
| ConvertRoute.StageFiles | server.js:92-96 | the loop sends the requests of the loop specification and reports its first error; on success the folder gains the staged entries and every upload is gone; on failure the folder holds exactly the entries staged before the failing file, and the uploads of those files are gone |
| ConvertRoute.ConvertAndArchive | server.js:90-111 | the reply is the archive of the existing folder contents plus the staged entries, or a 500 with the error of the first failing file and its message; either way all uploads and the staging folder are removed afterwards |
| ConvertRoute.HandleConvert | server.js:84-112 | a request without files gets 400 "No files" with no request sent and nothing touched; otherwise the reply (the archive, or a 500 with the first error and its message), the request log and the storage are those of the loop specification over the files' entry names and the normalised format |

## Left out

- Express, multer, CORS, JSON body parsing and `GET /health` are not part of this model. The handler receives the stored uploads and the `format` field as values.
- Starting the server, `dotenv`, the creation of the uploads and output folders at start-up, and multer's stored file names (`Date.now()` + original name) are not modelled.
- The browser front end (`file-converter-frontend`) is not part of this model.
- HTTP headers of the requests (the bearer token and the content type) and the JSON body of the job creation are not modelled. The log records the creation request with its output format only.
- Logging (`console.log`, `console.error`) is left out because it does not affect any result.
- Conversion.Poll: the two-second wait before each fetch is not modelled; there is no clock.
- Conversion.Provider: a failed network request for job creation or a status fetch, a reply that is not JSON, and a status reply without `data` are not modelled. A failed request rejects with a TypeError, a reply that is not JSON rejects with a SyntaxError from `r.json()`, and a missing `data` makes reading `status.status` throw a TypeError; each ends in a 500 reply with the engine's message.
- Conversion.DownloadFrom: `fetch` does not reject on an HTTP error status, so an error page is returned as the file's bytes; the oracle's `download` returns whatever body the provider sends.
- Conversion.ErrorMessage: the texts of the JavaScript TypeErrors (a missing upload form, export task or export file, a failed download) are produced by the engine and are not modelled.
- Conversion.FormFieldNames: parameter values are sent as strings, the file is streamed from disk, and the multipart encoding is not modelled. Only the field names and their order are.
- JsStrings.ToLowerCase: maps ASCII letters only, so "keeps the length" holds for the model and not for JavaScript, where some characters lower-case to two code units (`"İ"` becomes `"i̇"`).
- JsStrings.LowerChar: maps one character to one character and covers ASCII letters only; full Unicode case mapping is not modelled.
- ConvertRoute.NormalizeFormat: lower-cases ASCII letters only; full Unicode case mapping is not modelled.
- NodePath.BaseName: models `basename(p, ext)` only for `ext == extname(p)`, the only suffix the server passes. For a suffix that matches only part of the last segment of a path with trailing `/` (such as `basename("a/", "ba")`), Node's backward scan returns the path unchanged, and the model does not follow it there.
- ConvertRoute.EntryName: entry names are flat keys of the staging folder. `path.join` normalisation of a name or format containing `/` or `..` (which could place a file outside the folder) is not modelled.
- ConvertRoute.Storage.WriteFile: write failures, and `fs.remove` calls that are not awaited or that fail, are not modelled; every removal happens.
- ConvertRoute.ConvertAndArchive: the ZIP encoding and streaming (archiver, compression level 9) are not modelled. The archive is the staging folder's entries at the moment it is streamed. The folder's removal after the response finishes is treated as happening.
- ConvertRoute.ConvertAndArchive: the `headersSent` guard never fires in the model, because headers are only sent after the loop succeeds.
- ConvertRoute.HandleConvert: the uniqueness of the clock-named staging folder across concurrent requests is not modelled. Each request is handled on its own.
