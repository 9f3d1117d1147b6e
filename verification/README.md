# Username extractor: a Dafny model of its core logic

The application lets a user drop image or video files into a browser page.
It derives a candidate username from each file name by stripping the
extension. It can also ask a remote multimodal model to read a handle off
the image, and it copies either result to the clipboard. This project models
the four pieces of that application with sequential logic and proves
properties of them:

* **Filename and MIME helpers** (`FileUtils`, with the JavaScript string
  built-ins in `JsString`). `cleanFilename` is restated without its regex
  `/\.[^/.]+$/`: only the last dot can start a match, and it matches when at
  least one character follows it and none of those is a slash. The
  restatement is proved equal to a model of the regex engine's leftmost
  search (`RegexReplace`). `getFileType` is a case-sensitive prefix test.
* **File-entry store** (`App`, `PreviewUrls`, `Session`). The list of
  `UploadedFile` records and the updaters of App.tsx are pure functions on a
  `State`. The state also holds two logs: every `URL.revokeObjectURL`
  argument, and every toast. The lifecycle module proves the main invariant
  under unique ids and fresh URLs, for the add, remove and save-name
  updaters and for the clear-all confirm as corrected (`App.AnswerPrompt`).
  Under those, no preview URL is revoked twice, no URL is both live and
  revoked, and the live and revoked URLs together are conserved, so nothing
  leaks. The confirm button as written breaks this when the list changes
  while its prompt is open: see "## Findings".
* **Per-card state machine** (`FileCard`). The state is `copied`, `copiedAi`,
  `isScanning` and `error`. The events are a scan click, the service
  resolving or rejecting, the two copy clicks and the two 2-second timers.
  The card's calls to the outside are returned as effects: the service call,
  `onUpdateAiName` and `onCopy`.
* **AI extraction client** (`GeminiService`). This covers the credential
  check, the encoding step, the single model request, the trim and sentinel
  post-processing of the reply, and the normalisation of every failure into
  one non-empty message. The reader's and the model's outcomes are inputs.
  `Workflow` composes a card's scan with the client and the store.

The two logs are ordinary (non-ghost) fields, so they are plain data that
contracts and lemmas compare. Nothing in the model's operations reads them.

Some behaviours of the code are easy to miss; the model follows the code:

* A late `updateAiName` for a removed id leaves the list unchanged, but it
  still raises the success toast (App.tsx:55-56).
* `removeFile` drops every entry with the id, but revokes only the URL of
  the first one (App.tsx:30-34).
* A reply made only of white space is non-empty, so it is trimmed to `""`
  instead of being mapped to the "Tidak ada hasil" sentinel
  (services/geminiService.ts:46).
* A reader failure is a ProgressEvent without a `message`. It therefore
  surfaces as the generic "Gagal mengekstrak teks menggunakan AI." and not
  as a distinct encoding error (utils/fileUtils.ts:29,
  services/geminiService.ts:50).
* The card tests `aiExtractedName` for truthiness (components/FileCard.tsx:120).
  An AI name of `""` therefore counts as absent: the scan button comes back
  and the AI copy target is hidden.
* An API key that is set but empty is falsy, so it counts as missing
  (services/geminiService.ts:11).

## Model

| member | source | states |
|---|---|---|
| `JsString.StartsWith` | utils/fileUtils.ts:14-15 | `startsWith` holds exactly when the argument is a prefix of the string, compared character by character, case-sensitively |
| `JsString.SkipBlanks` | services/geminiService.ts:46 | the forward scan of `trim` stops at the first code unit that is not white space, having passed only white space |
| `JsString.SkipBlanksBack` | services/geminiService.ts:46 | the backward scan of `trim` stops just after the last code unit that is not white space, never going below where the forward scan stopped |
| `JsString.Trim` | services/geminiService.ts:46 | the trimmed text has no white space at either end, is never longer than the input, and is empty exactly when the input is all white space |
| `JsString.TrimSlice` | services/geminiService.ts:46 | the input is white space, then the trimmed text, then white space (`PaddedAt`): `trim` removes nothing else |
| `JsString.TrimPadded` | services/geminiService.ts:46 | padding a word with white space on both sides and trimming gives the word back |
| `JsString.TrimIdempotent` | services/geminiService.ts:46 | trimming twice gives the same as trimming once |
| `FileUtils.CleanFilename` | utils/fileUtils.ts:1-7 | the result is always a prefix of the name; with a match, the name is cut exactly where the extension match starts; without one, the name is returned unchanged |
| `FileUtils.LastDotDecides` | utils/fileUtils.ts:3 | the pattern can match only at the last dot, and it matches there exactly when something follows the dot and no slash does |
| `FileUtils.CleanFilenameIsRegexReplace` | utils/fileUtils.ts:3 | the last-dot restatement equals a leftmost-first regex search that replaces the first match with "" |
| `FileUtils.FirstMatchFrom` | utils/fileUtils.ts:3 | the regex search from a start position: it reports a position where `/\.[^/.]+$/` matches and no earlier one does, or -1 exactly when there is no match from there on |
| `FileUtils.RegexReplace` | utils/fileUtils.ts:3 | a non-global `replace` by "": the result is a prefix of the name; when shorter, the match starts right after it and nowhere before; when unchanged, there is no match at all |
| `FileUtils.UnchangedCases` | utils/fileUtils.ts:3 | the name is returned unchanged exactly when it has no dot, or ends in a dot, or has a slash after its last dot |
| `FileUtils.RemovedSuffixShape` | utils/fileUtils.ts:3 | when something is removed, it is at least two characters long, starts with a dot, and contains no further dot or slash |
| `FileUtils.StripAppendedExtension` | utils/fileUtils.ts:3-6 | appending `.ext` to any base and cleaning gives the base back, so case, spaces, underscores, dots and slashes before the suffix are preserved |
| `FileUtils.DotfileBecomesEmpty` | utils/fileUtils.ts:3 | a name that is only a dot-extension, such as ".bashrc", becomes the empty string |
| `FileUtils.OneExtensionPerCall` | utils/fileUtils.ts:3 | one call strips only the last of two extensions, and a second call strips the other, so the function is not idempotent |
| `FileUtils.StrippedExamples` | utils/fileUtils.ts:3 | "alice.jpg" becomes "alice" and "a.b.c.png" becomes "a.b.c" |
| `FileUtils.UnchangedExamples` | utils/fileUtils.ts:3 | "bob_2024", "foo." and "a.b/c" come back unchanged |
| `FileUtils.DotfileExample` | utils/fileUtils.ts:3 | ".bashrc" becomes "" |
| `FileUtils.NotIdempotentExample` | utils/fileUtils.ts:3 | cleaning "a.b.c" gives "a.b", and cleaning that again gives "a" |
| `FileUtils.GetFileType` | utils/fileUtils.ts:13-17 | `image` exactly when the MIME type starts with "image/", `video` exactly when it starts with "video/", `unknown` exactly when it starts with neither |
| `FileUtils.GetFileTypeExamples` | utils/fileUtils.ts:13-17 | "image/png" is an image, "video/mp4" a video, "application/pdf" unknown, and "IMAGE/png" unknown because the test is case-sensitive |
| `GeminiService.Rethrown` | services/geminiService.ts:47-50 | the rethrown message is the original message when that one is non-empty, and "Gagal mengekstrak teks menggunakan AI." otherwise |
| `GeminiService.KeyConfigured` | services/geminiService.ts:11 | (definition) the key counts as configured when it is defined and not the empty string, the truthiness test of the source |
| `GeminiService.ReplyText` | services/geminiService.ts:45-46 | an absent or empty reply gives the sentinel "Tidak ada hasil"; any other reply is cut into white space, the result, and white space, the result has no white space at either end, and it is empty exactly when the reply is all white space |
| `GeminiService.ExtractUsernameFromMedia` | services/geminiService.ts:8-52 | without a key it fails with the configuration message before any work; at most one model request is made, only after encoding succeeded, and it carries the encoded data and MIME type; it succeeds exactly when the key, the encoding and the request all succeed; every error message is non-empty |
| `GeminiService.MissingKeyFailsFirst` | services/geminiService.ts:11-12 | an undefined or empty key gives "API Key tidak ditemukan. Fitur AI tidak aktif." and starts no reading and no request |
| `GeminiService.RepliedTextIsTrimmed` | services/geminiService.ts:45-46 | a padded reply comes back without its padding |
| `GeminiService.BlankReplyIsEmptyNotSentinel` | services/geminiService.ts:46 | a reply of only white space gives "" and not the sentinel |
| `GeminiService.MissingReplyIsSentinel` | services/geminiService.ts:46 | an undefined or empty reply text gives "Tidak ada hasil" |
| `GeminiService.FailureMessages` | services/geminiService.ts:47-50 | a rejected request keeps its non-empty message; an empty message gives "Gagal mengekstrak teks menggunakan AI."; a reader failure gives that message too, whatever the model would have replied, after the read alone |
| `App.NewEntry` | App.tsx:13-20 | each new record has the cleaned file name, the file's kind, status `idle`, no AI name, and the id and URL supplied for it |
| `App.NewEntries` | App.tsx:13-20 | one record per file, in input order |
| `App.AddFiles` | App.tsx:12-26 | the new batch goes in front of the old list in input order; nothing is revoked; an empty batch changes nothing and raises no toast; a non-empty batch raises exactly one toast carrying its count |
| `App.FindById` | App.tsx:30 | `find` returns nothing exactly when no entry has the id, and otherwise returns the first entry that has it |
| `App.WithoutId` | App.tsx:34 | `filter` keeps exactly the entries whose id differs, and returns the list unchanged when the id is absent |
| `App.RemoveFile` | App.tsx:28-36 | every entry with the id leaves and every other entry stays; only the first match's URL is revoked; an absent id changes nothing; no toast is raised |
| `App.SetAiName` | App.tsx:55 | `map` keeps the length; entries with the id get the name, and all other entries are unchanged |
| `App.UpdateAiName` | App.tsx:54-64 | only the AI names of matching entries change, and ids, URLs, order and length are kept; an absent id leaves the list unchanged; the success toast is raised regardless |
| `App.HandleClearAll` | App.tsx:66-69 | clearing an empty list does nothing and opens no prompt; otherwise a prompt opens holding the list as it is now, and the list is untouched |
| `App.AnswerPromptAsWritten` | App.tsx:76-92 | cancelling changes nothing; confirming revokes the URLs of the list captured when the prompt opened, empties the list and raises one toast |
| `App.AnswerPrompt` | App.tsx:76-82 | the corrected confirm: it revokes the URLs of the live list it empties; cancelling changes nothing |
| `App.NewEntriesAppend` | App.tsx:13 | building records for two concatenated batches equals concatenating the records built for each |
| `App.AddBatchesCompose` | App.tsx:22 | adding batch x and then batch y gives the same list as adding y followed by x in one batch |
| `App.AddOrderExample` | App.tsx:22 | adding [a, b] and then [c] gives the order c, a, b |
| `App.WithoutIdAppend` | App.tsx:34 | filtering distributes over concatenation, so the remaining entries keep their relative order |
| `App.RemoveKeepsOrder` | App.tsx:34 | removing an entry with a unique id leaves the entries before it followed by the entries after it |
| `App.RemoveTwiceIsNoop` | App.tsx:28-36 | removing the same id a second time changes nothing |
| `App.LateUpdateAfterRemove` | App.tsx:55-56 | an AI name that arrives after its entry was removed leaves the list and the revocations unchanged, but still raises the toast |
| `App.StatusStaysIdle` | App.tsx:19 | every entry is `idle` when created, and no updater changes its status |
| `App.AddKeepsIdle` | App.tsx:13-22 | new entries are created `idle` and the old entries keep their status |
| `App.RemoveKeepsIdle` | App.tsx:34 | filtering keeps only existing entries, so no status changes |
| `PreviewUrls.WithoutUniqueId` | App.tsx:30-34 | with unique ids, removal takes exactly the found entry's URL out of the live URLs |
| `PreviewUrls.AddKeepsWellformed` | App.tsx:12-22 | with fresh ids and URLs, adding keeps ids unique and URLs unrevoked, and adds exactly the batch's URLs |
| `PreviewUrls.AddPrepends` | App.tsx:22 | after an add, the ids and the URLs are the batch's followed by the old ones |
| `PreviewUrls.NewEntriesKeys` | App.tsx:13-20 | the entries built for a batch carry the batch's ids and URLs, in order |
| `PreviewUrls.RemoveConserves` | App.tsx:30-34 | with unique ids, removal moves the removed URL from the live list to the revocation log: the multiset of all URLs is unchanged |
| `PreviewUrls.RemoveKeepsWellformed` | App.tsx:28-36 | with unique ids, removal revokes no URL twice, and a URL it revokes is no longer live |
| `PreviewUrls.Shrunk` | App.tsx:28-36 | a store whose URLs are a rearrangement of a well-formed store's and whose ids are among its ids is well formed, and no revoked URL is live |
| `PreviewUrls.UpdateKeepsWellformed` | App.tsx:55 | saving an AI name leaves all ids and URLs as they were |
| `PreviewUrls.PromptKeepsWellformed` | App.tsx:66-69 | opening the clear prompt leaves the store well formed |
| `PreviewUrls.ConfirmKeepsWellformed` | App.tsx:78-79 | the corrected confirm revokes every live URL exactly once and conserves the URL multiset |
| `PreviewUrls.AsWrittenAgreesWhenUnchanged` | App.tsx:76-92 | when the list has not changed since the prompt opened, the confirm as written and the corrected confirm do the same |
| `PreviewUrls.StaleConfirmRevokesTwice` | App.tsx:78-79 | a concrete run (add one file, open the prompt, remove the file, confirm) revokes its URL twice |
| `PreviewUrls.SingleUpload` | App.tsx:12-22 | one upload into the empty store gives a well-formed store holding just that entry |
| `PreviewUrls.StaleConfirmRevokesRemovedTwice` | App.tsx:78-79 | in every well-formed store, removing any card while the prompt is open and then confirming revokes that card's URL twice |
| `PreviewUrls.StaleConfirmLeaks` | App.tsx:78-79 | files added while the prompt is open are cleared by the confirm, but their URLs are never revoked |
| `PreviewUrls.DuplicateIdLeaks` | App.tsx:30-34 | if two entries share an id, removal drops both but revokes only the first URL |
| `Session.StepKeepsWellformed` | App.tsx:12-82 | every store action, with fresh ids and URLs for added files, keeps the store well formed and loses no URL |
| `Session.AddStepKeepsWellformed` | App.tsx:12-22 | a fresh batch keeps the store well formed and keeps every URL already seen |
| `Session.ClearStepKeepsWellformed` | App.tsx:66-82 | the clear-all prompt, cancelled or confirmed with the corrected button, keeps the store well formed and loses no URL |
| `Session.RunKeepsWellformed` | App.tsx:12-82 | every store reached by a sequence of such actions from a well-formed store is well formed |
| `Session.Step` | App.tsx:12-82 | one user action: only a removal and a confirmed clear add to the revocation log, a confirmed clear leaves the list empty, and saving a name keeps every id |
| `Session.EmptyIsWellformed` | App.tsx:10 | the initial empty store is well formed |
| `FileCard.HandleScan` | components/FileCard.tsx:30-41 | a click while scanning changes nothing; the service is called exactly when no scan is running and the file is at most 10 MiB; a larger file sets "File terlalu besar (>10MB)" without scanning; an accepted scan sets scanning and clears the error; the copy flags are untouched |
| `FileCard.OnResolved` | components/FileCard.tsx:42-50 | a resolution calls `onUpdateAiName` exactly once with the card's id and the name, clears scanning, and keeps the error |
| `FileCard.ErrorText` | components/FileCard.tsx:47 | the shown message is the error's own message when that one is non-empty, and "Gagal memindai" otherwise |
| `FileCard.OnRejected` | components/FileCard.tsx:45-50 | a rejection shows the error's message or "Gagal memindai", clears scanning, and calls nothing |
| `FileCard.HandleCopy` | components/FileCard.tsx:19-28 | a copy hands the text to `onCopy` and raises only its own flag |
| `FileCard.ShowsAiName` | components/FileCard.tsx:120 | (definition) the AI name counts as shown when it is present and not the empty string |
| `FileCard.Offered` | components/FileCard.tsx:120-141 | (definition) the scan button is offered only while no AI name is shown, the AI-name copy target only while one is, and a settlement only while a scan is in flight |
| `FileCard.Handle` | components/FileCard.tsx:19-51 | every event makes at most one call outwards; a filename click copies the cleaned filename, an AI-name click copies a non-empty AI name; a timer lowers only its own flag and touches neither the scan nor the error |
| `FileCard.HandleKeepsConsistent` | components/FileCard.tsx:30-51 | every event keeps the error cleared while a scan is in flight, and never produces an empty error |
| `FileCard.ServiceCalledOnlyOnAcceptedScan` | components/FileCard.tsx:32-43 | the service is called exactly by a scan click with no scan running and a small enough file; a click while scanning does nothing |
| `FileCard.UpdateOnlyOnResolve` | components/FileCard.tsx:43-44 | `onUpdateAiName` is called exactly on resolution, once, with the card's id and the resolved name |
| `FileCard.CopyFlagsIndependent` | components/FileCard.tsx:19-28 | each copy flag is raised only by its own copy and lowered only by its own timer; each copy passes its text on |
| `FileCard.SizeGuardBoundary` | components/FileCard.tsx:35-38 | the ceiling is 10485760 bytes: a file of exactly that size is scanned, and one byte more is refused |
| `FileCard.ScanSettles` | components/FileCard.tsx:40-50 | after an accepted scan settles either way, scanning is false and the copy flags are as before; after success the error is cleared |
| `Workflow.ApplyEffects` | App.tsx:158-161 | feeding the card's effects to the store never revokes a URL and keeps the list's length |
| `Workflow.Scan` | components/FileCard.tsx:30-50 | a whole scan keeps the list's length, ids and revocations; it makes requests only when the click was accepted (no scan running, size within 10 MiB); and a card that was idle ends idle |
| `Workflow.ScanSettlesCleanly` | components/FileCard.tsx:42-50 | a scan through the real client never leaves the card scanning or showing an empty error; a rejection shows the client's own message, so the card's fallback is never used |
| `Workflow.OversizeNeverCallsService` | components/FileCard.tsx:35-38 | an oversized file fails on the spot: no request is made and the store is unchanged |
| `Workflow.MissingKeyLeavesStore` | services/geminiService.ts:11-12 | without a key, a scan shows the configuration message, makes no request and leaves the store unchanged |
| `Workflow.SuccessRecordsName` | components/FileCard.tsx:43-44 | a successful scan stores the trimmed reply on the card's entry, leaves the error cleared, and makes exactly one read and one model request |
| `Workflow.ScanAfterRemovalIsHarmless` | App.tsx:55 | a scan that settles after its entry was removed leaves the list unchanged |
| `Workflow.ScanButtonAfterSuccess` | components/FileCard.tsx:120-140 | after a successful scan the entry holds the name, and the scan button is offered again exactly when that name is "" |

## Findings

| source | as written | input that shows it | evidently intended | confidence | as-written member | corrected member |
|---|---|---|---|---|---|---|
| App.tsx:76-79 | the confirm button revokes the URLs of `files` as captured when the prompt opened, then empties the live list | open the prompt on a list holding file "a" (URL "blob:1"), remove "a" from its card, then confirm: "blob:1" is revoked twice. Files added while the prompt is open are cleared without their URLs being revoked | revoke the URLs of the list being emptied, so that each URL is released exactly once | medium; not executed | App.AnswerPromptAsWritten, PreviewUrls.StaleConfirmRevokesTwice | App.AnswerPrompt, PreviewUrls.ConfirmKeepsWellformed |

`Session` models the clear-all prompt with the corrected `App.AnswerPrompt`.

## Left out

- components/Dropzone.tsx: drag-and-drop and file-picker events and the drag-over highlight. It only forwards non-empty file lists to `handleFilesAdded`, whose empty-batch case is modelled anyway.
- JSX rendering, Tailwind classes and the look of react-hot-toast. Toasts are a log of `Notice` values. The prompt's 5-second auto-dismissal is the same as cancelling.
- `navigator.clipboard.writeText` and the "Disalin ke clipboard!" toast (App.tsx:38-52): asynchronous browser calls. The card's `onCopy` call is a `CopyText` effect.
- `URL.createObjectURL` / `URL.revokeObjectURL`: URLs are opaque strings. New URLs arrive with each `Upload`, and revocations are appended to a log.
- `generateId` (utils/fileUtils.ts:9-11): it is random. Ids arrive with each `Upload`. Uniqueness is a precondition (`PreviewUrls.Fresh`), not something the generator guarantees.
- `fileToBase64` (utils/fileUtils.ts:19-31): FileReader I/O. Its outcome is an `Encoding` input. The case where the data URL has no comma, and `split(',')[1]` is undefined, is not modelled.
- The Gemini SDK call, the model name and the prompt text (services/geminiService.ts:15, 19-43). The reply is a `Reply` input that does not depend on the request's contents. `console.error` is not modelled.
- `setTimeout` timing and React scheduling. Timer expiry and promise settlement are explicit events. The scan handler sees the state as of the last event, because React re-renders between two discrete clicks.
- `FileCard.OnResolved`, `FileCard.OnRejected`: both require a scan in flight, because the source only reaches these branches after an accepted click has started the `await`.
- `Workflow.Scan`: it requires that no AI name is shown, because the scan button is rendered only then. A card's completion runs against the store as it is at settlement time. What else happened to the store in between is the caller's choice.
- JavaScript strings are sequences of UTF-16 code units. Here each `char` stands for one unit. `trim`'s white-space set is the one in ECMA-262 (WhiteSpace and LineTerminator).
