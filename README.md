# Nyaay AI — a verified model of the application logic

Nyaay AI is a Next.js web application that drafts Indian legal documents with a language model,
collects compliance documents from companies, and checks uploaded documents for compliance. Most
of the repository is presentation. This project models the parts that make decisions, one Dafny
module per source file:

- **DraftRoute** (`draft.dfy`) is the document-drafting route. It covers:
  - the clean-up of the model's output: a markdown fence is stripped at either end, then the text is trimmed;
  - the prompt, with its block of details;
  - a response cache with a time-to-live in front of the drafting agent, as a class over a map with an explicit clock;
  - the cache-first handler.
- **Validation** (`validation.dfy`) holds the rule table for each compliance category and `validateCompliance`. `validateCompliance` returns errors for missing fields and for files that break the category's rule, plus a warning for an effective date in the past.
- **UploadRoute** (`upload.dfy`) is the upload route. It checks the required fields, makes a directory per company, then checks and saves each file in turn under a timestamped name. The file system is a `Disk` class.
- **AnalyzeRoute** (`analyze.dfy`) is the compliance-analysis route. It dispatches on the MIME type: DOCX goes to an extractor, PDF and plain text are decoded. Empty text is refused. The route then hands the text to the analyser.
- **Marketplace** (`marketplace.dfy`) holds:
  - the template catalogue;
  - the filter-then-sort listing and the button labels;
  - the click handler, which updates the page's set of loading templates.
- **FileUpload** (`file_upload.dfy`) is the drag-and-drop uploader. It keeps a list of accepted files bounded to `maxFiles`, each with an id, plus the rejected files. It reports every change of the list to its parent.
- **ComplianceHook** (`compliance_hook.dfy`) is the compliance-status hook. It keeps four checklist items and runs a check in two phases. The items are mirrored in browser storage.
- **Generator** (`generator.dfy`) is the generator page. It covers:
  - the form definition for each document type;
  - the reset of the form when the type changes;
  - the edit of one field;
  - the request body sent to the drafting route, and the export request.
- **Pricing** (`pricing.dfy`) holds the three plans and the price each card shows in monthly and annual mode.
- **Pipeline** (`pipeline.dfy`) connects two of the above: what the generator sends is what the drafting route puts in its prompt.
- **Support modules:**
  - `Outcomes` defines Option and Result.
  - `Js` covers JavaScript string behaviour: white space, `trim`, ASCII case mapping, `includes`, `split`, `join`, and decimal rendering of numbers.
  - `JsObject` models an object with string values as a list of entries in insertion order, with property assignment and spread. JavaScript lists integer-like keys first; that rule is not modelled.

Time, randomness, the language-model agents, the DOCX extractor, UTF-8 decoding, `JSON.stringify`/`JSON.parse`, `encodeURIComponent` and `fetch` are function or value parameters of the operations that use them.

The upload route uses its own fixed MIME list and 10 MiB ceiling, not the category rules of `validation.js`. The model follows the code here. A prose description of the system could suggest that uploads are checked against the category rules.

## Model

| member | source | states |
|---|---|---|
| DraftRoute.OpeningFence | src/app/api/generate-document/route.ts:10 | the first alternative `^`{3,}(html)?\s*` matches, with a non-empty match, exactly when the text starts with three backticks |
| DraftRoute.ClosingFenceLeftmost | src/app/api/generate-document/route.ts:10 | the second alternative `\s*`{3,}$` is removed from the leftmost index where the rest of the text is white space followed by three or more backticks up to the end; no earlier index matches |
| DraftRoute.StripFences | src/app/api/generate-document/route.ts:10 | the global replace leaves one contiguous piece of the input, starting right after the opening fence |
| DraftRoute.CleanAiOutput | src/app/api/generate-document/route.ts:8-11 | the cleaned output never has leading or trailing white space, and it occurs as a substring of the input, so the interior is never rewritten |
| DraftRoute.NoFenceIsTrim | src/app/api/generate-document/route.ts:8-11 | text that neither starts nor ends with three backticks has no fence, and comes back as exactly its trim |
| DraftRoute.IndentedFenceKept | src/app/api/generate-document/route.ts:10 | after leading white space the opening fence is not stripped, because the pattern is anchored at index 0 before the trim; only a closing fence can go |
| DraftRoute.FenceBeforeTrailingSpaceKept | src/app/api/generate-document/route.ts:10 | a closing fence followed by white space is not at the end of the text and is kept; the result is the plain trim |
| DraftRoute.CleanTaggedBlock | src/app/api/generate-document/route.ts:8-11 | a block fenced by a "```html" line and a final "```" line comes back as exactly its trimmed content |
| DraftRoute.CleanFencedParagraph | src/app/api/generate-document/route.ts:8-11 | "```html\n<p>x</p>\n```" comes back as exactly "<p>x</p>" |
| DraftRoute.DetailLines | src/app/api/generate-document/route.ts:24 | one `- key: value` line per detail entry, in entry order |
| DraftRoute.DetailsStringLines | src/app/api/generate-document/route.ts:22-24 | when no key or value holds a newline, splitting the details block at newlines gives back exactly one line per body entry other than the type and the language, in body order |
| DraftRoute.UserPromptSplices | src/app/api/generate-document/route.ts:26-39 | the prompt contains the quoted document type followed by the language it is to be written in, the details block, and the instruction that the whole document be in that language |
| DraftRoute.DraftCache.constructor | src/app/api/generate-document/route.ts:5 | the cache starts empty, holding at most 50 entries, each for five minutes |
| DraftRoute.DraftCache.Lookup | src/app/api/generate-document/route.ts:5 | a key reads as present exactly when it was stored no more than the time-to-live ago |
| DraftRoute.DraftCache.Has | src/app/api/generate-document/route.ts:18 | `has` is true exactly for a key whose entry has not expired |
| DraftRoute.DraftCache.Get | src/app/api/generate-document/route.ts:19 | `get` returns the fresh entry's value, or nothing; an expired entry is dropped; the bound is kept |
| DraftRoute.DraftCache.Set | src/app/api/generate-document/route.ts:44 | the key now maps to the value stored at `now`; every other entry kept is unchanged; a cache that is not full, or that already has the key, loses nothing; the bound of 50 is kept |
| DraftRoute.Post | src/app/api/generate-document/route.ts:13-55 | a bad body gives 500 with its message and leaves the cache alone; a hit returns the stored value, does not call the agent and leaves the cache unchanged; a miss calls the agent with the prompt, then either stores and returns the cleaned output, with every other entry kept unchanged and none lost unless the cache was full, or answers 500 with the agent's message and stores nothing |
| Validation.GetComplianceRequirements | src/app/lib/validation.js:84-86 | the category's rule when the table has it, otherwise none (`null`) |
| Validation.RuleTableShape | src/app/lib/validation.js:1-32 | exactly the six categories have a rule; every rule allows PDF and DOCX and has a positive ceiling |
| Validation.FileExtension | src/app/lib/validation.js:66 | a name without a dot is its own extension, upper-cased |
| Validation.ExtensionAfterLastDot | src/app/lib/validation.js:66 | the extension is the upper-cased text after the last dot |
| Validation.AnyChecks | src/app/lib/validation.js:65-77 | a filter keeps some file exactly when some file has a disallowed type (or is oversized) |
| Validation.ValidateCompliance | src/app/lib/validation.js:34-82 | the errors are the field errors, then the file errors for the submitted category's rule; the only warning is the past-date warning; `isValid` holds exactly when there are no errors |
| Validation.ValidateAgainst | src/app/lib/validation.js:34-82 | the same as ValidateCompliance, for any rule table |
| Validation.CheckFields | src/app/lib/validation.js:38-48 | the pushes for a blank company name, a missing type and a missing date, in that order |
| Validation.CheckFiles | src/app/lib/validation.js:60-79 | without files it pushes the missing-document error; with files and a rule, the type error and then the size error, each when some file fails its filter |
| Validation.PushIfAny | src/app/lib/validation.js:65-77 | `filter(...).length > 0` followed by a push adds the error exactly when some file passes the test |
| Validation.ErrorsSplit | src/app/lib/validation.js:34-82 | an error is reported exactly when it is a field error or a file error |
| Validation.FieldErrorsShape | src/app/lib/validation.js:38-48 | each required field has its own error, raised exactly when the field is missing (a blank name counts as missing); none is raised twice |
| Validation.FileErrorsShape | src/app/lib/validation.js:60-79 | the file checks raise only file errors, none twice |
| Validation.RequiredFieldErrors | src/app/lib/validation.js:38-48 | in the full result, each required-field error appears exactly when its field is missing or, for the name, blank |
| Validation.TrimEmptyIffAllSpace | src/app/lib/validation.js:38 | `!name.trim()` holds exactly when the name is all white space |
| Validation.NoFilesSkipsFileChecks | src/app/lib/validation.js:60-62 | with no files the missing-document error is raised, and neither a type nor a size error |
| Validation.FileCheckErrors | src/app/lib/validation.js:60-79 | with files and a rule, the type error appears exactly when some file has a disallowed extension, the size error exactly when some file is oversized, and the missing-document error never |
| Validation.RuleFileErrors | src/app/lib/validation.js:63-77 | the same, stated for the file checks alone |
| Validation.UnknownCategoryNoFileChecks | src/app/lib/validation.js:63-64 | a category without a rule gets no type or size error |
| Validation.ExactCeilingPasses | src/app/lib/validation.js:74 | a file of exactly `maxSize` × 1024 × 1024 bytes is not oversized |
| Validation.ErrorsDistinct | src/app/lib/validation.js:65-77 | no error is reported twice, however many files break the rule |
| Validation.PastDateOnlyWarns | src/app/lib/validation.js:50-58 | the warnings are either empty or exactly the past-date warning, and the warning appears exactly when a given date parses to a time before today's midnight |
| UploadRoute.UploadDir | src/app/api/upload/route.js:31 | a company name without white space is used as it is, under `uploads/` (each run of white space becoming one `_` is UploadDirRun) |
| UploadRoute.UploadDirNoSpace | src/app/api/upload/route.js:31 | the company part of the directory never contains white space |
| UploadRoute.UploadDirRun | src/app/api/upload/route.js:31 | each maximal run of white space in the company name becomes exactly one `_`, and the text before the run is kept |
| Js.RunBecomesOne | src/app/api/upload/route.js:31 | `replace(/\s+/g, rep)` turns a whole run of white space, of any length, into one copy of `rep` and leaves the text before it unchanged |
| UploadRoute.LastDot | src/app/api/upload/route.js:66 | the index of a dot with no dot after it, or none exactly when the name has no dot |
| UploadRoute.ExtName | src/app/api/upload/route.js:66 | the extension is a suffix of the name that, when non-empty, starts with its only dot |
| UploadRoute.SavedNameOfStemAndExtension | src/app/api/upload/route.js:63-68 | a name `stem.ext` is saved as `stem_<timestamp>.ext` |
| UploadRoute.SavedNameWithoutDot | src/app/api/upload/route.js:63-68 | a name without a dot is saved as `name_<timestamp>` |
| UploadRoute.RejectionMessage | src/app/api/upload/route.js:48-61 | the type check runs first: a disallowed type names the file as invalid, otherwise the file is reported too large |
| UploadRoute.FirstRejected | src/app/api/upload/route.js:36-61 | a reported rejection is a submitted file that fails a check |
| UploadRoute.SavedUploads | src/app/api/upload/route.js:36-81 | every saved file is a submitted file that passes both checks |
| UploadRoute.Records | src/app/api/upload/route.js:63-80 | one record per saved file |
| UploadRoute.RecordsInOrder | src/app/api/upload/route.js:63-80 | the k-th record is the k-th saved file, named with the k-th clock reading |
| UploadRoute.Summaries | src/app/api/upload/route.js:103-107 | the response lists each saved file's name, size and type, in order |
| UploadRoute.Disk.Mkdir | src/app/api/upload/route.js:32 | the directory exists afterwards; no file changes |
| UploadRoute.Disk.WriteFile | src/app/api/upload/route.js:72 | the path holds the content afterwards; nothing else changes |
| UploadRoute.Post | src/app/api/upload/route.js:14-109 | a missing field gives a 400 and touches no disk; an empty file list gives a 400; otherwise the directory is made and every file before the first rejected one is written; the answer is the first rejection's 400, or the success record with the saved files' count and summaries |
| UploadRoute.SaveFile | src/app/api/upload/route.js:63-80 | one accepted file is named with the next clock reading, written under the directory, and recorded after the files saved before it; the directories are untouched |
| UploadRoute.SaveFiles | src/app/api/upload/route.js:36-82 | the loop returns the first rejection's message or nothing, the records of exactly the files it saved, and a store with those files written, in order |
| UploadRoute.RejectionKeepsEarlierFiles | src/app/api/upload/route.js:36-82 | the upload is not all-or-nothing: when a file is rejected after accepted ones, the request fails, yet every earlier file has been saved |
| UploadRoute.FileEntries | src/app/api/upload/route.js:37 | the entries that are files, and only those |
| UploadRoute.AllAcceptedAllSaved | src/app/api/upload/route.js:36-82 | when nothing is rejected, every file entry is saved, in input order, and string entries are skipped |
| UploadRoute.ExactLimitAccepted | src/app/api/upload/route.js:56 | a file of exactly 10 MiB with an allowed type passes |
| AnalyzeRoute.Extract | src/app/api/analyze-compliance/route.ts:19-34 | DOCX goes to the extractor and PDF and text are decoded as UTF-8; the type is unsupported exactly when it is none of the three |
| AnalyzeRoute.Post | src/app/api/analyze-compliance/route.ts:7-52 | every failure is a 400 or a 500, and a failure is a 400 exactly when it carries no details |
| AnalyzeRoute.MissingFileRejected | src/app/api/analyze-compliance/route.ts:10-14 | no file field, or an empty one, gives 400 "No file provided." |
| AnalyzeRoute.UnsupportedNeverAnalysed | src/app/api/analyze-compliance/route.ts:32-34 | any other type gives 400 "Unsupported file type." whatever the extractor and the analyser would do |
| AnalyzeRoute.DocxUsesExtractor | src/app/api/analyze-compliance/route.ts:22-25 | for DOCX the decoder has no say, and an extractor failure is a 500 carrying its message |
| AnalyzeRoute.PdfAndTextDecoded | src/app/api/analyze-compliance/route.ts:26-31 | PDF and plain text are decoded as they are, and the DOCX extractor has no say |
| AnalyzeRoute.EmptyTextNotAnalysed | src/app/api/analyze-compliance/route.ts:36-38 | empty text gives 500 with the could-not-extract details, whatever the analyser would answer |
| AnalyzeRoute.AnalysisIffAnalysed | src/app/api/analyze-compliance/route.ts:36-43 | a report is returned exactly when the file gave non-empty text and the analyser produced that report from it |
| AnalyzeRoute.AnalyserFailureReported | src/app/api/analyze-compliance/route.ts:41-50 | an analyser failure gives 500 with the analyser's message in the details |
| Marketplace.CatalogueIds | src/app/marketplace/page.tsx:31-47 | fifteen templates, with ids 1 to 15 in order |
| Marketplace.CatalogueIdsDistinct | src/app/marketplace/page.tsx:31-47 | an id names one template |
| Marketplace.SortTemplates | src/app/marketplace/page.tsx:87-91 | sorting only reorders: it gives a permutation of its input |
| Marketplace.SortSorted | src/app/marketplace/page.tsx:87-91 | the sorted list has its sort key non-increasing |
| Marketplace.ListingIsSortedSelection | src/app/marketplace/page.tsx:79-91 | a template is listed exactly when it matches the search and all three drop-downs; the listing is a permutation of the filtered catalogue with no duplicates, sorted with the largest key first |
| Marketplace.NewestStrictlyDecreasing | src/app/marketplace/page.tsx:87-91 | sorted by newest, ids strictly decrease |
| Marketplace.NoFilterListsEverything | src/app/marketplace/page.tsx:79-86 | an empty search with `'all'` everywhere lists the whole catalogue |
| Marketplace.SearchIgnoresCase | src/app/marketplace/page.tsx:84-85 | an upper-cased search term finds the same templates |
| Marketplace.ButtonTextInjective | src/app/marketplace/page.tsx:108-113 | the four labels differ, so the label tells both the price and the loading state |
| Marketplace.UrlCarriesId | src/app/marketplace/page.tsx:57-61 | the generator address carries the template's id |
| Marketplace.UrlPremiumFlag | src/app/marketplace/page.tsx:54-61 | the address ends in `premium=true` exactly for a Premium template |
| Marketplace.MarketplacePage.constructor | src/app/marketplace/page.tsx:29 | nothing is loading and nothing has been navigated to |
| Marketplace.MarketplacePage.Label | src/app/marketplace/page.tsx:108-113 | a loading template shows its loading label, the others their idle label |
| Marketplace.MarketplacePage.HandleTemplateClick | src/app/marketplace/page.tsx:49-76 | a click adds the id to the loading set and pushes the generator address; when navigation throws, only that id is removed and nothing is pushed |
| Marketplace.ClickTouchesOneId | src/app/marketplace/page.tsx:49-76 | a click leaves every other template's loading state as it was |
| FileUpload.FileIdInjective | src/app/components/FileUpload.jsx:25 | the id determines the name, the size and the last-modified time |
| FileUpload.MaxSizeBytes | src/app/components/FileUpload.jsx:44 | the drop zone's limit is the megabyte figure times 1024 × 1024, exactly |
| FileUpload.DefaultLimitMatchesServer | src/app/components/FileUpload.jsx:8-44 | the default of 10 MB is the upload route's 10 MiB ceiling |
| FileUpload.NewEntries | src/app/components/FileUpload.jsx:23-27 | one entry per accepted file, in drop order, each with its file's id and no errors |
| FileUpload.ListAfterDrop | src/app/components/FileUpload.jsx:30 | the list is the previous entries, then the new ones, cut to `maxFiles`; entries already listed are never displaced |
| FileUpload.DropKeepsWellFormed | src/app/components/FileUpload.jsx:23-30 | after a drop every entry still carries its own file's id |
| FileUpload.ListAfterRemove | src/app/components/FileUpload.jsx:38-40 | the entries with that id go and every other entry stays |
| FileUpload.RemoveKeepsOrder | src/app/components/FileUpload.jsx:38-40 | removal works entry by entry: an entry stays exactly when its id differs, and a concatenation loses its entries part by part, so the rest keep their order |
| FileUpload.RemoveKeepsCount | src/app/components/FileUpload.jsx:38-40 | an entry with another id stays as many times as it was listed; one with that id is gone |
| Js.FilterAppend | src/app/components/FileUpload.jsx:39 | `filter` of a concatenation is the concatenation of the filters, so the kept elements stay in their order |
| Js.FilterCount | src/app/components/FileUpload.jsx:39 | `filter` keeps every occurrence of an accepted element and none of a refused one |
| FileUpload.RemoveByIdRemovesSameFile | src/app/components/FileUpload.jsx:38-40 | removing by id takes out exactly the entries for a file with the same name, size and last-modified time |
| FileUpload.FullListIgnoresDrop | src/app/components/FileUpload.jsx:30 | a full list is not changed by a drop: the new files are the ones cut off |
| FileUpload.Uploader.constructor | src/app/components/FileUpload.jsx:8-19 | both lists start empty, and the parent is told the empty list once, if it listens |
| FileUpload.Uploader.Report | src/app/components/FileUpload.jsx:14-19 | the parent is told the current list; the lists are untouched |
| FileUpload.Uploader.OnDrop | src/app/components/FileUpload.jsx:21-36 | the list becomes the bounded append, existing entries stay in front, rejections only accumulate, and the parent is told the new list |
| FileUpload.Uploader.RemoveFile | src/app/components/FileUpload.jsx:38-40 | the entries with that id go, the rejections stay, and the parent is told the new list |
| ComplianceHook.InitialItemsUnknown | src/app/hooks/compilanceuse.ts:7-32 | four items with ids '1' to '4', all unknown and never checked |
| ComplianceHook.MarkChecking | src/app/hooks/compilanceuse.ts:63-70 | the items with the id become `checking`; every other item is identical; length and order are kept |
| ComplianceHook.ResultStatus | src/app/hooks/compilanceuse.ts:82 | compliant exactly for a positive outcome, non-compliant otherwise |
| ComplianceHook.MarkResult | src/app/hooks/compilanceuse.ts:77-87 | the items with the id get the outcome and the check time, with every other field unchanged; every other item is identical |
| ComplianceHook.UnknownIdUnchanged | src/app/hooks/compilanceuse.ts:63-88 | an id that names no item leaves the list unchanged in both phases |
| ComplianceHook.PhasesKeepIds | src/app/hooks/compilanceuse.ts:63-88 | both phases keep every id in its place |
| ComplianceHook.CheckRecordsOutcome | src/app/hooks/compilanceuse.ts:73-88 | after both phases the item holds the drawn outcome (`Math.random() > 0.3`) and the check time, with its title and description as before |
| ComplianceHook.LoadedItems | src/app/hooks/compilanceuse.ts:38-54 | stored text that is non-empty and parses to an array replaces the items; anything else leaves them as they were |
| ComplianceHook.BadStorageIgnored | src/app/hooks/compilanceuse.ts:43-51 | text that fails to parse, or parses to something other than an array, leaves the items |
| ComplianceHook.ReloadRestores | src/app/hooks/compilanceuse.ts:41-61 | when parsing undoes serialising on lists of unchecked items, remounting on a saved list of unchecked items brings it back |
| ComplianceHook.CheckingKeepsUnchecked | src/app/hooks/compilanceuse.ts:7-70 | the initial items are unchecked, and the first phase of a check keeps a list unchecked |
| ComplianceHook.Hook.constructor | src/app/hooks/compilanceuse.ts:35 | the hook starts from the initial items |
| ComplianceHook.Hook.Save | src/app/hooks/compilanceuse.ts:57-61 | storage holds the serialised items; the items are unchanged |
| ComplianceHook.Hook.Mount | src/app/hooks/compilanceuse.ts:38-61 | the items are loaded from storage and written back |
| ComplianceHook.Hook.CheckCompliance | src/app/hooks/compilanceuse.ts:63-70 | the first phase is applied and saved |
| ComplianceHook.Hook.FinishCheck | src/app/hooks/compilanceuse.ts:73-88 | the timer's phase records the drawn outcome and the time, and saves them |
| Generator.NameInjective | src/app/generator/page.tsx:7-71 | the six keys of `documentFields` name six different document types |
| Generator.Labels | src/app/generator/page.tsx:91-94 | the labels of the fields, in field order |
| Generator.BlankFormDistinct | src/app/generator/page.tsx:91-94 | the reset form never has two entries for one key |
| Generator.BlankFormGet | src/app/generator/page.tsx:91-94 | the reset form maps exactly the labels, each to "" |
| Generator.BlankFormKeys | src/app/generator/page.tsx:91-94 | with distinct labels, the reset form lists them in field order |
| Generator.ErrorText | src/app/generator/page.tsx:128 | `details \|\| fallback`: a non-empty `details` is shown, otherwise the fallback |
| Generator.RequestBodyFields | src/app/generator/page.tsx:118-123 | the body has today's date under "Effective Date" whatever was typed; the type and language unless the form overrides them; every other form entry as typed; and nothing else |
| Generator.GeneratorPage.constructor | src/app/generator/page.tsx:76-83 | NDA, English, an empty form object, and no output, error or pending request |
| Generator.GeneratorPage.HandleDocumentTypeChange | src/app/generator/page.tsx:87-100 | the form becomes the new type's labels, each mapped to ""; the draft, the address and the error are cleared; the rest is kept |
| Generator.GeneratorPage.HandleInputChange | src/app/generator/page.tsx:102-105 | only the named key is assigned; every other state cell is kept |
| Generator.GeneratorPage.HandleGenerateSubmit | src/app/generator/page.tsx:107-136 | it sends the request body; it then shows the draft on success, or `details` or the unknown-error text on a failed reply, or the thrown message; it always ends with loading off and the form unchanged |
| Generator.GeneratorPage.HandleCreateDoc | src/app/generator/page.tsx:138-169 | without a draft it sets "Please generate a document first." and sends nothing; otherwise it sends the `type - language` title with the draft, then shows the address or the error |
| JsObject.GetPut | src/app/generator/page.tsx:104 | `{ ...prev, [name]: value }` reads `value` at `name` and every other key as before |
| JsObject.SpreadGet | src/app/generator/page.tsx:118-123 | a spread keeps the target's keys and takes the source's value for every key it has |
| JsObject.Without | src/app/api/generate-document/route.ts:22 | the rest of a destructuring reads as the object on every key not taken out, and as absent on the keys taken out |
| Pipeline.GeneratorDetails | src/app/api/generate-document/route.ts:22-24 | in the route's details for the page's body, the effective date is today, the type and the language are absent, and every other form field is as typed |
| Pricing.Display | src/app/pricing/page.tsx:141-149 | monthly mode shows the monthly price; annual mode shows the annual price divided by 12 and rounded down, with the full annual price under it |
| Pricing.AnnualIsTenMonths | src/app/pricing/page.tsx:10-58 | every plan's annual price is ten times its monthly price |
| Pricing.ExactlyOnePopular | src/app/pricing/page.tsx:10-58 | exactly one plan is marked popular, the second |
| Pricing.AnnualSavesSeventeenPercent | src/app/pricing/page.tsx:109-149 | at ten months a year, the annual figure is below the monthly price, and both the card's figure and the year round to the advertised 17% saving |
| Pricing.EveryPlanSaves | src/app/pricing/page.tsx:109-149 | every card in annual mode shows a lower monthly figure and a 17% saving |
| Pricing.ToggleKeepsTotal | src/app/pricing/page.tsx:145-149 | only annual mode shows the annual total, and it is always the plan's annual price |

## Left out

- The Google Docs export route and OAuth token refresh are not part of this model. They are calls into Google's services. `HandleCreateDoc` models only the page's side, with `send` as a parameter.
- The language-model wrappers are not modelled. The drafting agent and the compliance analyser are parameters that return text or fail, and a report or nothing.
- The DOCX extractor, UTF-8 decoding, `JSON.stringify`/`JSON.parse`, `encodeURIComponent`, `fetch`, `Date.now`/`new Date()` and `Math.random` are parameters. The storage and the file system are fields or a `Disk` class. Their own behaviour is not modelled.
- DraftRoute.DraftCache.Set: which entry makes room when the cache is full is left open. Only one other entry goes, and the least-recently-used order of the cache library is not claimed. Its TTL is "stale once more than `ttl` milliseconds have passed", with the clock as a parameter.
- ComplianceHook.ReloadRestores: the round trip is claimed only for items never checked. A finished check stores `lastChecked` as a `Date`. `JSON.stringify` writes a `Date` as an ISO string and `JSON.parse` gives back that string, so a reload after a check does not restore the saved items.
- DraftRoute.Post: the request body is an object whose values are all strings, in insertion order. Other JSON is not modelled. A `null` body would make the destructuring throw, giving a 500 with that message. Numbers, booleans, `null`, arrays and objects would be rendered as text in the details block. Integer-like keys would be listed first. The generator page sends only string values under non-integer labels, so the modelled pipeline does not hit these cases.
- I/O failures (mkdir, writeFile, a body that cannot be read) are not modelled, apart from a drafting request body that fails to parse. The logging calls are not modelled either.
- Upper- and lower-casing is ASCII only. Unicode case mapping is not modelled.
- JavaScript keys inherited from `Object.prototype` (such as `constructor`) are not modelled. For those, `complianceRules[type]` would find a value on the prototype; the model treats them as categories without a rule.
- UploadRoute.ExtName: `path.extname` is modelled for names without `/`. `path.join` is modelled as joining with `/`, without normalising the path.
- UploadRoute.UploadDir: the `process.cwd()` prefix is left out, so the directory and the saved paths are relative to the working directory.
- Marketplace ratings are whole tenths (4.8 is 48), because the source's ratings have one decimal.
- Floating-point display (`toFixed`, `toLocaleString`) and the uploader's megabyte display are not modelled.
- Marketplace.SortTemplates: the sort is stable by construction, but stability is not stated or proved. The contract states a permutation, sorted by key.
- Marketplace.ButtonTextInjective: its proof needs no steps. The four labels are distinct literals.
- The placeholders and radio options of the generator's fields are display text and are not modelled; each field keeps its label and kind.
- Generator.GeneratorPage.HandleDocumentTypeChange: the new type is a `DocType`, one of the six keys of `documentFields`, because the drop-down offers no other value.
- The pricing plans' feature lists are display text and are not modelled.
- Colours, styling, animation, the presentational pages, and the contact and compliance dashboard pages are not modelled.
- React state batching and effect scheduling are not modelled. Each handler applies its updates in source order. The uploader's and the hook's effects run right after each change (`Report`, `Save`).
- The compliance hook's timer is not modelled. The delayed second phase is a separate method, `FinishCheck`. The `typeof window` guard is taken as true.
- `JSON.parse` of stored items yields items or fails. Arrays of other values are not told apart from arrays of items.
- `viewDetails` in the compliance hook only logs and shows an alert, and is not modelled.
- A file's last-modified time and a timestamp are natural numbers, rendered in decimal.
