# receipt-scanner core, modelled in Dafny

This project models the extraction pipeline of receipt-scanner. The pipeline
loads a receipt or invoice file (PNG/JPG image or PDF) and asks a language model
for the document's category: receipt, service invoice, outsourcing invoice, or
unknown. It then sends one request per field of that category's prompt set and
assembles the trimmed answers into a typed record tagged with the category. The
project also models the manifest reader `listFiles`. The manifest's first line
names a directory, and every later line is a file-id prefix that resolves to the
first directory entry starting with it.

Modules, one per source file, plus a module for the JavaScript string
operations the code relies on:

- `Text` covers `String.prototype.trim` over ECMAScript's whitespace set, and
  `split`/`join` on one character, with their round trips. It also covers
  `startsWith` and `endsWith`.
- `AccountingObjects` (`src/core/accounting-objects.ts`) holds the file objects,
  the categories with their labels, the records and their declared fields. It
  also models the object the `{ type, ...fields }` spread produces.
- `Scanning` (`src/core/scanning.ts`) covers message construction and the batch
  sent to the model. It assembles the answers into a record, including the
  `keys[i]` indexing and the `gen[0]` access. It also models classification,
  the prompt sets and the three category scanners.
- `ReceiptScanner` (`src/core/receipt-scanner.ts`) covers file-type detection,
  loading and the per-file orchestration `scanFile`.
- `ListFiles` (`src/core/list-files.ts`) covers manifest lines, prefix
  resolution and the truthiness filter.

The model and the host are parameters:

- The language model is a function from a batch of conversations to a list of
  generations. Each generation is a list of candidate texts.
- `ScanFile` returns the outcome together with the batches it sent. So "never
  calls the model" is a statement about that list.
- Reading files, base64 encoding, PDF page extraction, directory listing and
  path joining are functions passed in.

Behaviour of the code that shapes the model:

- An unsupported extension does not fail. `loadFile` yields an object with only
  the file name, and `scanFile` returns the `Unknown` record for it.
  `FileType.Unknown` and `UnknownObject` are used there but not declared in
  `accounting-objects.ts`, so both `FileType.Unknown` and the
  object's `type` are `undefined`. The comparison therefore still succeeds. The
  model gives `FileType` an explicit `Unknown` variant.
- Field answers are matched to keys by position. When the provider returns more
  generations than keys, the extra answers are written under the key
  `"undefined"`.
- A generation with no candidate makes `gen[0].text` throw. The model returns
  `Failure(MissingCandidate(i))`.
- A missing `detectType` answer classifies as `Unknown`.

## Model

| member | source | states |
|---|---|---|
| Text.Trim | src/core/scanning.ts:150 | the trimmed answer has no whitespace at either end and is no longer than the raw answer |
| Text.TrimSplits | src/core/scanning.ts:150 | the raw text is the trimmed text with a whitespace-only run on each side: trimming removes whitespace and nothing else |
| Text.TrimUnique | src/core/scanning.ts:150 | trim is characterised by its contract: any whitespace-wrapped trimmed text trims to exactly that text |
| Text.TrimIdempotent | src/core/list-files.ts:14 | trimming an already trimmed line changes nothing |
| Text.TrimOfTrimmed | src/core/list-files.ts:14 | a line with no whitespace at either end is returned unchanged |
| Text.Split | src/core/list-files.ts:13 | `split("\n")` yields at least one piece and no piece contains a line feed |
| Text.JoinSplit | src/core/list-files.ts:13 | joining the pieces of a split restores the text |
| Text.SplitJoin | src/core/receipt-scanner.ts:63 | splitting a join of at least one separator-free piece gives the pieces back |
| Text.SplitConcat | src/core/receipt-scanner.ts:63 | splitting at a separator placed between two texts gives the pieces of the first followed by those of the second |
| Text.SplitJoinPieces | src/core/receipt-scanner.ts:63 | splitting a join of any non-empty list of pieces gives the split of each piece in turn, separators inside the pieces included |
| Text.JoinAppend | src/core/receipt-scanner.ts:63 | `join` places one separator between consecutive pieces: appending a piece appends a separator and the piece |
| Text.StartsWithConcat | src/core/list-files.ts:19 | `startsWith(prefix)` holds exactly when the text is the prefix followed by something |
| Text.EndsWithConcat | src/core/receipt-scanner.ts:78-81 | `endsWith(suffix)` holds exactly when the text is something followed by the suffix |
| Text.SplitTrailingSeparator | src/core/list-files.ts:11-13 | a trailing line feed adds exactly one empty final piece and leaves the others as they were |
| AccountingObjects.FileObject.Type | src/core/accounting-objects.ts:6-17 | an image object carries the `Image` tag and a PDF object the `PDF` tag; neither is unknown |
| AccountingObjects.LabelInjective | src/core/accounting-objects.ts:19-24 | the four category labels are pairwise distinct |
| AccountingObjects.FieldSetRelations | src/core/accounting-objects.ts:30-59 | a receipt has the service-invoice fields minus the due date; an outsourcing invoice swaps the 8% tax for the withholding tax; no record declares `type` or `undefined` |
| AccountingObjects.ToObject | src/core/scanning.ts:36 | the spread object holds `type` and every field with the field's value; `type` is the record's tag unless a field named `type` overrides it |
| AccountingObjects.WellTypedObject | src/core/accounting-objects.ts:25-59 | a record with exactly its declared fields shows its own tag under `type`, and its other keys are exactly the declared fields |
| Scanning.CreateMessage | src/core/scanning.ts:116-141 | an image request carries the prompt and then a PNG data URL whose payload is the file's base64 data; a PDF request is one text part: the triple-quoted text, then a line break with the template's twelve-space indentation, then the prompt |
| Scanning.CreateMessageInjective | src/core/scanning.ts:116-141 | different prompts about the same file give different messages |
| Scanning.Requests | src/core/scanning.ts:143-147 | the batch has one single-message conversation per prompt, in key order |
| Scanning.FirstCandidates | src/core/scanning.ts:148-151 | fails exactly when some generation has no candidate, naming the first such one; otherwise returns each generation's trimmed first candidate, in order |
| Scanning.KeysWritten | src/core/scanning.ts:149-151 | every key written is a prompt key or `undefined`, the key `keys[i]` gives past the last prompt |
| Scanning.Fill | src/core/scanning.ts:149-151 | the record's keys are exactly the keys written, `undefined` included for surplus answers, and every value is one of the answers |
| Scanning.FillValues | src/core/scanning.ts:149-151 | with distinct keys and no surplus answers, each key holds its own answer |
| Scanning.KeysWrittenAll | src/core/scanning.ts:144-151 | with no surplus answers, the keys written are the prompt keys |
| Scanning.Assemble | src/core/scanning.ts:148-152 | assembly fails exactly when some generation has no candidate; otherwise the keys are those written and every value is the trimmed first candidate of some generation |
| Scanning.AssembleRecord | src/core/scanning.ts:143-152 | one non-empty generation per distinct key gives a record whose keys are exactly the keys and whose values are the matching trimmed first candidates |
| Scanning.Scan | src/core/scanning.ts:107-153 | `scan` fails exactly when the model's answer holds a generation without a candidate; a record it returns has only prompt keys and possibly `undefined` |
| Scanning.ScanRecord | src/core/scanning.ts:107-153 | when the model answers each request, `scan` succeeds, its keys are exactly the prompt keys, and each key holds the trimmed answer to its own prompt |
| Scanning.ParseLabel | src/core/scanning.ts:21-29 | an answer maps to an extractable category exactly when it equals that category's label; every other answer, `不明` included, is Unknown |
| Scanning.ParseLabelOfLabel | src/core/scanning.ts:21-29 | parsing a category's label gives that category back |
| Scanning.DetectDocumentType | src/core/scanning.ts:12-30 | classification fails exactly when its `scan` fails; an extractable category is returned only when the `detectType` answer is exactly that category's label |
| Scanning.DetectDocumentTypeAnswer | src/core/scanning.ts:12-30 | when the classifier answers, the category is the parse of its trimmed first candidate |
| Scanning.DetectDocumentTypeFailure | src/core/scanning.ts:15-20 | classification fails exactly when the answer holds a generation without a candidate |
| Scanning.ReceiptPromptKeys | src/core/scanning.ts:91-102 | the receipt prompt keys in order, distinct, equal to the receipt record's fields |
| Scanning.ReceiptReusesCommon | src/core/scanning.ts:54-102 | every receipt field that has a shared instruction is asked with that instruction's text unchanged |
| Scanning.ServiceInvoicePromptKeys | src/core/scanning.ts:66-78 | the service-invoice prompt keys in order, distinct, equal to the record's fields |
| Scanning.ServiceInvoiceReusesCommon | src/core/scanning.ts:54-78 | every service-invoice field that has a shared instruction is asked with that instruction's text unchanged |
| Scanning.OutsourcingInvoicePromptKeys | src/core/scanning.ts:79-90 | the outsourcing-invoice prompt keys in order, distinct, equal to the record's fields |
| Scanning.OutsourcingInvoiceReusesCommon | src/core/scanning.ts:54-90 | every outsourcing-invoice field that has a shared instruction is asked with that instruction's text unchanged |
| Scanning.PromptSetsMatchRecordTypes | src/core/scanning.ts:54-102 | for every extractable category the prompt keys are distinct and are exactly the declared fields, none is `type` or `undefined`, and common instructions are reused |
| Scanning.ReceiptScanner | src/core/scanning.ts:45-50 | a successful result is a receipt record |
| Scanning.ServiceInvoiceScanner | src/core/scanning.ts:32-37 | a successful result is a service invoice record |
| Scanning.OutsourcingInvoiceScanner | src/core/scanning.ts:38-43 | a successful result is an outsourcing invoice record |
| Scanning.ScannerRecord | src/core/scanning.ts:32-50 | when the model answers each field request, a category's scanner returns a record of that category with exactly its declared fields, each holding the trimmed answer to its prompt, and the exported object's keys are `type` plus those fields |
| Scanning.ScannerFailsWithScan | src/core/scanning.ts:32-50 | a category's scanner fails exactly when its scan fails, with the scan's error, so no partial record is returned |
| ReceiptScanner.DetectFileType | src/core/receipt-scanner.ts:77-88 | `.png`/`.jpg` suffixes are images, otherwise a `.pdf` suffix is a PDF, and anything else is unknown |
| ReceiptScanner.DetectFileTypeByExtension | src/core/receipt-scanner.ts:77-88 | detection agrees with the text after the last dot: `png`/`jpg` are images, `pdf` is a PDF, any other extension or none is unknown |
| ReceiptScanner.DetectFileTypeExamples | src/core/receipt-scanner.ts:78-87 | matching is exact and case-sensitive: `bill.PDF` and `scan.jpeg` are unknown |
| ReceiptScanner.LoadFile | src/core/receipt-scanner.ts:49-75 | the loaded object keeps the file name; it is unsupported exactly for unknown types, and otherwise has the detected type; an image carries the base64 text of the file's bytes, and a PDF the texts of its pages joined by line feeds |
| ReceiptScanner.LoadedPdfLines | src/core/receipt-scanner.ts:61-68 | a PDF's text, split at line feeds, gives the lines of each page in page order, however many lines a page has; no pages give one empty line |
| ReceiptScanner.LoadedPdfPages | src/core/receipt-scanner.ts:61-68 | a PDF's text splits at line breaks back into its pages, in order, when no page holds a line break |
| ReceiptScanner.LoadedImageData | src/core/receipt-scanner.ts:54-60 | an image carries the base64 text of the file's bytes |
| ReceiptScanner.ScanFile | src/core/receipt-scanner.ts:20-47 | an unknown file type gives the unknown record with no model call; a supported one is classified first, with one or two calls in all |
| ReceiptScanner.UnsupportedIgnoresModel | src/core/receipt-scanner.ts:25-31 | for an unsupported file the result depends on neither the model nor the host, and nothing is sent |
| ReceiptScanner.IndeterminateShortCircuits | src/core/receipt-scanner.ts:32-46 | an Unknown category gives the unknown record with the file's name after the classification call alone |
| ReceiptScanner.DispatchesToScanner | src/core/receipt-scanner.ts:34-40 | an extractable category dispatches to that category's scanner, after exactly the classification call |
| ReceiptScanner.ClassificationFailurePropagates | src/core/receipt-scanner.ts:32 | when classification fails (a missing candidate), the scan fails with that error after the classification call alone |
| ReceiptScanner.ExtractionFailurePropagates | src/core/receipt-scanner.ts:34-40 | when the category's extraction fails, the scan fails with that error after both calls, and no partial record is returned |
| ReceiptScanner.ScanFileWellTyped | src/core/receipt-scanner.ts:20-47 | with a provider that answers every request, scanning never fails and yields a record with exactly its declared fields, tagged with the classified category or unknown with the file's name |
| ListFiles.TrimAll | src/core/list-files.ts:14 | each line is trimmed in place; count and order are kept |
| ListFiles.ManifestLines | src/core/list-files.ts:11-15 | the manifest always has at least one line, so the directory line `dirName` exists |
| ListFiles.ManifestLinesAreTrimmed | src/core/list-files.ts:11-14 | manifest lines are the trimmed line-feed pieces, so no line holds a line feed and a carriage return before a line feed is dropped |
| ListFiles.TrimAllAppend | src/core/list-files.ts:14 | trimming lines distributes over concatenation |
| ListFiles.ManifestLinesTrailing | src/core/list-files.ts:11-14 | a trailing line feed adds one blank line and leaves the other lines as they were |
| ListFiles.FirstMatch | src/core/list-files.ts:19 | the index of the first entry that starts with the id, or -1 exactly when none does |
| ListFiles.Resolve | src/core/list-files.ts:18-24 | an id gives at most one path, the joined path of its first matching entry; it gives none exactly when no entry matches or the match is the empty (falsy) name |
| ListFiles.ResolveAll | src/core/list-files.ts:18-25 | there are no more paths than ids, and every path joins the directory with one of its entries |
| ListFiles.ListFiles | src/core/list-files.ts:10-26 | there are no more paths than id lines, every path joins the first line's directory with one of its entries, and the paths are the resolutions of the id lines after the first line, in order |
| ListFiles.ResolveAllSingle | src/core/list-files.ts:18-25 | no ids give no paths and one id gives exactly its own resolution, so with `ResolveAllAppend` each id line contributes its first non-empty match's path in its place |
| ListFiles.ResolveAllAppend | src/core/list-files.ts:18-25 | resolution distributes over concatenation of id lists, so paths follow the order of the id lines |
| ListFiles.BlankIdMatchesFirstEntry | src/core/list-files.ts:19-21 | a blank id resolves to the directory's first entry |
| ListFiles.TrailingNewlineAddsFirstEntry | src/core/list-files.ts:10-26 | as written, a trailing line feed appends the path of the directory's first entry |
| ListFiles.ExampleLines | src/core/list-files.ts:11-14 | the manifest `r`, line feed, `a` has lines `r` and `a` |
| ListFiles.ExampleWithoutTrailingNewline | src/core/list-files.ts:10-26 | without a trailing line feed, that manifest over `x.png`, `a.pdf` lists only `a.pdf` |
| ListFiles.TrailingNewlineExample | src/core/list-files.ts:10-26 | with a trailing line feed, the same manifest also lists `x.png`, which no id named |
| ListFiles.NonBlank | src/core/list-files.ts:18 | the non-blank ids, each taken from the input, and every non-blank input kept |
| ListFiles.ListFilesSkippingBlank | src/core/list-files.ts:10-26 | the corrected listing has no more paths than id lines |
| ListFiles.NonBlankAppend | src/core/list-files.ts:18 | skipping blanks distributes over concatenation |
| ListFiles.TrailingNewlineIgnored | src/core/list-files.ts:10-26 | in the corrected listing a trailing line feed changes nothing |
| ListFiles.SkippingBlankAgrees | src/core/list-files.ts:10-26 | when no id line is blank, the corrected listing equals the listing as written |
| ListFiles.NonBlankIdentity | src/core/list-files.ts:18 | a list without blanks is unchanged by skipping blanks |

## Left out

- The language model itself is left out: the Gemini model, its name, the token limit and the LangChain client. The model is an uninterpreted function of the batch. What the prompts ask for is not enforced by code, so it is not modelled either: the tax cross-substitution, the registration-number format, and ignoring the filer's own company. The prompt texts are transcribed exactly.
- Asynchrony is not modelled. Each call is awaited in turn, so sequencing is the order of the `calls` list.
- `console.log` diagnostics are left out, since they have no effect on results.
- The host's I/O is not modelled: `fs.readFileSync`, `Buffer.toString("base64")`, `PDFLoader`, `fs.readdirSync` and `path.join`. They are parameters, and any exception they throw, such as a missing file or directory, is not modelled. `path.join`'s normalisation is left to the parameter.
- Only a provider error that shows up as an empty generation is modelled, as `MissingCandidate`. Thrown provider errors and `.toString()` on a non-string candidate are not modelled.
- Scanning.ReceiptScanner: its own contract states only the record kind. The fields it holds are stated for all three scanners by `Scanning.ScannerRecord` under a well-behaved model.
- Scanning.ServiceInvoiceScanner: as for the receipt scanner, the fields are stated by `Scanning.ScannerRecord`.
- Scanning.OutsourcingInvoiceScanner: as for the receipt scanner, the fields are stated by `Scanning.ScannerRecord`.
- ListFiles.ResolveAll: its own contract gives only bounds and provenance. Its exact value follows from `Resolve`, `ListFiles.ResolveAllSingle` and `ListFiles.ResolveAllAppend`.
- `src/index.ts`, an earlier prototype (image resizing, JSON parsing of model output, a hard-coded path), is not part of this model. Neither is the older sketch `src/receipt-scanner.ts`.
- JavaScript strings are UTF-16, while strings here are sequences of code points. This changes none of the results modelled. Splitting happens only at line feeds, which are BMP characters. The texts compared come from UTF-8 decoding (the manifest, the directory names) or are literals, so they are well-formed, and for well-formed strings a code-unit prefix or suffix match is a code-point one.

## Findings

| source | as written | input that shows it | evidently intended | confidence | as-written member | corrected member |
|---|---|---|---|---|---|---|
| src/core/list-files.ts:11-24 | every line after the first is an id, blank lines included; a blank id matches the first directory entry, because every name starts with the empty string | manifest `r`, line feed, `a`, line feed (a trailing line feed, as editors save files), directory listing `x.png`, `a.pdf`: the result is the paths of `a.pdf` and `x.png` | a blank line names no file and contributes nothing; with blank ids skipped, a trailing line feed changes nothing (`ListFiles.TrailingNewlineIgnored`) | medium, not executed | ListFiles.TrailingNewlineExample | ListFiles.ListFilesSkippingBlank |
