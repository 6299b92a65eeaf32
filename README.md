# Invoice upload app: a verified model of its decision logic

The app accepts PDF invoices over HTTP. It stores one record per accepted file in an in-memory map, fabricates a client name and an amount, and simulates a processing run that moves each record from Pending to Processing to Processed or Failed. A browser UI lists the records with filters, sorting and pagination, and polls the records it just uploaded until they settle.

This project models the sequential logic behind that, as Dafny modules:

- `Text` (text.dfy): the JavaScript string operations the core relies on.
  - ASCII `toLowerCase`.
  - `includes`, and `endsWith`.
  - String order by character code.
  - Decimal rendering of a count.
- `Seqs` (seqs.dfy): `Array.prototype.filter`, with its order and multiplicity lemmas.
- `Invoices` (invoice.dfy): the record, the partial update, and the shallow merge `{ ...invoice, ...updates }`.
- `InvoiceQuery` (query.dfy): the `getPaginated` pipeline.
  - Status filter, then search filter.
  - Sort with the source's comparator.
  - Slice and total count.
- `Storage` (storage.dfy): the store as a class with a map and its insertion order.
  - `create`, `getById`, `update`, `getAll` and `getPaginated`.
  - The two steps of `simulateProcessing`.
  - `generateMockData`.
- `UploadRoute` (upload_route.dfy): the per-file loop of `POST /api/invoices/upload`, as an imperative method proved against a specification function `IntakeOf`.
- `InvoiceListView` (invoice_list.dfy): page count, the page-button window, the filter state update, Previous/Next, the "Showing" line, and the auto-refresh condition.
- `InvoiceUploadView` (invoice_upload.dfy): the upload panel's client-side logic.
  - The PDF MIME filter.
  - The upload guard.
  - The poll set and its stop condition.
  - The replace-by-id merge of polled records, as an array method proved against a specification function `Merged`.

Environment values are parameters. For each uploaded file the route receives one `FileEnv`:
- the two `uuidv4()` results;
- the two `Math.random()` draws, as exact reals in [0, 1);
- the two `new Date()` readings, as milliseconds;
- whether `writeFile` succeeds.

The ids `create` will hand out are required to be fresh and distinct. The timer callback of `simulateProcessing` is the separate method `FinishProcessing`, which takes the callback's own `Math.random()` draw and the end time.

The model follows the code as written, including where a cleaner design would behave differently:
- `getPaginated` does not normalise `page` or `limit`. The model requires `page >= 1` and `limit >= 1`, and computes exactly `(page - 1) * limit` and `slice`.
- A failed file write does not roll anything back. Records created for earlier files stay in the store, are already Processing, and their ids are not reported. The route answers 500.
- The status filter compares the status string. A status string naming none of the four statuses yields an empty result, not an error.
- Page numbers are not validated anywhere. A page past the end gives an empty page with the true total, and the page window for it still shows the last pages.

## Model

| member | source | states |
|---|---|---|
| Storage.InvoiceStore.constructor | app/utils/storage.ts:7 | the store starts with no records and an empty insertion order |
| Storage.InvoiceStore.Create | app/utils/storage.ts:17-24 | adds exactly the key `freshId`, mapped to `data` with that id, and returns that record; the key is appended to the insertion order; the store keeps its invariant and gains one record; every other entry is unchanged |
| Storage.InvoiceStore.GetById | app/utils/storage.ts:27-29 | Some exactly when the id is stored, and then the stored record, whose id is the one asked for; reads only |
| Storage.InvoiceStore.Update | app/utils/storage.ts:32-39 | on a stored id, stores and returns the merge of the record with the update; on an unknown id, returns None and the map is unchanged; the order never changes |
| Storage.InvoiceStore.GetAll | app/utils/storage.ts:104-106 | every stored record exactly once, in insertion order: position i holds the record of the i-th inserted id, and a record is in the result iff it is a value of the map |
| Storage.InvoiceStore.GetPaginated | app/utils/storage.ts:42-101 | echoes page and limit, the total is at most the number of stored records, and every record returned is a stored one; reads only |
| Storage.LengthOfKeys | app/utils/storage.ts:7 | under the store invariant, the insertion order lists each key of the map exactly once, so it has as many entries as the map |
| Storage.StartStep | app/utils/storage.ts:127-130 | the start update sets the status to Processing and the start time, and changes no other field |
| Storage.StartUpdate | app/utils/storage.ts:127-130 | the partial record of the synchronous update: status Processing and the start time, nothing else; `StartStep` states its effect |
| Storage.FinishUpdate | app/utils/storage.ts:136-139 | the partial record of the timer's update: Processed or Failed and the end time, nothing else; `FinishStep` and `FinishOutcome` state its effect |
| Storage.FinishStep | app/utils/storage.ts:132-140 | the finish update sets Processed iff the draw succeeded and Failed iff it did not, sets the end time, and changes no other field |
| Storage.ProcessingLifecycle | app/utils/storage.ts:122-141 | from a fresh Pending record, start then finish each advance the status by one step of the life cycle, keep the timestamps consistent with the status, and end in a terminal status |
| Storage.StartProcessing | app/utils/storage.ts:127-130 | the synchronous half of simulateProcessing: a stored record becomes its merge with the start update; an unknown id changes nothing |
| Storage.FinishProcessing | app/utils/storage.ts:132-139 | the timer callback: a stored record becomes its merge with the finish update for the callback's draw; an unknown id changes nothing; the order is unchanged |
| Storage.ProcessingTime | app/utils/storage.ts:124 | the delay is at least 15000 ms and below 45000 ms |
| Storage.FinishOutcome | app/utils/storage.ts:132-139 | the timer callback leaves the record Processed for a draw below 0.8 and Failed for any other draw, sets the end time, and changes no other field |
| Storage.GenerateMockData | app/utils/storage.ts:110-117 | the client name is one of the five listed, and the amount is between 500 and 10499 |
| Invoices.Merge | app/utils/storage.ts:36 | the merged record keeps the id; a given status wins and an omitted one is kept; the empty update returns the record unchanged; the other fields are stated by `MergeTakesGiven` and `MergeKeepsOmitted` |
| Invoices.MergeKeepsOmitted | app/utils/storage.ts:36 | every field the update omits keeps its old value |
| Invoices.MergeTakesGiven | app/utils/storage.ts:36 | every field the update gives overwrites the invoice's value: file name, size, client name, amount, upload date, file path and both timestamps |
| Invoices.MergeTwice | app/utils/storage.ts:36 | two successive merges equal one merge with the combined update |
| Invoices.MergeIdempotent | app/utils/storage.ts:36 | merging the same update twice changes nothing more |
| Invoices.WithId | app/utils/storage.ts:18-21 | the record carries the given id, and removing that id gives back the data |
| Invoices.StatusName | app/utils/storage.ts:63 | each status is stored as one of the four strings |
| Invoices.StatusNameInjective | app/utils/storage.ts:63 | comparing status strings compares statuses |
| Invoices.ActiveIsNotTerminal | app/components/InvoiceUpload.tsx:23-25 | a status is Pending or Processing exactly when it is neither Processed nor Failed |
| InvoiceQuery.StatusFilterExact | app/utils/storage.ts:62-64 | with a status given, a record is kept iff it is in the input and has exactly that status |
| InvoiceQuery.StatusFilterAbsent | app/utils/storage.ts:62 | with no status, the records are kept as they are |
| InvoiceQuery.StatusFilterUnknown | app/utils/storage.ts:62-64 | a status string naming none of the four statuses keeps nothing |
| InvoiceQuery.SearchFilterExact | app/utils/storage.ts:67-73 | with search text, a record is kept iff it is in the input and its lower-cased file name or client name contains the lower-cased text at some position |
| InvoiceQuery.SearchEmptyKeepsAll | app/utils/storage.ts:67 | the empty search text matches every record, so skipping the filter for it loses nothing |
| InvoiceQuery.StatusFilter | app/utils/storage.ts:62-64 | the status step: the input as it is for the empty status, otherwise `filter` on the status string; `StatusFilterExact`, `StatusFilterAbsent` and `StatusFilterUnknown` state what it keeps |
| InvoiceQuery.MatchesSearch | app/utils/storage.ts:68-72 | the search predicate: the lower-cased file name or the lower-cased client name includes the lower-cased text; `SearchFilterExact` states it as an occurrence |
| InvoiceQuery.SearchFilter | app/utils/storage.ts:67-73 | the search step: the input as it is for the empty text, otherwise `filter` on `MatchesSearch`; `SearchFilterExact` and `SearchEmptyKeepsAll` state what it keeps |
| InvoiceQuery.Matching | app/utils/storage.ts:59-73 | the status step, then the search step, on the records in store order; `QuerySound` states what a page drawn from it holds |
| InvoiceQuery.Compare | app/utils/storage.ts:76-88 | the comparator only ever answers 1 or -1 |
| InvoiceQuery.PrecedesIsKeyOrder | app/utils/storage.ts:80-87 | for asc, a record may precede another iff its key is less or equal; for desc, iff it is greater or equal; dates compare as instants and strings by character code |
| InvoiceQuery.CompareOnTies | app/utils/storage.ts:83-87 | on equal keys the comparator answers -1 both ways; otherwise it is antisymmetric |
| InvoiceQuery.PrecedesTotal | app/utils/storage.ts:83-87 | of two records, one may always precede the other |
| InvoiceQuery.PrecedesTransitive | app/utils/storage.ts:83-87 | may-precede is transitive |
| InvoiceQuery.Insert | app/utils/storage.ts:76-88 | inserting one record gives a permutation of the input plus that record |
| InvoiceQuery.Sort | app/utils/storage.ts:76-88 | the sort returns a permutation of its input |
| InvoiceQuery.InsertSorted | app/utils/storage.ts:76-88 | inserting into a sorted sequence keeps it sorted by the comparator |
| InvoiceQuery.SortSorted | app/utils/storage.ts:76-88 | the sorted sequence is ordered pairwise by the comparator, non-decreasing by key for asc and non-increasing for desc |
| InvoiceQuery.Ordered | app/utils/storage.ts:59-88 | the sorted matches are a permutation of the filtered records |
| InvoiceQuery.Slice | app/utils/storage.ts:91-93 | `slice(start, start + limit)` has min(limit, max(0, length - start)) elements, the i-th being element start + i |
| InvoiceQuery.Offset | app/utils/storage.ts:91 | the start index is (page - 1) * limit and never negative |
| InvoiceQuery.OffsetStep | app/utils/storage.ts:91-92 | the next page starts where this page's slice ends |
| InvoiceQuery.Query | app/utils/storage.ts:59-100 | the total is the number of filtered records; page and limit are echoed; the page holds min(limit, max(0, total - offset)) records, the i-th being the sorted record at offset + i |
| InvoiceQuery.QuerySound | app/utils/storage.ts:59-73 | every record on a page is an input record of the filtered status that matches the search |
| InvoiceQuery.QueryPageSorted | app/utils/storage.ts:76-93 | each page is itself ordered by the comparator |
| InvoiceQuery.QueryTotalIndependentOfPage | app/utils/storage.ts:97 | the total depends on neither page nor limit |
| InvoiceQuery.QueryPastEnd | app/utils/storage.ts:91-93 | a page starting at or past the total is empty |
| InvoiceQuery.QueryFullPage | app/utils/storage.ts:91-93 | a page whose end is within the total holds exactly limit records |
| InvoiceQuery.QueryNextPageContinues | app/utils/storage.ts:91-93 | the next page's i-th record is the sorted record right after this page's span, at offset + limit + i |
| UploadRoute.Post | app/api/invoices/upload/route.ts:7-71 | the response is the specified one; the store keeps its invariant and gains exactly the records of the intake, keyed by their ids and appended to the order in input order |
| UploadRoute.IntakeLoop | app/api/invoices/upload/route.ts:21-56 | the `for` loop: reports failure iff the intake failed, returns the ids of the intake's records, and leaves the store holding exactly those records in addition, appended to the order in input order |
| UploadRoute.HandleFile | app/api/invoices/upload/route.ts:22-55 | one pass of the loop body: a failed write stops with the store unchanged and the intake failed; otherwise the store and the id list advance to the intake of one more file, with the new id when the file was accepted |
| UploadRoute.AcceptFile | app/api/invoices/upload/route.ts:30-55 | an accepted file's record is created with its fresh id, then started: the store maps that id to the started record and appends it to the order |
| UploadRoute.IntakeOf | app/api/invoices/upload/route.ts:21-56 | the per-file fold of the loop: a name that is not a PDF is skipped, a failed write stops the loop, any other file appends its started record; `IntakeSkip`, `IntakeAccept`, `IntakeStopsAt` and `IntakeFailureSticks` state each case |
| UploadRoute.Response | app/api/invoices/upload/route.ts:12-69 | the answer the route gives: 400 without files, 500 after a failed write, otherwise the ids with the count message; `ResponseCases` states the three cases in terms of the files |
| UploadRoute.SuccessMessage | app/api/invoices/upload/route.ts:61 | the message template holding the number of records; `NatToStringRoundTrip` and `NatToStringInjective` state that the count can be read back from it |
| UploadRoute.SuccessMessageInjective | app/api/invoices/upload/route.ts:61 | different counts give different success messages, so the message tells how many invoices were created |
| UploadRoute.ResponseCases | app/api/invoices/upload/route.ts:12-69 | 400 iff no file came; 500 iff some PDF-named file could not be written; otherwise one id per PDF-named file, with the count in the message |
| UploadRoute.IntakeFailsIff | app/api/invoices/upload/route.ts:36 | the intake fails iff some PDF-named file's write fails |
| UploadRoute.IntakeAllWritten | app/api/invoices/upload/route.ts:21-56 | when the PDF-named files are written, there is one record per PDF-named file, in input order, carrying that file's name; other files add nothing |
| UploadRoute.IntakeSkip | app/api/invoices/upload/route.ts:23-25 | a file whose lower-cased name does not end in ".pdf" adds no record and no id |
| UploadRoute.IntakeAccept | app/api/invoices/upload/route.ts:27-55 | a written PDF appends its started record |
| UploadRoute.IntakeStopsAt | app/api/invoices/upload/route.ts:36-69 | a PDF whose write fails ends the intake with the records created before it |
| UploadRoute.IntakeFailureSticks | app/api/invoices/upload/route.ts:64-69 | after a failed write, nothing more is added |
| UploadRoute.IntakeRecordsFromFiles | app/api/invoices/upload/route.ts:21-56 | every record of the intake is the started record of a PDF-named file whose write succeeded |
| UploadRoute.IntakeRecordsProcessing | app/api/invoices/upload/route.ts:55 | every record left by the loop is Processing, has timestamps consistent with that, and has a PDF name |
| UploadRoute.IsPdfName | app/api/invoices/upload/route.ts:23 | the route's PDF check: the lower-cased name ends in ".pdf"; `IntakeSkip`, `IntakeAllWritten` and `ResponseCases` state its effect |
| UploadRoute.Created | app/api/invoices/upload/route.ts:31-50 | the record `create` returns for an accepted file; `CreatedRecord` states its fields |
| UploadRoute.Started | app/api/invoices/upload/route.ts:42-55 | the created record after the synchronous update of `simulateProcessing`; `StartedRecord` states it |
| UploadRoute.CreatedRecord | app/api/invoices/upload/route.ts:31-50 | a created record has the fresh id, the original name and size, status Pending and no timestamps; its file path is the fresh storage id followed by the name's extension; its client name and amount come from the mock data's range |
| UploadRoute.StartedRecord | app/utils/storage.ts:127-130 | once started, the record is the created one with status Processing and the start time set, one step forward in the life cycle |
| UploadRoute.PdfExtName | app/api/invoices/upload/route.ts:31-32 | the extension is either empty or the name's last four characters, which lower-case to ".pdf"; it is empty exactly when those four characters are the whole last path segment |
| UploadRoute.Ids | app/api/invoices/upload/route.ts:52 | one id per record, position by position |
| UploadRoute.FreshAt | app/api/invoices/upload/route.ts:42-50 | the id create() hands out for a file is neither stored before the upload nor used earlier in the same upload |
| UploadRoute.RecordStep | app/api/invoices/upload/route.ts:42-52 | one more created record adds exactly its key to the map and its id to the list |
| Text.Lower | app/utils/storage.ts:68-71 | same length, each character lower-cased in ASCII |
| Text.LowerIdempotent | app/utils/storage.ts:68-71 | lower-casing twice is lower-casing once |
| Text.LowerHasNoUpper | app/api/invoices/upload/route.ts:23 | a lower-cased string has no ASCII capital |
| Text.ContainsIff | app/utils/storage.ts:70-71 | `includes` holds iff the needle occurs at some position |
| Text.ContainsEmpty | app/utils/storage.ts:70-71 | every string includes the empty string |
| Text.StrLtIrreflexive | app/utils/storage.ts:84-86 | no string is less than itself |
| Text.StrLtTrichotomy | app/utils/storage.ts:84-86 | of two strings, exactly one of less, equal, greater holds |
| Text.StrLtTransitive | app/utils/storage.ts:84-86 | string order is transitive |
| Text.NatToString | app/api/invoices/upload/route.ts:61 | the count is rendered as a non-empty run of decimal digits |
| Text.NatToStringRoundTrip | app/api/invoices/upload/route.ts:61 | reading back the digits gives the count |
| Text.NatToStringInjective | app/api/invoices/upload/route.ts:61 | different counts are rendered differently |
| Seqs.Filter | app/components/InvoiceUpload.tsx:76-78 | at most as long as the input; an element is kept iff it is in the input and accepted; every kept element is accepted |
| Seqs.FilterAppend | app/components/InvoiceUpload.tsx:76-78 | filtering a concatenation is the concatenation of the filtered parts, so the input order is kept |
| Seqs.FilterMultiset | app/components/InvoiceUpload.tsx:83-85 | an accepted element is kept as often as it occurs; a rejected one never |
| Seqs.FilterAll | app/utils/storage.ts:69-72 | a filter that accepts everything changes nothing |
| InvoiceListView.TotalPages | app/components/InvoiceList.tsx:83 | ceil(total / limit): zero iff there are no records; the pages cover the total and the last page is not empty |
| InvoiceListView.GetPageNumbers | app/components/InvoiceList.tsx:82-99 | min(5, totalPages) consecutive page numbers starting at the window start, all within 1 .. totalPages, and holding the current page whenever it is within range |
| InvoiceListView.WindowCentred | app/components/InvoiceList.tsx:87-92 | the current page is centred when it is at least three pages from both ends |
| InvoiceListView.FirstFetchShowsNewest | app/components/InvoiceList.tsx:19-50 | the first fetch, with the initial filters, counts the whole store and shows at most ten records, the first ones in newest-upload-first order, none uploaded earlier than a record left for a later page |
| InvoiceListView.HandleFilterChange | app/components/InvoiceList.tsx:64-70 | only the changed key takes its new value; the page becomes the given number for the page key and 1 for any other key |
| InvoiceListView.FilterChangeIdempotent | app/components/InvoiceList.tsx:64-70 | repeating a change changes nothing more |
| InvoiceListView.FilterThenPage | app/components/InvoiceList.tsx:64-70 | a page chosen after another change sticks; a page chosen before one is lost |
| InvoiceListView.FilterChangeRestartsAtFirstRecord | app/components/InvoiceList.tsx:68 | after any change other than the page, the query starts at record 0 |
| InvoiceListView.PrevTarget | app/components/InvoiceList.tsx:271 | Previous goes to page - 1 and never below 1 |
| InvoiceListView.NextTarget | app/components/InvoiceList.tsx:278 | Next goes to page + 1 and never beyond the last page |
| InvoiceListView.PrevDisabled | app/components/InvoiceList.tsx:272 | Previous is disabled on page 1; `TargetsStayInRange` states that it is disabled iff its target stays put |
| InvoiceListView.NextDisabled | app/components/InvoiceList.tsx:279 | Next is disabled from the last page on; `TargetsStayInRange` states that it is disabled iff its target stays put |
| InvoiceListView.ShowsPagination | app/components/InvoiceList.tsx:267 | the bar shows when the total exceeds the page size; `PaginationMeansSeveralPages` states that there are then at least two pages |
| InvoiceListView.PaginationMeansSeveralPages | app/components/InvoiceList.tsx:267 | the pagination bar appears only when there are at least two pages |
| InvoiceListView.TargetsStayInRange | app/components/InvoiceList.tsx:267-313 | from a page within range, both targets are within range; a button is enabled iff its target moves by one, and disabled iff it stays put |
| InvoiceListView.ShowingRange | app/components/InvoiceList.tsx:187-188 | "from" is 0 on an empty page, else the first record's position; "to" is at most the total and at most page * limit, and equals one of them |
| InvoiceListView.ShowingMatchesQuery | app/components/InvoiceList.tsx:187-188 | on a non-empty page the query returned, the line runs from offset + 1 to offset + the number of records shown, within the total |
| InvoiceListView.HasActive | app/components/InvoiceList.tsx:54-56 | some record shown is Processing or Pending; `RefreshStopsWhenAllTerminal` states when it fails |
| InvoiceListView.RefreshStopsWhenAllTerminal | app/components/InvoiceList.tsx:54-58 | the list stops refreshing exactly when every record shown is Processed or Failed |
| InvoiceUploadView.PdfOnlyKeepsExactlyPdfs | app/components/InvoiceUpload.tsx:76-85 | a file is kept iff it was chosen and its type is application/pdf, as often as it was chosen |
| InvoiceUploadView.PdfOnlyKeepsOrder | app/components/InvoiceUpload.tsx:76-78 | the kept files are in their original order |
| InvoiceUploadView.PdfOnlyIdempotent | app/components/InvoiceUpload.tsx:83-85 | selecting again among kept files keeps them all |
| InvoiceUploadView.PdfOnly | app/components/InvoiceUpload.tsx:76-85 | the files kept on drop and on select: `filter` on the MIME type application/pdf; `PdfOnlyKeepsExactlyPdfs`, `PdfOnlyKeepsOrder` and `PdfOnlyIdempotent` state what it keeps |
| InvoiceUploadView.HandleUpload | app/components/InvoiceUpload.tsx:89-99 | no request iff nothing is selected; otherwise all selected files are sent |
| InvoiceUploadView.ActiveInvoices | app/components/InvoiceUpload.tsx:23-25 | the tracked invoices a poll fetches again; `PollFetchesActive` and `PollStopsIff` state which |
| InvoiceUploadView.PollFetchesActive | app/components/InvoiceUpload.tsx:23-25 | a poll fetches exactly the tracked invoices that are Pending or Processing |
| InvoiceUploadView.PollStopsIff | app/components/InvoiceUpload.tsx:27-30 | polling stops iff no tracked invoice is active, iff all are terminal, which is also the list view's condition |
| InvoiceUploadView.FindIndex | app/components/InvoiceUpload.tsx:50 | -1 iff no element has the id; otherwise the first position holding it |
| InvoiceUploadView.Merged | app/components/InvoiceUpload.tsx:47-56 | the merged list has the tracked list's length and its id at every position |
| InvoiceUploadView.MergeUpdates | app/components/InvoiceUpload.tsx:47-56 | the in-place loop over a copy computes the specified merge |
| InvoiceUploadView.LastUpdate | app/components/InvoiceUpload.tsx:49-53 | a polled record with the id, if any, and none iff no polled record has it; `LastUpdateIsLast` states that it is the last one |
| InvoiceUploadView.LastUpdateIsLast | app/components/InvoiceUpload.tsx:49-53 | the record found sits at a position after which no polled record carries the id, so it is the one the last overwrite writes |
| InvoiceUploadView.FindIndexSameIds | app/components/InvoiceUpload.tsx:50 | lists with the same ids position by position give the same findIndex answer |
| InvoiceUploadView.MergedAt | app/components/InvoiceUpload.tsx:49-53 | the first position holding an id gets the last polled record for it, if any; every other position is unchanged |
| InvoiceUploadView.MergedDistinct | app/components/InvoiceUpload.tsx:47-56 | with distinct tracked ids, each position holds the newest polled version of its invoice, or is unchanged |
| InvoiceUploadView.MergedIgnoresUnknown | app/components/InvoiceUpload.tsx:50-51 | a polled record whose id is not tracked changes nothing |

## Left out

- Rendering: JSX, CSS, StatusBadge.tsx and page.tsx are display code. `formatFileSize` uses floating-point logarithms and `formatDate` uses locale formatting, so both are out too.
- Query-string parsing: app/api/invoices/route.ts reads the query string with `parseInt` and fills in defaults, and it is not part of this model. `getPaginated` has defaults of its own for a missing page, limit, sort field and sort order (app/utils/storage.ts:50-54); the model leaves them out and takes all six parameters as given. The one caller in the source, app/api/invoices/route.ts:8-13, always passes all four. `sortBy` is one of the four fields the UI offers, so sorting by an arbitrary key is not modelled.
- `InvoiceQuery.Query`: requires `page >= 1` and `limit >= 1`. JavaScript `slice` with a negative start counts from the end, and that case is not modelled.
- I/O and asynchrony: fetch, `Promise.all`, timers, `request.formData()` and the multipart body are out.
  - The timer of `simulateProcessing` is the separate `FinishProcessing` step.
  - The delay draw and the success draw are `ProcessingTime` and `IsSuccess`.
  - A thrown `formData()` or `arrayBuffer()` also leads to the 500 answer. Only the failure of `writeFile` is modelled, as the per-file `writeOk` flag.
  - `mkdirSync` of the uploads directory is out.
- Randomness and clocks: `uuidv4`, `Math.random` and `new Date()` are parameters. Draws are exact reals, so float rounding is not modelled. `UploadRoute.Post` requires that the record ids `create` hands out are fresh and distinct, which a v4 uuid makes overwhelmingly likely but does not guarantee. Timestamps are integers, not Date objects.
- `InvoiceQuery.Sort`: the model's sort is a concrete stable insertion sort. `SortSorted` and `CompareOnTies` state only what the comparator fixes: the result is a permutation ordered by the comparator, and records with distinct keys come in key order.
- `InvoiceQuery.Query`: the order of records with equal keys, and so which of several tied records a page holds, follows the model's stable sort. The comparator answers -1 both ways on a tie, so ECMAScript's `Array.prototype.sort` leaves their order to the engine, and V8's TimSort may reverse a run of ties. For example, amounts A = 1, B = 1, C = 0 sorted ascending may come out as C, B, A on V8, while the model gives C, A, B; with limit 1, page 2 then shows B in the app and A in the model. Ties are common, because only five client names exist. `Query`, `QueryPageSorted` and `QueryNextPageContinues` hold for the model's order.
- `Text.Lower`: ASCII-only. Unicode case mapping (including mappings that change length) is not modelled.
- `Text.StrLt`: compares characters by their code. JavaScript compares UTF-16 code units, and the two orders differ for characters beyond U+FFFF; that difference is not modelled.
- `Invoices.Merge`: the update carries no id and cannot clear an optional timestamp back to undefined, because no caller does either.
- Client state flow: the list view's filter state holds sortBy and sortOrder as the strings of the select controls, and how they reach `QueryParams` is not modelled; `InvoiceListView.FirstFetchShowsNewest` reads the initial "uploadDate" and "desc" as `UploadDate` and `Desc`. The upload panel's fetch of the uploaded records after a successful upload is out, as is the list's fetch on filter change. Polling against the store is modelled only through the merge of fetched records and the stop condition.
- `InvoiceListView.TotalPages`: requires `limit >= 1`. The per-page control offers only 5, 10, 25 and 50, so the `Infinity` and `NaN` results of a zero or non-numeric limit are not modelled.
