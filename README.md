# A verified model of the TikTok-shop backend core

This project is a Dafny model of the core of a Django/Celery backend for
TikTok Shop sellers. Each Dafny module follows one source file. Network
calls, PDF libraries, OCR and Google Drive are replaced by oracle
parameters: functions from an attempt, request or document to its outcome.
An error reply that carries `str(e)` carries the exception's message as
CPython 3.12 words it.
Stored tables are sequences or maps held in classes where the source
updates them in place.

- **Label combination.** `CombineLabelApi` covers the create, list,
  retrieve and cancel endpoints. `BackgroundProcessing` is the polling
  scheduler with its bounded slot table. `CeleryTask` is the Celery
  orchestrator, and `Pipeline` is the tail both orchestrators share.
  `DownloadPdf` is the fetch loop with its Google Drive URL normaliser,
  `MergePdf` the partition into successful and failed URLs, and
  `GoogleApi` the Drive upload loop and search. `Models` and `TaskStore`
  hold the task record and its table.
- **Signing and query parsing.** `Auth` and `Helpers` build the sign
  string: sorted parameters, excluded keys, optional body. HMAC-SHA256 is
  an uninterpreted function. `QueryParams`, `Pagination`,
  `PaginationFilter`, `PaginationSort` and `PaginationPaging` are the
  `filter.`/`sort.`/`limit`/`offset` parsers.
- **Payload shaping and aggregation.** The main modules:
  - `Promotion`: promotion pack splitting;
  - `Product`: product bodies;
  - `OrderApi` and `ListOrders`: order paging, grouping, chunking and sorting;
  - `ProductAction`: spreadsheet image handling and the colour mapping;
  - `OrderAction`: the order-view validators;
  - `FinanceStats` and `TiktokFinance`: statistics counters and statement paging;
  - `OcrPdf`: label OCR parsing;
  - `GeneratePdf` and `CsvToPdf`: Vietnamese text fixes and CSV row accounting;
  - `PermissionAction`: user, group and shop reconciliation;
  - `TemplateAction`: template normalisation and grouping by date;
  - `Flashship`: variant import.

  `Serializers`, `Constant` and `ObjectCreate` are the validators and
  payload objects. `Json`, `Text` and `Wrappers` are shared helpers.

## Model

| member | source | states |
|---|---|---|
| Models.StatusFromCode | api/models.py:167-186 | a stored status column parses only when it is one of the five choices, and the parsed status has that code |
| Models.StatusCodeRoundTrip | api/models.py:167-186 | every task status parses back from its own stored code |
| Models.DefaultTask | api/models.py:176-199 | a task row created with only key, owner and time is PENDING, has empty URL lists, zero counts and every nullable column null |
| Models.PackageStatusFromValue | api/models.py:239-266 | a package status value parses exactly when it is one of the twenty choices, to the choice with that value |
| Models.PackageStatusRoundTrip | api/models.py:239-266 | every package status parses back from its stored value |
| Models.ValueInjective | api/models.py:239-259 | distinct package statuses have distinct stored values |
| Models.NewUserGroup | api/models.py:18-26 | a membership created without a role gets the default role 2, which is a valid role choice |
| Models.InsertMembership | api/models.py:28-29 | inserting a membership keeps (user, group) pairs unique exactly when no existing row has the same pair |
| Constant.RoleLabel | api/utils/constant.py:228-233 | a role code has a label exactly when it is 0 to 3 |
| Constant.DefaultRoleIsSeller | api/utils/constant.py:228-234 | the default role code labels the Seller role |
| Constant.SalesAttributeRoundTrip | api/utils/constant.py:146-158 | building a sales attribute from its own `to_json` keywords gives the same attribute |
| Constant.StockInfoRoundTrip | api/utils/constant.py:160-169 | building a stock info from its own `to_json` keywords gives the same stock info |
| Constant.AttributeValueRoundTrip | api/utils/constant.py:126-133 | building an attribute value from its own `to_json` keywords gives the same value |
| Constant.ProductAttributeRoundTrip | api/utils/constant.py:135-144 | building a product attribute from its `to_json` gives the same attribute, its values converted in order |
| Constant.SalesAttributesRoundTrip | api/utils/constant.py:106-115 | rebuilding a serialised list of sales attributes gives the same list, in order |
| Constant.StocksRoundTrip | api/utils/constant.py:109-116 | rebuilding a serialised list of stock infos gives the same list, in order |
| Constant.SkuRoundTrip | api/utils/constant.py:105-124 | building a SKU from its `to_json` gives the same SKU, its attribute and stock lists in order |
| Constant.SkusRoundTrip | api/utils/constant.py:87-90 | rebuilding a serialised list of SKUs gives the same list, in order |
| Constant.ProductAttributesRoundTrip | api/utils/constant.py:201-209 | rebuilding a serialised list of product attributes gives the same list, in order |
| Constant.SkuUnknownKeyRejected | api/utils/constant.py:106 | a SKU dictionary with a keyword the constructor does not take raises instead of building |
| Constant.ProductCreateObjectRoundTrip | api/utils/constant.py:63-103 | `ProductCreateObject(**p.to_json())` rebuilds the same object, SKUs included |
| Constant.ProductCreateOneObjectRoundTrip | api/utils/constant.py:172-226 | `ProductCreateOneObject(**p.to_json())` rebuilds the same object, SKUs and product attributes included |
| TaskStore.Find | api/tasks.py:23 | the lookup by key returns a stored row with that key, or nothing exactly when no row has it |
| TaskStore.Replace | api/tasks.py:29 | saving replaces every row with the saved key by the saved row and leaves the other positions as they were |
| TaskStore.PendingIds | background_processor.py:71-73 | an id is listed exactly when some row with it is PENDING and not already claimed |
| TaskStore.OwnedBy | api/views/combine_label/__init__.py:83 | the listed rows are exactly the stored rows of that user |
| TaskStore.Store.constructor | api/models.py:166-202 | an empty table whose first key will be 1 |
| TaskStore.Store.Create | api/views/combine_label/__init__.py:39-44 | the new row has the next key, the defaults, the given URLs and their count, and is put first (newest first ordering) |
| TaskStore.Store.Save | api/tasks.py:29 | the saved row becomes readable under its key; every other key reads as before; the table invariant holds |
| TaskStore.FindReplace | api/models.py:200-202 | saving keeps keys unique and the newest-first order, and changes only the saved key's row |
| TaskStore.PendingDistinct | background_processor.py:71-73 | the pending query lists each id at most once |
| DownloadPdf.IdRun | api/utils/pdf/download_pdf.py:24-26 | the greedy id group takes the longest run of id characters at the front |
| DownloadPdf.SearchFinds | api/utils/pdf/download_pdf.py:29-32 | what the pattern search finds is a non-empty id that the URL holds right after the share prefix and before the pattern's suffix |
| DownloadPdf.ConvertShape | api/utils/pdf/download_pdf.py:10-35 | a conversion either returns the URL unchanged or the direct-download link of an id that follows the share prefix in the URL |
| DownloadPdf.ConvertWithoutShareLink | api/utils/pdf/download_pdf.py:35 | a URL without the share prefix is returned unchanged |
| DownloadPdf.ConvertWithShareLink | api/utils/pdf/download_pdf.py:26-33 | the share prefix followed by at least one id character is always converted to a direct-download link |
| DownloadPdf.ConvertIdempotent | api/utils/pdf/download_pdf.py:10-35 | converting a converted URL changes nothing |
| DownloadPdf.Backoffs | api/utils/pdf/download_pdf.py:62-65 | n attempts take n-1 pauses, the j-th of 2^j seconds |
| DownloadPdf.DownloadPdfFromUrl | api/utils/pdf/download_pdf.py:38-146 | the retry loop returns the result of the recursive attempt specification and takes exactly its pauses |
| DownloadPdf.AttemptsBounded | api/utils/pdf/download_pdf.py:59 | at most `max_retries` requests are made; a result is returned exactly when at least one attempt is allowed, and it names the requested URL |
| DownloadPdf.DefaultBackoffs | api/utils/pdf/download_pdf.py:38-65 | with the default three attempts the pauses are 1 s then 2 s |
| DownloadPdf.InvalidPdfStops | api/utils/pdf/download_pdf.py:96-136 | a document the PDF reader rejects stops at once, after one request, with the validation message |
| DownloadPdf.RetryableFailureUsesAllAttempts | api/utils/pdf/download_pdf.py:109-146 | a timeout, network or other error is reported only after every allowed attempt was used |
| DownloadPdf.SucceedsOnThirdAttempt | api/utils/pdf/download_pdf.py:59-108 | two failures then a valid document: success on the third attempt after pauses of 1 s and 2 s |
| DownloadPdf.FailsAfterThreeNetworkErrors | api/utils/pdf/download_pdf.py:119-127 | three network errors report the last error after 3 retries |
| MergePdf.RemoveFirstMultiset | api/utils/pdf/merge_pdf.py:62 | `list.remove` takes exactly one copy of the value out of the list |
| MergePdf.Counts | api/utils/pdf/merge_pdf.py:28-66 | every download result is counted once: as a download failure, an appended document or a document rejected while appending |
| MergePdf.FailedDuringMerge | api/utils/pdf/merge_pdf.py:100-103 | when the merger itself fails, every URL still counted successful is reported failed, in order, with the merge-process message |
| MergePdf.MergePdfFiles | api/utils/pdf/merge_pdf.py:8-104 | the merge loop's result is the merge specification for the given download results and merger faults |
| MergePdf.RemovalsFind | api/utils/pdf/merge_pdf.py:52-66 | each removal finds its URL: the URLs still counted successful are, as a multiset, the kept ones plus those not reached yet |
| MergePdf.MergePartition | api/utils/pdf/merge_pdf.py:38-104 | in every branch the merged and failed URLs together are, as a multiset, exactly the input URLs, so each input is reported once |
| MergePdf.SurvivorCount | api/utils/pdf/merge_pdf.py:52-66 | after the loop one URL is left per appended document |
| MergePdf.MergeSuccessIff | api/utils/pdf/merge_pdf.py:38-104 | success holds exactly when some URL survives, exactly when a buffer is returned, and failure exactly when an error message is returned |
| MergePdf.MergeBuffer | api/utils/pdf/merge_pdf.py:78-92 | on success the buffer holds exactly the appended documents in order, one per surviving URL |
| MergePdf.MergeFailuresFirst | api/utils/pdf/merge_pdf.py:28-100 | download failures come first in `failed_urls`, each with its own error |
| MergePdf.KeepOrder | api/utils/pdf/merge_pdf.py:52-66 | with distinct URLs the surviving URLs are the kept ones followed by those not reached yet, in input order |
| MergePdf.MergeKeepsOrder | api/utils/pdf/merge_pdf.py:62-90 | with distinct URLs `successful_urls` is the appended URLs in input order |
| MergePdf.DuplicateUrlReordered | api/utils/pdf/merge_pdf.py:62 | with a URL listed twice and only its second copy failing to append, the survivors come out in a different order from the input |
| GoogleApi.Stream.Seek | api/utils/google/googleapi.py:112 | the buffer's position becomes the requested one |
| GoogleApi.Stream.Read | api/utils/google/googleapi.py:113-117 | `read()` returns everything from the position on and leaves the position at the end |
| GoogleApi.UploadPdfToDrive | api/utils/google/googleapi.py:75-155 | the retry loop returns the recursive upload specification's result, takes its 2^(attempt-1) pauses, sends the whole buffer on every attempt (it seeks to 0 first) and shares exactly the files the specification shares |
| GoogleApi.UploadStep | api/utils/google/googleapi.py:96-155 | one turn of the loop: success returns the created file's link, an error before the last attempt moves to the next attempt |
| GoogleApi.UploadBounded | api/utils/google/googleapi.py:96-155 | at most `max_retries` attempts; a result exactly when one is allowed; a failure only after the last attempt, with the last attempt's error in its message |
| GoogleApi.UploadSharesBeforeSuccess | api/utils/google/googleapi.py:120-145 | success returns the `webViewLink` of the file the last attempt created, and that file is the last one shared |
| GoogleApi.SharedWereCreated | api/utils/google/googleapi.py:120-136 | every file that is shared was returned by a file create call |
| GoogleApi.ErrorsAreRetried | api/utils/google/googleapi.py:147-155 | every error before the last attempt, an authorisation error included, is retried without re-authenticating: a run of raising attempts adds one attempt each and leaves the outcome to the attempt after it |
| GoogleApi.SearchFile | api/utils/google/googleapi.py:42-65 | one `{name, link}` per file found, in Drive's order, the link being the share prefix followed by the file id |
| GoogleApi.SearchLinkConverts | api/utils/google/googleapi.py:61 | the share links search builds are converted back to direct-download links by the PDF downloader |
| CombineLabelApi.FindOwned | api/views/combine_label/__init__.py:104 | the owner-scoped lookup returns a stored row with that key and owner, and nothing exactly when no row has both |
| CombineLabelApi.Create | api/views/combine_label/__init__.py:24-75 | the view's new table, reply and echoed task are those of the create specification; the table invariant holds |
| CombineLabelApi.CreateSpec | api/views/combine_label/__init__.py:24-75 | a task is created exactly when a non-empty URL list is given, and the reply succeeds exactly then; otherwise the table is unchanged and the reply is the 400 "No URLs provided"; a created task is a PENDING row with the next key and the URLs put in front of the table, and echoed in the 201 |
| CombineLabelApi.List | api/views/combine_label/__init__.py:77-96 | the listed tasks are exactly the requester's rows, newest first |
| CombineLabelApi.Retrieve | api/views/combine_label/__init__.py:98-122 | 200 with the task exactly when the requester owns a row with that key; otherwise 404 with the not-found message |
| CombineLabelApi.Cancel | api/views/combine_label/__init__.py:125-158 | the view's new table and reply are those of the cancel specification; the table invariant holds |
| CombineLabelApi.CancelSpec | api/views/combine_label/__init__.py:125-158 | the table keeps its length; 404 exactly when the requester owns no task with that key, 200 exactly when that task is PENDING, success exactly with 200; any other reply leaves the table unchanged, and rows of other tasks never change |
| CombineLabelApi.OwnedIsFound | api/views/combine_label/__init__.py:104-131 | with unique keys the owner-scoped lookup agrees with the plain lookup whenever it finds a row |
| CombineLabelApi.OwnedNewestFirst | api/views/combine_label/__init__.py:83 | the owner filter keeps the newest-first order |
| CombineLabelApi.CreateOutcome | api/views/combine_label/__init__.py:28-68 | a missing or empty URL list gives 400 and no row; otherwise one PENDING row with the next key, the URLs and their count, a 201 echoing it, a note exactly when enqueueing failed, unique keys and order kept |
| CombineLabelApi.CreatedIsScheduled | api/views/combine_label/__init__.py:39-44 | a created task becomes the newest pending task the background worker sees, unless the worker already claimed its key |
| CombineLabelApi.CancelOutcome | api/views/combine_label/__init__.py:125-152 | 200 exactly on the requester's PENDING task, 404 exactly when the requester owns no task with that key, 400 otherwise; only success changes the table, and only that row, to CANCELLED with a completion time |
| CombineLabelApi.CancelIsFinal | api/views/combine_label/__init__.py:133-137 | cancelling a cancelled task gets 400 and changes nothing |
| CombineLabelApi.CancelledNotScheduled | api/views/combine_label/__init__.py:139-141 | a cancelled task is no longer pending for the worker, and every other task stays exactly as pending as it was |
| BackgroundProcessing.DownloadPdfsParallel | background_processor.py:192-230 | the parallel download's result is the parallel specification: each URL downloaded with the default retries and put back at its own index; no URLs means the pool cannot be built |
| BackgroundProcessing.ParallelKeepsOrder | background_processor.py:209-225 | with at least one URL, the completion order does not show: one result per URL, each at its URL's index |
| BackgroundProcessing.ClampWorkers | background_processor.py:232-245 | the worker count is always 1 to 15: 5 without an argument or with one `int()` rejects, otherwise the argument clamped to that range |
| BackgroundProcessing.Unfinished | background_processor.py:53-68 | the futures kept are exactly those not done, in submission order, without repeats |
| BackgroundProcessing.BackgroundProcessor.constructor | background_processor.py:22-27 | a stopped processor with the given worker count, no active task and no future |
| BackgroundProcessing.BackgroundProcessor.Start | background_processor.py:29-35 | the processor is running afterwards |
| BackgroundProcessing.BackgroundProcessor.Stop | background_processor.py:38-43 | the processor is stopped afterwards |
| BackgroundProcessing.BackgroundProcessor.Round | background_processor.py:50-92 | one loop pass: finished futures are dropped and their tasks released, then the newest PENDING tasks not held fill the free slots in table order, never more than the worker count |
| BackgroundProcessing.BackgroundProcessor.Reap | background_processor.py:53-68 | every finished future is dropped and its task discarded from the active set |
| BackgroundProcessing.BackgroundProcessor.Submit | background_processor.py:76-85 | the first free-slot count of the pending tasks are submitted in order and added to the active set |
| BackgroundProcessing.BackgroundProcessor.RunFuture | background_processor.py:83 | a worker runs the task processing for its task and its future then counts as done |
| BackgroundProcessing.ProcessSingleTask | background_processor.py:98-190 | the rows written and the message are those of the processing specification; afterwards the task reads as its last write and every other task is unchanged |
| BackgroundProcessing.ProcessOutcome | background_processor.py:102-190 | a task cancelled before the worker reads it is not written; any other task is first marked PROCESSING with its start time and then ends COMPLETED or FAILED; a task without URLs always fails |
| BackgroundProcessing.ProcessCompletedCounts | background_processor.py:163-170 | a completed task has at least one merged URL and every URL counted once as successful or failed |
| CeleryTask.ProgressReports | api/tasks.py:40-43 | after n downloads there are n progress reports, the i-th saying i+1 of the total |
| CeleryTask.ProcessCombineLabelTask | api/tasks.py:16-115 | the rows written and the result are those of the task specification, one progress report is sent per URL, a missing task writes nothing, and every other task is unchanged |
| CeleryTask.CelerySpec | api/tasks.py:16-115 | a missing task writes nothing and returns "Task not found"; otherwise two rows are written: the claim (PROCESSING, start time, Celery id), then the terminal row of the same task with the completion time, and the result is completed exactly when that row is COMPLETED and failed exactly when it is FAILED |
| CeleryTask.DownloadSequentially | api/tasks.py:34-43 | each URL is downloaded in order with the default retries, with one progress report after each |
| CeleryTask.CancelledStillProcessed | api/tasks.py:23-29 | the Celery task does not look at the status: a CANCELLED task is marked PROCESSING and finished, where the background worker leaves it untouched |
| CeleryTask.FinishIgnoresCeleryId | api/tasks.py:46-97 | the terminal row and result do not depend on the Celery id carried in, which is kept |
| CeleryTask.SameOutcomeBothRoutes | api/tasks.py:46-97 | for a task with URLs that was not cancelled, the Celery task and the background worker end in the same row apart from the Celery id, whatever order the parallel downloads complete in |
| CeleryTask.EmptyUrlsFailDifferently | api/tasks.py:46-58 | a task without URLs fails on both routes, with different messages: nothing to merge here, a pool of zero threads in the background worker |
| Serializers.ValidateSignUp | api/serializers/__init__.py:13-55 | a trimmed sign-up is accepted exactly when the username is present, non-blank, at most 30 characters, free of null characters and not taken, the e-mail likewise with at most 100 characters and well-formed, both passwords present, non-blank, at most 255 characters and free of null characters with the first passing the password validators, the names at most 150 characters, and the passwords equal; the data comes back unchanged; a rejection carries `serializer.errors`: each failing field with its own messages, or the mismatch alone when every field passed |
| Serializers.MessagesExact | api/serializers/__init__.py:14-49 | a field has no error message exactly when it passes its checks: required, not blank, unique where declared, the length limit, no null character, and the e-mail and password validators |
| Serializers.FieldErrorsExact | api/serializers/__init__.py:13-49 | the field errors hold exactly the fields that fail their checks, each with its own messages in validator order |
| Serializers.ValidateVerify | api/serializers/__init__.py:78-82 | verification passes exactly when the user exists and the token checks against the stored one |
| Serializers.Users.constructor | api/serializers/__init__.py:13-49 | an empty user table whose first key is 1 |
| Serializers.Users.SignUp | api/serializers/__init__.py:13-67 | the request is trimmed first; it is rejected with `serializer.errors` exactly when the validation rejects it; an accepted request without `first_name` or `last_name` raises `KeyError` in `create` with the missing key; nothing is written unless the user is created; a created user is one inactive user with the next key, the trimmed fields, the hashed password and the verification token |
| Serializers.Users.Register | api/serializers/__init__.py:51-67 | `is_valid()` then `save()`: rejected with `serializer.errors` exactly when the validation rejects; an accepted request missing a name raises `KeyError` on that key; nothing is written unless the user is created, and then exactly the new inactive user with the hashed password under the next key |
| Serializers.TakenUsernameRejected | api/serializers/__init__.py:14-19 | a non-blank username already stored is rejected with the "must be unique" message on `username`, whatever the rest of the request |
| Serializers.SignUpTwiceRejected | api/serializers/__init__.py:14-25 | after an accepted sign-up with both names is saved, the same request is rejected with the "must be unique" message on both `username` and `email` |
| Serializers.Users.Verify | api/serializers/__init__.py:78-87 | a verified user becomes active and nothing else changes; a rejected token writes nothing |
| Serializers.ActivationNeedsToken | api/serializers/__init__.py:78-81 | a user is activated only by presenting a token that checks against the stored one |
| Serializers.ValidateStatus | api/serializers/__init__.py:343-349 | a status passes exactly when it is the value of a package status choice |
| Serializers.EveryStatusAccepted | api/serializers/__init__.py:343-349 | every package status value is accepted |
| Serializers.ValidateFulfillmentName | api/serializers/__init__.py:356-364 | a name passes exactly when it is present, not blank and at most 500 characters; blank is reported before too long |
| Serializers.BlankCheckedBeforeLength | api/serializers/__init__.py:360-363 | a 501-character name of spaces reports the blank-name error |
| Serializers.Duration | api/serializers/__init__.py:385-392 | a duration exists exactly when the task has started |
| Serializers.DurationFrozenOnceCompleted | api/serializers/__init__.py:388-389 | a finished task's duration is completion minus start, whatever the clock |
| Serializers.DurationGrowsWhileRunning | api/serializers/__init__.py:390-391 | a running task's duration grows with the clock and reads as if it finished now |
| Serializers.ReadOnlyAsDeclared | api/serializers/__init__.py:367-383 | of the declared fields, exactly the read-only and computed ones are read-only, so only `urls` and `total_urls` are writable |
| Serializers.ApplyPatch | api/serializers/__init__.py:373-383 | a patch changes only `urls` and `total_urls`, each only when given |
| Serializers.PatchKeepsResults | api/serializers/__init__.py:379-383 | whatever a client sends, the status and results stay as the worker wrote them |
| Serializers.LinkedProducts | api/serializers/__init__.py:258-263 | one product line per entry, in order, with consecutive ids, each pointing at the package |
| Serializers.Packages.constructor | api/serializers/__init__.py:217-263 | empty package and product-line tables |
| Serializers.Packages.Create | api/serializers/__init__.py:258-263 | one package is created from the fields without `products`, then exactly the linked product lines, with keys advanced accordingly |
| Serializers.AddProducts | api/serializers/__init__.py:260-262 | the loop writes exactly the linked product lines |
| Serializers.LinkedToPackage | api/serializers/__init__.py:260-262 | every line written belongs to the new package and carries its entry's fields, in order |
| Helpers.CalSign | api/helpers.py:56-65 | the signature is the HMAC, keyed by the secret, of the secret, the path, the sorted parameters without `sign` and `access_token`, the body and the secret |
| Helpers.CalSignNoBody | api/helpers.py:75-84 | the body-less signature is the HMAC of the same string without a body |
| Helpers.SignersAgree | api/helpers.py:56-84 | the body-less signer is the body signer with an empty body, and both agree with the auth utilities' signer |
| Helpers.WithBodyDependsOnEntries | api/helpers.py:57-78 | both signers ignore the parameter dict's order and its `sign` and `access_token` entries |
| Helpers.ImageRef | api/helpers.py:149 | an image reference keeps only the image's `id`; an image that is not a dict holding `id` gives Python's subscript error (the quoted key `'id'` for a dict) |
| Helpers.SalesAttributeRoundTrip | api/helpers.py:184-198 | building a sales attribute from its own `to_json` gives the same attribute |
| Helpers.SalesAttributesRoundTrip | api/helpers.py:167-173 | rebuilding a serialised list of sales attributes gives the same list, in order |
| Helpers.SkusRoundTrip | api/helpers.py:139-144 | rebuilding a serialised list of SKUs gives the same list, in order |
| Helpers.SkuRoundTrip | api/helpers.py:166-182 | building a SKU from its own `to_json` gives the same SKU, lists in order |
| Helpers.RefsAreFixed | api/helpers.py:149 | cutting an image reference down again changes nothing |
| Helpers.ProductDictRoundTrip | api/helpers.py:106-128 | binding a product dict rebuilds the object, holding the image list the dict carried |
| Helpers.ProductObjectRoundTrip | api/helpers.py:106-164 | `to_json` keeps every field but cuts each image to `{"id": ...}`; rebuilding from the payload and serialising again gives the same payload |
| Auth.ObjKeySort | api/utils/auth.py:48-49 | sorting keeps exactly the dict's entries |
| Auth.Pop | api/utils/auth.py:57-58 | popping a key leaves exactly the entries with other keys |
| Auth.CalSign | api/utils/auth.py:54-73 | the signature is the HMAC, keyed by the secret, of the sign string |
| Auth.AppendItems | api/utils/auth.py:62-63 | the loop appends every sorted entry's key and value, in order, to the prefix |
| Auth.SortSorted | api/utils/auth.py:48-49 | the sorted entries have strictly ascending keys |
| Auth.SortedUnique | api/utils/auth.py:48-49 | two strictly sorted entry lists holding the same entries are the same list |
| Auth.SignedEntries | api/utils/auth.py:56-58 | the signed entries are exactly the dict's entries other than `sign` and `access_token`, in ascending key order |
| Auth.SignDependsOnEntries | api/utils/auth.py:54-73 | the signature depends only on the entries other than `sign` and `access_token`, not on insertion order |
| Auth.AddExcludedKey | api/utils/auth.py:57-58 | adding `sign` or `access_token` anywhere in a dict leaves the signature as it was |
| Auth.EmptyBodyIsNoBody | api/utils/auth.py:54-67 | no body and an empty body give the same sign string: secret, path, signed entries, secret |
| QueryParams.Get | api/utils/pagination/__init__.py:8-9 | `query_params.get(k)` is the last value given for `k`, and nothing when `k` is absent or its first entry has no value |
| QueryParams.GetParsed | api/utils/pagination/paging.py:6-8 | on a parsed query a value is found exactly for the keys present |
| Pagination.ClampLimit | api/utils/pagination/__init__.py:15 | the limit is always 1 to 1000, and a limit already in range is kept |
| Pagination.ClampOffset | api/utils/pagination/__init__.py:16 | the offset is never negative, and a non-negative one is kept |
| Pagination.GetPagination | api/utils/pagination/__init__.py:6-19 | a limit or offset `int()` rejects raises before any filter is read; otherwise the page is clamped, the filters are those of the filter specification (their error passes through) and the sorts those of the sort specification |
| Pagination.DefaultPage | api/utils/pagination/__init__.py:8-9 | without `limit` or `offset` the page is the first ten rows |
| Pagination.ClampIdempotent | api/utils/pagination/__init__.py:15-16 | clamping twice is clamping once |
| Pagination.PageIsClamped | api/utils/pagination/__init__.py:15-16 | every page returned is left unchanged by clamping |
| PaginationFilter.SplitFirst | api/utils/pagination/filter.py:16-17 | splitting at the first `:` gives an operation without `:` that joins back with the operand into the value |
| PaginationFilter.OperandKeepsColons | api/utils/pagination/filter.py:17 | only the first `:` splits: the operand keeps any later ones |
| PaginationFilter.GetFilter | api/utils/pagination/filter.py:6-20 | the nested loops build exactly the filter specification |
| PaginationFilter.ApplyOperations | api/utils/pagination/filter.py:15-19 | the inner loop over one key's values builds exactly its specification |
| PaginationFilter.ValuesAllowed | api/utils/pagination/filter.py:15-19 | the operations recorded for a key come from its values and are allowed; earlier entries stay unless overwritten |
| PaginationFilter.LastOperationWins | api/utils/pagination/filter.py:19 | the operand kept for an operation is that of the last value naming it |
| PaginationFilter.FilterKeys | api/utils/pagination/filter.py:9-14 | the result's keys are exactly the allowed keys named by some `filter.` parameter, even when none of its values was kept |
| PaginationFilter.EmptyEntryKept | api/utils/pagination/filter.py:13-14 | an allowed key named only with dropped values still gets an empty entry |
| PaginationFilter.NoneAllowedRaises | api/utils/pagination/filter.py:12 | without allowed keys any `filter.` parameter raises, and a query without one gives `{}` |
| PaginationSort.Direction | api/utils/pagination/sort.py:13 | the direction is 1 exactly for `asc`, otherwise -1 |
| PaginationSort.GetSort | api/utils/pagination/sort.py:5-15 | the loop builds exactly the sort specification |
| PaginationSort.SortEntry | api/utils/pagination/sort.py:8-14 | a field is sorted on exactly when some `sort.` parameter names it with an allowed last value, and its direction is 1 for `asc` and -1 otherwise |
| PaginationPaging.ApplyKey | api/utils/pagination/paging.py:6-10 | one allowed key: `limit` and `offset` present in the query are parsed and bounded; no other key is added; it fails only on a present `limit` or `offset` that `int()` rejects, with `int()`'s message quoting that text |
| PaginationPaging.PagingSpec | api/utils/pagination/paging.py:4-11 | the result holds only allowed keys present in the query, with the offset never negative and the limit at most 10 |
| PaginationPaging.ErrorStops | api/utils/pagination/paging.py:8-10 | once a key raises, the later keys are not looked at |
| PaginationPaging.GetPaging | api/utils/pagination/paging.py:1-11 | the loop builds exactly the paging specification, over the default keys when none are given |
| PaginationPaging.LimitHasNoLowerBound | api/utils/pagination/paging.py:8 | a limit below 10, negative ones included, passes through unchanged |
| Promotion.SplitIntoPacks | api/utils/tiktok_base_api/promotion.py:273-288 | the pack-building loop produces exactly the pack specification |
| Promotion.SplitCovers | api/utils/tiktok_base_api/promotion.py:277-285 | the packs laid end to end are the products in order: none lost or repeated |
| Promotion.SplitFits | api/utils/tiktok_base_api/promotion.py:279-285 | every pack holds at most 2999 SKUs, except a pack holding one product that alone has more |
| Promotion.SplitEmpties | api/utils/tiktok_base_api/promotion.py:282-284 | only the first pack can be empty, and it is exactly when the first product alone is over the limit |
| Promotion.SplitGreedy | api/utils/tiktok_base_api/promotion.py:279-285 | each pack after the first starts with a product that did not fit in the pack before it |
| Promotion.PacksProperties | api/utils/tiktok_base_api/promotion.py:273-288 | the packs cover the products in order, are empty exactly for no products, fit the limit, are non-empty after the first, and are filled greedily |
| Promotion.FlattenSkuCount | api/utils/tiktok_base_api/promotion.py:318 | splitting into packs keeps the SKU total |
| Promotion.CreatePromotion | api/utils/tiktok_base_api/promotion.py:262-321 | one promotion per pack in pack order; the summary counts promotions, products and SKUs; at least one promotion exactly when there are products |
| Promotion.PromotionType | api/utils/tiktok_base_api/promotion.py:181 | the promotion type is 3 exactly for a flash sale, 2 exactly for a direct discount, 1 otherwise |
| Promotion.ProductType | api/utils/tiktok_base_api/promotion.py:180 | the product type is 2 exactly for `SKU` and 1 otherwise |
| Promotion.PromotionTypeRoundTrip | api/utils/tiktok_base_api/promotion.py:181 | the three named kinds survive a trip through their code; any other name reads back as a fixed price |
| Promotion.SkuEntries | api/utils/tiktok_base_api/promotion.py:229-243 | one entry per SKU in order, unlimited, with the product and SKU ids and the kind's pricing |
| Promotion.ProductEntries | api/utils/tiktok_base_api/promotion.py:227-256 | one entry per product in order, unlimited, carrying its SKU entries |
| Promotion.PricingMatchesKind | api/utils/tiktok_base_api/promotion.py:238-241 | a flash sale or fixed price sends a promotion price and never a bare discount; other kinds send the discount |
| Promotion.PageCount | api/utils/tiktok_base_api/promotion.py:71 | the page count is the smallest number of 100-product pages covering the total |
| Promotion.AllProductsPages | api/utils/tiktok_base_api/promotion.py:58-94 | no products means no pages fetched; up to 100 means page 1 only |
| Promotion.KeepUnpromoted | api/utils/tiktok_base_api/promotion.py:553-566 | exactly the products no promotion lists are kept, in order |
| Promotion.SecondPageIncluded | api/utils/tiktok_base_api/promotion.py:541-566 | a product on page 2 can be returned, because the list filtered is page 1 extended in place by page 2 |
| Promotion.UnpromotedProducts | api/utils/tiktok_base_api/promotion.py:541-566 | a product is returned exactly when it is on page 1, or on page 2 when there is more than one page, and no promotion lists its id |
| Promotion.UnpromotedProductsAsWritten | api/utils/tiktok_base_api/promotion.py:538-539 | as written, the product-list call lacks the app key and secret, so it always raises |
| Promotion.UnpromotedNeverReturned | api/utils/tiktok_base_api/promotion.py:538-539 | the call as written never yields the products the corrected filter returns |
| Promotion.TaskTitlesDistinct | api/utils/tiktok_base_api/promotion.py:638 | different tasks get different promotion titles |
| Promotion.CreatePromotionTask | api/utils/tiktok_base_api/promotion.py:637-668 | the report is the retry specification's, carries the task's index, and the loop sleeps once after each failure but the last |
| Promotion.TaskFailsAfterThree | api/utils/tiktok_base_api/promotion.py:661-665 | a task that keeps failing makes three attempts and reports the third error |
| Promotion.TaskSucceedsIff | api/utils/tiktok_base_api/promotion.py:641-665 | a task succeeds exactly when one of its three attempts does |
| Promotion.AddUpdateFlashdealMany | api/utils/tiktok_base_api/promotion.py:673-686 | with several products, one task per product, reports in completion order, every index reported once |
| Promotion.TaskIndex | api/utils/tiktok_base_api/promotion.py:659-665 | a task's report carries its own index |
| Promotion.AddUpdateFlashdealSingle | api/utils/tiktok_base_api/promotion.py:687-716 | with at most one product, success exactly when one of three attempts succeeds; a total failure reports the third error after sleeping three times |
| Product.Index | api/utils/tiktok_base_api/product.py:432-433 | a subscript on decoded JSON succeeds exactly on a dict holding the key, with that key's value; otherwise the error is Python's: the quoted key for a dict, the index-type message for a list or a string, "'<type>' object is not subscriptable" for anything else |
| Product.Inventories | api/utils/tiktok_base_api/product.py:230-236 | the inventory list succeeds exactly when every stock passes `int()`, and then has one entry per stock info with the warehouse id as a string and the parsed quantity |
| Product.SkusSpec | api/utils/tiktok_base_api/product.py:219-262 | the SKUs sent are at most those given, and each has some stock above zero |
| Product.SkusErrorStops | api/utils/tiktok_base_api/product.py:219-236 | once a SKU raises, the later SKUs are not looked at |
| Product.BuildSkus | api/utils/tiktok_base_api/product.py:219-262 | the SKU loop builds exactly the SKU specification |
| Product.SkuDropped | api/utils/tiktok_base_api/product.py:237-238 | a SKU is skipped exactly when every stock quantity is at most zero, including a SKU with no stock entries |
| Product.AllStockedKept | api/utils/tiktok_base_api/product.py:237-262 | when every SKU has some stock above zero, none is dropped and their order is kept |
| Product.SkuPayloadJson | api/utils/tiktok_base_api/product.py:239-262 | a SKU's JSON has a `sales_attributes` key exactly when it has sales attributes |
| Product.ValuePayloads | api/utils/tiktok_base_api/product.py:268-270 | one `{id, name}` pair per attribute value, in order, both stringified |
| Product.AttrPayloadOf | api/utils/tiktok_base_api/product.py:272-276 | an attribute's entry carries its id as a string; a missing `attribute_values` is the subscript error, and values that cannot be iterated give "'<type>' object is not iterable" |
| Product.AttributesSpec | api/utils/tiktok_base_api/product.py:264-278 | falsy attributes give an empty list; truthy attributes that cannot be iterated give "'<type>' object is not iterable"; otherwise one entry per attribute, in order |
| Product.CreateProduct | api/utils/tiktok_base_api/product.py:203-315 | the body built is the create-product specification's |
| Product.CreateProductFails | api/utils/tiktok_base_api/product.py:203-315 | building the body fails exactly when a SKU's stock or an attribute cannot be read, and otherwise gives the body of the SKUs and attributes built |
| Product.CreateBodyShape | api/utils/tiktok_base_api/product.py:214-304 | the body carries the SKUs, the images as `{"uri": id}` in order, and a `size_chart` key exactly when the chart is neither `None` nor empty |
| Product.NoSkusRaises | api/utils/tiktok_base_api/product.py:331-369 | as written, a product with no SKUs raises because the attribute list is only bound inside the SKU loop; the corrected body is built |
| Product.CreateOneBodyAsWritten | api/utils/tiktok_base_api/product.py:331-389 | as written, the body is built exactly when the images are iterable and there is at least one SKU, and it is then the corrected body; images that cannot be iterated give "'<type>' object is not iterable"; no SKU gives the `UnboundLocalError` text of `product_attributes_list` |
| Product.CreateOneBody | api/utils/tiktok_base_api/product.py:331-389 | the corrected body is built exactly when the images are iterable; otherwise the error is "'<type>' object is not iterable" for the images' type |
| Product.AsWrittenAgreesWithSkus | api/utils/tiktok_base_api/product.py:331-389 | with at least one SKU the code as written and the corrected body agree |
| Product.BrandRule | api/utils/tiktok_base_api/product.py:386-387 | `brand_id` is sent exactly when it is not empty, with the product's value |
| Product.UploadImage | api/utils/tiktok_base_api/product.py:408-459 | the result is the upload specification's; one post without an id wanted, otherwise up to four, all four when no reply carries an id |
| Product.FirstNeedsBothIds | api/utils/tiktok_base_api/product.py:432 | a first reply without a top-level `img_id` is not taken: a second post is made |
| Product.NoIdGivesLastReply | api/utils/tiktok_base_api/product.py:437-459 | when no reply carries an id, the fourth reply is returned as is |
| Product.IdComesFromReply | api/utils/tiktok_base_api/product.py:433-455 | any id returned is the `data.img_id` of one of the replies |
| Product.EditImages | api/utils/tiktok_base_api/product.py:461-531 | the edit body can be serialised exactly when every upload yielded an id; then the images sent are the product's, then one `{"id": ...}` per uploaded item, in order; otherwise `json.dumps` fails with the "not JSON serializable" `TypeError` and nothing is sent |
| OrderApi.Stripped | api/utils/tiktok_base_api/order.py:493-497 | the shop dict attached to an order loses exactly its access token and cipher |
| OrderApi.CallGetShippingDoc | api/utils/tiktok_base_api/order.py:272-312 | the loop's result is the ten-attempt specification's: the first non-empty `doc_url`, or nothing after all ten attempts |
| OrderApi.ShippingDocNone | api/utils/tiktok_base_api/order.py:288-311 | nothing comes back exactly when none of the ten replies carries a non-empty URL |
| OrderApi.RecordError | api/utils/tiktok_base_api/order.py:340-402 | an error line is added for a shop only when no recorded line mentions it, and afterwards one does |
| OrderApi.SuffixIdBlocks | api/utils/tiktok_base_api/order.py:341 | the substring test also matches longer ids ending in the same digits: an error of shop 11 blocks shop 1 |
| OrderApi.Annotate | api/utils/tiktok_base_api/order.py:419-431 | each fetched order keeps its id and fields and gets the owner and the full shop dict |
| OrderApi.PagesSpec | api/utils/tiktok_base_api/order.py:367-435 | the pages of one status only add error lines for this shop, annotate every order, fetch nothing once an earlier status failed, and leave an error recorded when they fail |
| OrderApi.ListSpec | api/utils/tiktok_base_api/order.py:437-442 | over all statuses the error lines only grow for this shop and every order is annotated |
| OrderApi.FetchOrdersForStatus | api/utils/tiktok_base_api/order.py:361-435 | the nested function returns the orders, errors and failure flag of the status specification |
| OrderApi.ReqGetOrderList | api/utils/tiktok_base_api/order.py:344-442 | the orders and errors returned are those of the list specification, with the page token reset between statuses and the failure flag never reset |
| OrderApi.FailureIsSticky | api/utils/tiktok_base_api/order.py:367-414 | once a reply other than an expired token fails, no later status fetches anything |
| OrderApi.UnknownStatusesFetchNothing | api/utils/tiktok_base_api/order.py:362-364 | statuses outside the known list fetch nothing and record nothing |
| OrderApi.SplitOrdersByShopId | api/utils/tiktok_base_api/order.py:444-456 | the grouping loop builds exactly the grouping specification |
| OrderApi.SplitByShopGroups | api/utils/tiktok_base_api/order.py:444-456 | every order lands in exactly one group, of its own shop, which keeps that shop's orders in their original order |
| OrderApi.SplitByShopPermutes | api/utils/tiktok_base_api/order.py:444-456 | the groups together hold every order exactly as often as the input does |
| OrderApi.ChunksProperties | api/utils/tiktok_base_api/order.py:459-461 | the chunks laid end to end give the list; none is empty or longer than n, and all but the last have exactly n elements |
| OrderApi.ChunksCount | api/utils/tiktok_base_api/order.py:459-461 | there are ceil(len / n) chunks, none for an empty list |
| OrderApi.LastDetail | api/utils/tiktok_base_api/order.py:482 | the dict comprehension keeps the last detail with a given id |
| OrderApi.MergeDetails | api/utils/tiktok_base_api/order.py:483-497 | each order of a slice keeps its place; one with a detail gets the detail's package ids and the stripped shop, the others stay as they were |
| OrderApi.GroupJobs | api/utils/tiktok_base_api/order.py:474-478 | one request per slice of 50 of a shop's orders |
| OrderApi.SubmitJobs | api/utils/tiktok_base_api/order.py:470-478 | the submission loop builds exactly the job specification |
| OrderApi.MergeSlice | api/utils/tiktok_base_api/order.py:483-497 | the loop over a slice merges exactly as the merge specification says |
| OrderApi.ProcessOrdersChunkByShopId | api/utils/tiktok_base_api/order.py:464-500 | the orders returned are the processing specification's, the replies merged in submission order |
| OrderApi.JobsCoverGroups | api/utils/tiktok_base_api/order.py:470-478 | the slices submitted are the groups' orders cut into pieces and laid end to end, each with its own shop |
| OrderApi.MergeJobsPointwise | api/utils/tiktok_base_api/order.py:480-498 | merging keeps each slice's length, and each order comes back untouched or enriched |
| OrderApi.ProcessKeepsOrders | api/utils/tiktok_base_api/order.py:464-500 | as many orders come back as went in, regrouped by shop, each untouched or enriched with its packages and a shop dict without token or cipher |
| ListOrders.InsertStable | api/views/tiktok/order_action/ListOrderAPI.py:52 | inserting a row into the sorted list adds exactly that row |
| ListOrders.StableSort | api/views/tiktok/order_action/ListOrderAPI.py:52 | one sort pass is a permutation of its input |
| ListOrders.InsertKeepsLex | api/views/tiktok/order_action/ListOrderAPI.py:52 | inserting a row that every row precedes under the later criteria keeps the list sorted under all criteria |
| ListOrders.StableSortLex | api/views/tiktok/order_action/ListOrderAPI.py:50-52 | one stable pass on the first criterion over a list sorted by the rest sorts it by all of them |
| ListOrders.SortOrders | api/views/tiktok/order_action/ListOrderAPI.py:49-53 | the result is a permutation of the orders, sorted by the criteria compared first to last, each ascending or descending as given |
| ListOrders.ParseIds | api/views/tiktok/order_action/ListOrderAPI.py:59 | the ids parse exactly when every token is an integer, one id per token in order; otherwise `int()` raises |
| ListOrders.ParseIdsError | api/views/tiktok/order_action/ListOrderAPI.py:59 | a failed parse reports "invalid literal for int() with base 10: '<t>'" for the stripped text `t` of the first token `int()` rejects |
| ListOrders.IdSet | api/views/tiktok/order_action/ListOrderAPI.py:57-62 | an empty value gives no ids; otherwise the set of the tokens' integers, or the error when one is not an integer |
| ListOrders.IdSetMembers | api/views/tiktok/order_action/ListOrderAPI.py:59 | an id is in the set exactly when some token of the comma list reads as it |
| ListOrders.OwnShopIds | api/views/tiktok/order_action/ListOrderAPI.py:72-82 | a shop is listed exactly when the user owns a row for it, it is active, and it was requested when some were |
| ListOrders.GetShopList | api/views/tiktok/order_action/ListOrderAPI.py:56-106 | both id lists are parsed before anything else; the call succeeds exactly when both parse and the user has a group |
| ListOrders.NonManagerScope | api/views/tiktok/order_action/ListOrderAPI.py:71-84 | a non-manager lists only their own active shops, within the requested ones when some are requested, and only themself as user |
| ListOrders.ManagerScope | api/views/tiktok/order_action/ListOrderAPI.py:85-105 | a manager lists the active shops of the group's users, within the requested ones when some are requested, and the requested users, or every user when none are requested |
| ListOrders.TimeBound | api/views/tiktok/order_action/ListOrderAPI.py:126-131 | an absent bound takes its default; a given one parses exactly when `int()` accepts it, and otherwise the error is `int()`'s message quoting the given text |
| ListOrders.OrderFilters | api/views/tiktok/order_action/ListOrderAPI.py:109-134 | the filters parse exactly when both time bounds do; the statuses are the `$in` list or the two awaiting statuses; by default the window is the last three days up to now; the buyer defaults to empty |
| ListOrders.FirstEligible | api/views/tiktok/order_action/ListOrderAPI.py:31-33 | the first of the shop's users, in table order, that exists and is listed, or none exactly when there is none |
| ListOrders.FetchOrdersForShop | api/views/tiktok/order_action/ListOrderAPI.py:26-46 | the orders of the first listed user of the shop are fetched, or none when there is no such user |
| ListOrders.GetAllOrder | api/views/tiktok/order_action/ListOrderAPI.py:136-145 | the orders are the shops' fetches appended in completion order, the same multiset as in shop order |
| ListOrders.ConcatPermutation | api/views/tiktok/order_action/ListOrderAPI.py:141-143 | the orders gathered do not depend on the order in which the shops finish |
| ListOrders.TotalPages | api/views/tiktok/order_action/ListOrderAPI.py:159 | the page count is zero exactly for no items, and otherwise the fewest pages of the limit covering the items |
| ListOrders.ListOrderResponse | api/views/tiktok/order_action/ListOrderAPI.py:147-171 | the response carries every fetched order, unsorted and without the page slice, with its count and the page count for the limit |
| ListOrders.TrackingPrecheck | api/views/tiktok/order_action/ListOrderAPI.py:211-237 | the update goes ahead exactly when the body is a JSON dict with truthy package and tracking ids and the shop exists; malformed JSON and a missing id list are 400, a body that is not a dict is the 500 "'<type>' object has no attribute 'get'", an unknown shop is 404 |
| ListOrders.UpdateTrackingInforAsWritten | api/views/tiktok/order_action/ListOrderAPI.py:211-237 | as written, a request that passes the checks gets the 500 whose text is `KeyError`'s `'url_update_tracking_infor'`, since the URL table has no such key; otherwise the precheck's answer |
| ListOrders.UpdateTrackingNeverSucceeds | api/utils/tiktok_base_api/order.py:560-561 | as written, no request succeeds: one that passes the checks is the 500 of the missing URL key |
| ListOrders.TrackingRequests | api/utils/tiktok_base_api/order.py:562-578 | with the request built for each package, the i-th carries the i-th package id and tracking id; it fails exactly when some tracking id cannot be read, with that error |
| ListOrders.TrackingAt | api/utils/tiktok_base_api/order.py:570 | `tracking_ids[index]` on a list gives the entry exactly when the index is in range, otherwise `IndexError`; a string, a dict and other values give their own results and errors |
| ListOrders.TrackingListRequests | api/utils/tiktok_base_api/order.py:562-570 | with a list of tracking ids, the requests are built exactly when there are at least as many tracking ids as packages, otherwise "list index out of range" |
| ListOrders.UpdateTrackingInfor | api/views/tiktok/order_action/ListOrderAPI.py:211-237 | the corrected endpoint (URL under `url_update_tracking`, shop read by attribute, one request per package) answers the prechecks exactly as the code as written, and answers 200 only with the update message |
| ListOrders.UpdateTrackingCanSucceed | api/utils/tiktok_base_api/order.py:560-579 | with the request sent per package, a well-formed update whose requests are all accepted answers 200, where the code as written answers 500 |
| ProductAction.DraftIds | api/views/tiktok/product_action/__init__.py:150-159 | the draft upload keeps at most one id per input |
| ProductAction.UploadDraftImages | api/views/tiktok/product_action/__init__.py:150-159 | the upload loop keeps exactly the draft specification's ids |
| ProductAction.DraftIdsMembers | api/views/tiktok/product_action/__init__.py:153-157 | an id is kept exactly when it is not empty and some non-`None` input uploads to it |
| ProductAction.DraftIdsAppend | api/views/tiktok/product_action/__init__.py:153-157 | the ids of two batches are the first batch's followed by the second's |
| ProductAction.Classify | api/views/tiktok/product_action/__init__.py:884-894 | a value starting with `https` is downloaded as is; one starting with `white` loses its first six characters and is a main image; anything else is inline and not main |
| ProductAction.ClassifySpec | api/views/tiktok/product_action/__init__.py:884-894 | every image entry is either a download or an inline image |
| ProductAction.ClassifyImages | api/views/tiktok/product_action/__init__.py:884-894 | the first loop sets aside exactly the classification specification's downloads and inline images |
| ProductAction.AllDownloads | api/views/tiktok/product_action/__init__.py:885-887 | every entry is a download exactly when every value starts with `https` |
| ProductAction.FetchSpec | api/views/tiktok/product_action/__init__.py:896-904 | every download either succeeds or is counted failed |
| ProductAction.FetchImages | api/views/tiktok/product_action/__init__.py:896-904 | the first download whose content the image reader rejects (line 1090) raises, with the reader's message; otherwise the futures read back in submission order give exactly the fetch specification |
| ProductAction.AllDownloadsFailed | api/views/tiktok/product_action/__init__.py:896-904 | every download failed exactly when the download fails on every URL |
| ProductAction.Place | api/views/tiktok/product_action/__init__.py:922-933 | a main inline image goes to the front of the queue, any other to the back |
| ProductAction.ArrangeQueue | api/views/tiktok/product_action/__init__.py:922-933 | the second loop builds exactly the arrangement specification |
| ProductAction.ArrangeShape | api/views/tiktok/product_action/__init__.py:922-933 | the queue is the main images in reverse entry order, then the downloaded images, then the other inline images in entry order |
| ProductAction.UploadRunSpec | api/views/tiktok/product_action/__init__.py:1119-1140 | every queued image either yields an id or is counted failed |
| ProductAction.UploadImages | api/views/tiktok/product_action/__init__.py:1119-1152 | the upload loop returns exactly the upload specification |
| ProductAction.UploadFailsIffAllFail | api/views/tiktok/product_action/__init__.py:1141 | the upload fails exactly when every upload failed, the empty queue included; otherwise at least one id comes back |
| ProductAction.UploadKeepsOrder | api/views/tiktok/product_action/__init__.py:1130-1140 | the ids keep queue order |
| ProductAction.ColorIndex | api/views/tiktok/product_action/__init__.py:1201 | the attribute found is the first one named `Color` |
| ProductAction.ColorStep | api/views/tiktok/product_action/__init__.py:1197-1213 | one SKU of the loop stays one SKU: a new colour takes the next variant image, and the Color attribute gets its colour's uri |
| ProductAction.ColorSpec | api/views/tiktok/product_action/__init__.py:1192-1213 | the loop keeps one SKU per SKU, in order |
| ProductAction.ColorStepIdempotent | api/views/tiktok/product_action/__init__.py:1200-1213 | one step over its own output, from the same mapping, gives the same step |
| ProductAction.AssignColorImages | api/views/tiktok/product_action/__init__.py:1192-1215 | without variant images the SKUs are unchanged; with them they are the colour specification's |
| ProductAction.ColorSpecPaints | api/views/tiktok/product_action/__init__.py:1194-1215 | after the loop every SKU's Color attribute carries its colour's uri and nothing else changed; the k-th new colour gets variant image k modulo their number |
| ProductAction.SameColorSameImage | api/views/tiktok/product_action/__init__.py:1207-1213 | two SKUs of the same colour get the same variant image |
| ProductAction.ColorSpecIdempotent | api/views/tiktok/product_action/__init__.py:1194-1215 | running the colour loop again over its own output changes nothing, so rows sharing one SKU list see the same images |
| ProductAction.Submit | api/views/tiktok/product_action/__init__.py:1154-1279 | the product is submitted with exactly the image ids given |
| ProductAction.ProcessItem | api/views/tiktok/product_action/__init__.py:857-974 | the outcome of one row is the item run specification: a raise for a missing image dict, for an unreadable downloaded image or for a non-JSON create reply, otherwise the item specification's result |
| ProductAction.ItemRunSpec | api/views/tiktok/product_action/__init__.py:857-974 | a row without an image dict raises the `.items()` error; a row returns only when every downloaded image is readable, and then returns the item specification's result; an unreadable download always raises |
| ProductAction.SubmitFetched | api/views/tiktok/product_action/__init__.py:905-974 | once every download is in and readable, the E001 check, the uploads and the create call give the item specification's result, raising only for a create reply that is not JSON |
| ProductAction.CallCreateProduct | api/views/tiktok/product_action/__init__.py:1154-1279 | a create reply that is not JSON raises with the parser's message; otherwise the outcome is the submit specification's |
| ProductAction.DownloadCheck | api/views/tiktok/product_action/__init__.py:905-918 | E001 is returned exactly when every image entry is a link and every download failed, so a row with no images always gets E001 |
| ProductAction.UploadCheck | api/views/tiktok/product_action/__init__.py:935-954 | past E001, E002 is returned exactly when every queued upload failed; otherwise the product is submitted with at least one uploaded id followed by the fixed image ids |
| ProductAction.PlanShape | api/views/tiktok/product_action/__init__.py:773-816 | the rows submitted are a prefix of the spreadsheet, each with its own position; with list SKUs only rows that have one |
| ProductAction.ProcessExcel | api/views/tiktok/product_action/__init__.py:698-853 | an unknown shop is the 404 failure with the lookup message; otherwise the reply is the spreadsheet specification: every planned row runs, and the first raising row turns the reply into a 400 failure carrying its message; `HttpResponse({"error": str(e)})` sends only the dict's key, so the 404 and 400 bodies are the text `error` |
| ProductAction.ExcelResultPositions | api/views/tiktok/product_action/__init__.py:773-845 | when no row raised, entry k is for spreadsheet row k numbered from 1 with its title, and is an error exactly when that row's product was not created |
| ProductAction.FirstUnreadable | api/views/tiktok/product_action/__init__.py:1089-1090 | the first download the image reader rejects: none exactly when it reads every one, and every download before the one found is readable |
| ProductAction.LinksAreDownloaded | api/views/tiktok/product_action/__init__.py:884-887 | every image value starting with `https` is set aside for download |
| ProductAction.UnreadableLinkRaises | api/views/tiktok/product_action/__init__.py:884-904 | a row with a link whose content the image reader rejects raises instead of returning a result |
| ProductAction.PlanSpec | api/views/tiktok/product_action/__init__.py:773-816 | every planned submission refers to a row of the spreadsheet |
| ProductAction.Runs | api/views/tiktok/product_action/__init__.py:773-821 | one run per planned submission, each the run of its row |
| ProductAction.RunRows | api/views/tiktok/product_action/__init__.py:773-821 | every planned row is run, in submission order, giving exactly the runs specification |
| ProductAction.FirstRaised | api/views/tiktok/product_action/__init__.py:819-821 | the first run that raised: none exactly when every run returned, and every run before it returned |
| ProductAction.CollectResults | api/views/tiktok/product_action/__init__.py:819-853 | reading the futures back in order gives the collection specification: the first raise ends the view with its 400, otherwise one entry per run |
| ProductAction.CollectAborts | api/views/tiktok/product_action/__init__.py:819-853 | the collection fails exactly when some run raised, with status 400 and the exception of the first raising run as cause (the body sent is the text `error`); otherwise it has one entry per run |
| ProductAction.ExcelAborts | api/views/tiktok/product_action/__init__.py:698-853 | the spreadsheet reply is a failure exactly when some planned row raises; it is then a 400 whose cause is the first such row's exception, and whose body is the text `error` |
| ProductAction.ExcelSpec | api/views/tiktok/product_action/__init__.py:773-853 | a processed reply has one entry per submitted row, never more than the spreadsheet has rows; a failure is a 400 |
| ProductAction.RowWithoutImagesAborts | api/views/tiktok/product_action/__init__.py:857-884 | a planned row without an image dict makes the whole spreadsheet reply a failure |
| ProductAction.UploadEach | api/views/tiktok/product_action/__init__.py:728-751 | the fixed and variant images are each uploaded in order, and every returned id is kept, empty or not |
| ProductAction.SizeChartId | api/views/tiktok/product_action/__init__.py:753-761 | the size chart is uploaded unless its URL is missing, empty or `"null"`, in which case its id is empty |
| OrderAction.ShippingServiceFallback | api/views/tiktok/order_action/__init__.py:208-236 | the reply always lists at least one service: the services found, in order, or the USPS Ground Advantage fallback alone when the call failed or found none |
| OrderAction.LabelsSpec | api/views/tiktok/order_action/__init__.py:255-266 | a batch gives exactly one response per label, in submission order |
| OrderAction.BoughtPackages.constructor | api/views/tiktok/order_action/__init__.py:276-280 | the bought-package table starts with the given rows |
| OrderAction.BoughtPackages.CallCreateLabel | api/views/tiktok/order_action/__init__.py:270-288 | one purchase records a new package id and forwards the reply, answers 404 for an id already bought, and answers the integrity error for a reply without an id |
| OrderAction.BoughtPackages.CreateLabels | api/views/tiktok/order_action/__init__.py:250-268 | the table after a batch and the responses are those of the batch specification |
| OrderAction.LabelsBuyOnce | api/views/tiktok/order_action/__init__.py:276-288 | a package is bought at most once: recorded ids stay distinct, every reply's id is recorded, an id recorded before gets the 404 answer, and a reply without an id gets the integrity error |
| OrderAction.RebuyInBatch | api/views/tiktok/order_action/__init__.py:276-285 | the second label for the same package in one batch gets the 404 answer |
| OrderAction.CallWithRetry | api/views/tiktok/order_action/__init__.py:656-670 | the retry loop returns what the retry specification gives: the first returned value within ten attempts, `None` after ten raises |
| OrderAction.RetryReturns | api/views/tiktok/order_action/__init__.py:653-670 | a URL comes back exactly when some attempt among the ten returns it after only raises before it |
| OrderAction.DocUrlsSpec | api/views/tiktok/order_action/__init__.py:674-684 | at most one URL per package id |
| OrderAction.ShippingDocPost | api/views/tiktok/order_action/__init__.py:648-688 | the reply's `doc_urls` are the truthy URLs in package order |
| OrderAction.DocUrlsMembers | api/views/tiktok/order_action/__init__.py:680-684 | a URL is listed exactly when it is not empty and some package's retry returns it |
| OrderAction.DigitTokens | api/views/tiktok/order_action/__init__.py:1019 | the parsed shop ids are at most one per comma-separated token |
| OrderAction.DigitTokensMembers | api/views/tiktok/order_action/__init__.py:1019 | an id is kept exactly when some token is all digits once stripped and reads as that id |
| OrderAction.DigitTokensEmpty | api/views/tiktok/order_action/__init__.py:1019 | no id is kept exactly when no token passes the digit test |
| OrderAction.TokenId | api/views/tiktok/order_action/__init__.py:1019 | a token yields an id exactly when, stripped, it is all digits; the id is never negative |
| OrderAction.TokenIdReadsDecimal | api/views/tiktok/order_action/__init__.py:1019 | the decimal text of a natural number reads back as that number |
| OrderAction.ConvertUnix | api/views/tiktok/order_action/__init__.py:992-998 | `fromtimestamp` then the shift to UTC+7 succeeds exactly from year 1 to the last second of year 9999 less seven hours; the year error exactly in the rest of the `gmtime` range; outside 64 bits the `time_t` overflow |
| OrderAction.TimeFilter | api/views/tiktok/order_action/__init__.py:1030-1066 | an absent or empty bound gives no filter; a given one is kept exactly when it parses and converts; a parse failure or a year out of range gives the bound's own message, any other error the conversion's |
| OrderAction.PackageFilterSpec | api/views/tiktok/order_action/__init__.py:1015-1125 | every error is one of the four bound messages or a conversion overflow; a shop restriction is never empty; each optional filter is present exactly when its parameter is given |
| OrderAction.PackageFilterTimes | api/views/tiktok/order_action/__init__.py:992-1066 | the filters are built exactly when every given time bound is an integer `fromtimestamp` converts; each given bound is kept; the first failing bound, `create_time[$gte]` first, gives its own 400 message, or the conversion's overflow message |
| OrderAction.PackageFilterShops | api/views/tiktok/order_action/__init__.py:1015-1068 | packages are restricted by shop exactly when the parsed shop id list is not empty |
| OrderAction.ShopIdValueEmpty | api/views/tiktok/order_action/__init__.py:1015-1024 | with no `shop_id` parameter the user's shops are used; with one, the list is empty exactly when no token passes the digit test |
| OrderAction.PageSlice | api/views/tiktok/order_action/__init__.py:1099-1101 | a page holds at most `limit` packages |
| OrderAction.PagesCover | api/views/tiktok/order_action/__init__.py:1099-1106 | the pages before `total_pages` together are the whole list, and every page from `total_pages` on is empty |
| OrderAction.FirstDesign | api/views/tiktok/order_action/__init__.py:1304-1307 | the design found is the first row of the group whose SKU id equals `str()` of the requested value, never for `null`; none is found exactly when the group has no such row |
| OrderAction.CheckSkus | api/views/tiktok/order_action/__init__.py:1300-1331 | one result per SKU id, in order, each the check of that id |
| OrderAction.ValidateSkus | api/views/tiktok/order_action/__init__.py:1241-1333 | 404 without a group; 400 for missing, non-list or more than 1000 SKU ids; otherwise one check per id in order |
| OrderAction.SkuExistsIffDesign | api/views/tiktok/order_action/__init__.py:1304-1322 | a SKU id is reported as existing exactly when it is not `null` and its group has a design whose id is its `str()`; the id is echoed and the design is attached exactly then |
| OrderAction.LookupByStr | api/views/tiktok/order_action/__init__.py:1304-1307 | a non-`null` SKU value finds the same design as its `str()` text |
| OrderAction.PdfOcrPost | api/views/tiktok/order_action/__init__.py:1503-1541 | no documents gives the 400 error list; documents that cannot be iterated, or a non-dict document, give the 500 `Server error: ...` list; otherwise 200 with one result per document, in order |
| OrderAction.EmptyDocumentSkipped | api/views/tiktok/order_action/__init__.py:1518-1527 | a document without truthy PDF data never reaches OCR; its entry is the empty-data error |
| OrderAction.FirstNonDict | api/views/tiktok/order_action/__init__.py:1517-1519 | the first document that is not a dict: none exactly when all are, and every document before it is one |
| OrderAction.OcrStatus | api/views/tiktok/order_action/__init__.py:1503-1541 | truthy documents get their 200 exactly when they are a list of dicts |
| FinanceStats.Bump | api/views/tiktok/statistics_action/FinanceApi.py:366-369 | bumping a counter adds one to that key, reading a missing key as 0, and leaves every other key alone |
| FinanceStats.FindId | api/views/tiktok/statistics_action/FinanceApi.py:375-382 | the entry found is one with the id, and none is found exactly when no entry has it |
| FinanceStats.Insert | api/views/tiktok/statistics_action/FinanceApi.py:411-415 | inserting an entry into the sorted list adds exactly that entry |
| FinanceStats.SortByTotal | api/views/tiktok/statistics_action/FinanceApi.py:411-415 | re-sorting by `TOTAL` is a permutation of the entries |
| FinanceStats.InsertSorted | api/views/tiktok/statistics_action/FinanceApi.py:411-415 | inserting into a list sorted by descending `TOTAL` keeps it sorted |
| FinanceStats.SortByTotalFacts | api/views/tiktok/statistics_action/FinanceApi.py:411-415 | the sort keeps every entry once and orders the list by descending `TOTAL`, with ids still distinct |
| FinanceStats.SortKeepsTallies | api/views/tiktok/statistics_action/FinanceApi.py:440-444 | re-sorting does not change what any entry counts |
| FinanceStats.ItemEvents | api/views/tiktok/statistics_action/FinanceApi.py:372-374 | one product event per line item, in order, each with the item's product id and the order's status |
| FinanceStats.RecordAt | api/views/tiktok/statistics_action/FinanceApi.py:350-364 | counting an order creates its day's entry if missing, changes that day only, and leaves every other day as it was |
| FinanceStats.CountOrder | api/views/tiktok/statistics_action/FinanceApi.py:364-444 | one order counted into its day's statistics gives the day specification's result |
| FinanceStats.TallyOrders | api/views/tiktok/statistics_action/FinanceApi.py:349-444 | the order loop computes the per-day statistics specification and the set of days with orders |
| FinanceStats.StatsCount | api/views/tiktok/statistics_action/FinanceApi.py:349-444 | for orders whose status is not `TOTAL`: a day has an entry exactly when it has an order; its `TOTAL` counts its orders and each status counter its orders with that status; one entry per shop and per product id counts its orders or line items; both lists are sorted by descending `TOTAL` |
| FinanceStats.DayTotalIsSum | api/views/tiktok/statistics_action/FinanceApi.py:366-369 | a day's `TOTAL` is the sum of its status counters, over any list of distinct statuses that covers its orders |
| FinanceStats.DatesOfKeys | api/views/tiktok/statistics_action/FinanceApi.py:349-364 | the dates collected are distinct and are exactly the days with statistics |
| FinanceStats.FormatStats | api/views/tiktok/statistics_action/FinanceApi.py:466-478 | one row per date, each holding that date's statistics, latest date first |
| FinanceStats.StatisticsGet | api/views/tiktok/statistics_action/FinanceApi.py:321-479 | the reply has one row per day that has an order, strictly latest day first, each with that day's statistics |
| FinanceStats.PaymentStatuses | api/views/tiktok/statistics_action/FinanceApi.py:47-52 | an empty `payment_status` filter gives the `PAID` code alone; otherwise the statuses are exactly the comma-separated values |
| FinanceStats.StatementFiltersOf | api/views/tiktok/statistics_action/FinanceApi.py:43-63 | the statement window defaults to the day before `now`; given bounds must read as integers, or the request fails; the query sorts by statement time, 100 per page |
| FinanceStats.FetchStatementsGuard | api/views/tiktok/statistics_action/FinanceApi.py:21-34 | a shop without an owner raises; an owner outside the visible users gets no statements; otherwise the statements are fetched |
| OcrPdf.CleanTrackingId | api/utils/pdf/ocr_pdf.py:99-105 | a cleaned tracking id holds no comma, full stop or space; cleaning twice is the same as cleaning once only when no other whitespace is left (`CleanIdempotent`, `CleanNotAlwaysIdempotent`) |
| OcrPdf.CleanIdempotent | api/utils/pdf/ocr_pdf.py:99-105 | cleaning twice is the same as cleaning once whenever the plain space is the only whitespace in the OCR text |
| OcrPdf.CleanNotAlwaysIdempotent | api/utils/pdf/ocr_pdf.py:99-105 | for any word free of whitespace, commas and full stops, a comma and a newline in front of it clean to the newline and the word, and a second cleaning leaves the word alone: the strip runs before the comma is removed, so cleaning is not idempotent |
| OcrPdf.Lines | api/utils/pdf/ocr_pdf.py:65 | splitting on newlines always gives at least one line, so `parts[0]` and `parts[-1]` exist |
| OcrPdf.PlaceOf | api/utils/pdf/ocr_pdf.py:76-85 | when the last line parses, the zipcode is its last word, and zipcode and state are non-empty single words; it fails where `split()[-1]` raises |
| OcrPdf.ParsedInfo | api/utils/pdf/ocr_pdf.py:62-96 | the block parses exactly when its last line does; the name is the first line and holds no newline; address, city, state and zipcode come from the middle and last lines |
| OcrPdf.ReplaceCharBy | api/utils/pdf/ocr_pdf.py:73-74 | replacing one character by another keeps the length and changes exactly the occurrences of that character |
| OcrPdf.NewlinesToSpaces | api/utils/pdf/ocr_pdf.py:73-74 | the newline loop turns every newline into a space, keeps the length, and leaves no newline |
| OcrPdf.ParseInfo | api/utils/pdf/ocr_pdf.py:62-96 | the parser computes what the parse specification gives, with `None` where the source raises |
| OcrPdf.AddressOneLine | api/utils/pdf/ocr_pdf.py:71-74 | a parsed address holds no newline |
| OcrPdf.BlankLastLineFails | api/utils/pdf/ocr_pdf.py:77 | a blank last line cannot be parsed |
| OcrPdf.BlankTextFails | api/utils/pdf/ocr_pdf.py:64-77 | a blank OCR text cannot be parsed |
| OcrPdf.OneWordLastLineFails | api/utils/pdf/ocr_pdf.py:77-81 | a last line of one word leaves no state, so the block cannot be parsed |
| OcrPdf.OcrPageAsWritten | api/utils/pdf/ocr_pdf.py:108-174 | as written, a page succeeds exactly when the OCR engine is present and the block parses; an unparsable block is the generic OCR error whose text is the `TypeError` of the logging call, "Logger._log() got an unexpected keyword argument 'exec_info'" |
| OcrPdf.ParseFailedNeverReported | api/utils/pdf/ocr_pdf.py:94-96 | as written, the dedicated parse-failure message is never produced |
| OcrPdf.OcrFailedIsNotParseFailed | api/utils/pdf/ocr_pdf.py:94-96 | no generic OCR-error message equals the parse-failure message |
| OcrPdf.OcrPage | api/utils/pdf/ocr_pdf.py:108-174 | a page without the OCR engine is the install error; an unparsable block is the parse-failure error; otherwise success with the cleaned tracking id and the parsed recipient |
| OcrPdf.OcrPageAgrees | api/utils/pdf/ocr_pdf.py:137-174 | the corrected page and the as-written page agree on status and data, and their messages differ exactly for an unparsable page with the OCR engine present |
| OcrPdf.CountStatusSplit | api/utils/pdf/ocr_pdf.py:295-296 | successful and failed pages together are all the pages |
| OcrPdf.CountSuccessPositive | api/utils/pdf/ocr_pdf.py:295-300 | some page succeeded exactly when the success count is positive |
| OcrPdf.NumberedPage | api/utils/pdf/ocr_pdf.py:284-291 | page `n` of a multi-page file carries page number `n` |
| OcrPdf.OcrPages | api/utils/pdf/ocr_pdf.py:284-292 | one result per page, in order, each OCR'd under `<path>_page_<n>` with pages numbered from 1 |
| OcrPdf.ProcessPdfToInfo | api/utils/pdf/ocr_pdf.py:177-312 | missing Poppler is its own error; another rendering exception is the "Có lỗi xảy ra khi xử lý file PDF: " error with its text; no pages is the empty-PDF error; one page is that page's reply; several pages are aggregated, succeeding exactly when some page did, with counts that add up, numbered pages and the `Processed n of m` message |
| GeneratePdf.EncodeVietnameseText | api/utils/pdf/generate_pdf.py:18-62 | the replacement loop computes the fix table applied in order, and empty text gives `''` |
| GeneratePdf.ApplyFixesAbsent | api/utils/pdf/generate_pdf.py:54-57 | text holding none of the rules' keys is left alone by every rule |
| GeneratePdf.EncodedUnchanged | api/utils/pdf/generate_pdf.py:28-62 | text holding none of the table's keys comes back unchanged |
| GeneratePdf.ApplyFixesSplit | api/utils/pdf/generate_pdf.py:54-57 | later rules see the output of earlier ones: the table applied in two parts is the table applied at once |
| GeneratePdf.FixesKeys | api/utils/pdf/generate_pdf.py:32-51 | the dict literal has 17 distinct keys; the key written twice keeps its first position and its last value |
| GeneratePdf.TableData | api/utils/pdf/generate_pdf.py:166-177 | the sheet's table is the header and then one row per field, in order, with the encoded value, a missing field giving `''` |
| CsvToPdf.BatchSpec | api/views/csv_to_pdf/__init__.py:59-80 | every row gives either a page or a failed-row entry, and each entry's index is a row number from 1 |
| CsvToPdf.FailedRowsFaithful | api/views/csv_to_pdf/__init__.py:64-80 | failed rows are listed in row order, each with that row's data and the error that row raised |
| CsvToPdf.EveryFailureListed | api/views/csv_to_pdf/__init__.py:64-80 | every row that raised is listed, and none is listed exactly when every row gave a page |
| CsvToPdf.GenerateRows | api/views/csv_to_pdf/__init__.py:59-80 | the row loop computes the batch specification, with successful and failed counts that add up to the row count |
| CsvToPdf.Post | api/views/csv_to_pdf/__init__.py:22-151 | a body that is not a dict is the 500 `Error generating PDF: ...` from `.get`; empty data and a non-list each get their 400 message; otherwise every reply carries the batch details; no page is a 400; a failed merge is a 500; an authorisation error is the 500 with its message; a failed upload is a 500; success is the only 200 and carries the Drive link, the page count and the file name |
| PermissionAction.EditAccount | api/views/tiktok/permission_action/__init__.py:155-165 | each given field replaces the stored one and an absent field keeps it; the password is replaced by its hash only when non-empty and at most 60 characters; activity and join date are untouched |
| PermissionAction.FirstMembership | api/views/tiktok/permission_action/__init__.py:179-180 | the membership found is one of the user's, and none is found exactly when the user has no membership |
| PermissionAction.AdminDemoted | api/views/tiktok/permission_action/__init__.py:179-190 | as written, editing an administrator's group (role 0, which is falsy) makes them a seller |
| PermissionAction.RoleAfterEdit | api/views/tiktok/permission_action/__init__.py:178-190 | the group change keeps the existing role, and uses the default role only when there is no membership |
| PermissionAction.RoleAfterEditAgrees | api/views/tiktok/permission_action/__init__.py:189 | the corrected and the as-written role agree for every existing role other than the administrator's |
| PermissionAction.OthersOf | api/views/tiktok/permission_action/__init__.py:183 | deleting a user's memberships keeps only rows of other users, all taken from the table |
| PermissionAction.ReplaceGroupFacts | api/views/tiktok/permission_action/__init__.py:178-190 | after the group step the user has exactly one membership, in the new group with the kept role, and every other user's memberships are as they were |
| PermissionAction.ShopsOf | api/views/tiktok/permission_action/__init__.py:196-197 | the user's shop ids are exactly the shops the user is linked to |
| PermissionAction.Prune | api/views/tiktok/permission_action/__init__.py:204 | pruning keeps only existing links, and the user keeps only links to requested shops |
| PermissionAction.AddMissingFacts | api/views/tiktok/permission_action/__init__.py:199-201 | after the create loop every requested shop is linked, no old link is lost, and every new link is the user's to a requested shop |
| PermissionAction.PruneKeeps | api/views/tiktok/permission_action/__init__.py:204 | pruning keeps every link of other users and the user's links to requested shops |
| PermissionAction.SyncShopsExact | api/views/tiktok/permission_action/__init__.py:194-204 | after the shop step the user is linked to exactly the requested shops, and every other user keeps exactly their links |
| PermissionAction.DuplicateRequestDuplicates | api/views/tiktok/permission_action/__init__.py:197-201 | a shop requested twice that the user did not have gets two links, because the id list is not refreshed inside the loop |
| PermissionAction.AddPermission | api/views/tiktok/permission_action/__init__.py:20-23 | a requester may add members exactly when they have a single membership with the manager role; with none the reply is the 404 "does not exist"; with several it is the 500 of `MultipleObjectsReturned`, "get() returned more than one UserGroup -- it returned N!" |
| PermissionAction.RoleAfterEditAsWritten | api/views/tiktok/permission_action/__init__.py:178-190 | as written, the role after a group change is never the administrator's: it is the existing role when that is not 0, and the default role without a membership |
| PermissionAction.SaveKeepsUnique | api/views/tiktok/permission_action/__init__.py:157-165 | saving a user under a username no other user holds keeps every id allocated and the usernames unique |
| PermissionAction.FirstMissingShop | api/views/tiktok/permission_action/__init__.py:99-103 | the position of the first requested shop without a shop row: every shop before it exists, and it is the list's length exactly when all exist |
| PermissionAction.EnrolSpec | api/views/tiktok/permission_action/__init__.py:93-105 | the enrolment steps in order: a clashing user code, a missing group, a clashing membership, then the shop links up to the first missing shop; each failing step keeps the writes before it |
| PermissionAction.EnrolOutcomes | api/views/tiktok/permission_action/__init__.py:93-105 | the enrolment succeeds exactly when no step clashes and every shop exists, and then the member is a seller of the group linked to every requested shop; no outcome loses a membership or link; a code clash writes nothing, a missing group or membership clash writes only the code, a missing shop keeps the links made before it |
| PermissionAction.Directory.constructor | api/views/tiktok/permission_action/__init__.py:15-17 | the directory starts with the given groups and shops and no users, memberships, links or user codes |
| PermissionAction.Directory.SyncUserShops | api/views/tiktok/permission_action/__init__.py:194-204 | the shop loop sets the links to the shop-sync specification and changes nothing else |
| PermissionAction.Directory.Put | api/views/tiktok/permission_action/__init__.py:149-210 | an unknown user is a 404 with nothing changed; a new username that another user holds makes the first save raise (a 500) with nothing written; otherwise the account edit and the user code are saved first, then the group is looked up (a missing one is a 404 that leaves those saves), the membership is replaced with the kept role, the shops are synced and `is_active` is set; usernames stay unique |
| PermissionAction.Directory.SaveAndSync | api/views/tiktok/permission_action/__init__.py:164-208 | the steps of `put` after the account edit leave the tables of the `put` specification: the save, the user code, then the group, the shops and `is_active` unless the group is missing |
| PermissionAction.Directory.MoveToGroup | api/views/tiktok/permission_action/__init__.py:183-190 | the user's memberships are replaced by the one in the new group |
| PermissionAction.Directory.GetOrCreateUser | api/views/tiktok/permission_action/__init__.py:88-90 | an existing user with all the given fields is returned unchanged; otherwise a new active user with those fields is added under the next id; when another user holds the username, the insert fails and nothing changes |
| PermissionAction.Directory.AddUserToGroup | api/views/tiktok/permission_action/__init__.py:67-110 | without the manager permission nothing changes and the reply is the permission's; a username taken with other fields is a 500 with nothing changed; otherwise the member exists (unchanged when found, otherwise new and active with the given fields) and the reply and tables are the enrolment specification's for the group (1 when not given); on success the user code is recorded when given, the seller membership is added unless present, the requested shops are linked once each, and groups and shops are unchanged |
| PermissionAction.LinkAllFacts | api/views/tiktok/permission_action/__init__.py:99-101 | the shop loop keeps every old link, links every requested shop, adds only the user's links to requested shops, and never adds a link twice |
| PermissionAction.Directory.LinkShops | api/views/tiktok/permission_action/__init__.py:99-103 | the loop succeeds exactly when every requested shop exists; the links become the get-or-create loop's result over the shops before the first missing one (all of them on success) |
| PermissionAction.Directory.Enrol | api/views/tiktok/permission_action/__init__.py:93-105 | the reply and the code, membership and link tables are exactly those of the enrolment specification |
| PermissionAction.Directory.AddUsertoGroup | api/views/tiktok/permission_action/__init__.py:18-43 | without the manager permission nothing changes; with the permission, an empty or missing username is the 500 "The given username must be set" of `create_user`, and otherwise a taken username is a 500; both write nothing; on success exactly one new user is created with a hashed password, joins the requester's group as a seller and is linked to every requested shop |
| PermissionAction.MemberEntries | api/views/tiktok/permission_action/__init__.py:243-265 | every entry is for a known user and carries that user's account |
| PermissionAction.ActiveOnly | api/views/tiktok/permission_action/__init__.py:268-270 | the filter keeps exactly the entries of active users |
| PermissionAction.InsertByJoined | api/views/tiktok/permission_action/__init__.py:273-274 | inserting an entry into the ordered list adds exactly that entry |
| PermissionAction.SortByJoined | api/views/tiktok/permission_action/__init__.py:273-274 | the sort is a permutation of the entries |
| PermissionAction.SortByJoinedSorted | api/views/tiktok/permission_action/__init__.py:273-274 | the sorted entries are newest `date_joined` first |
| PermissionAction.BuildEntries | api/views/tiktok/permission_action/__init__.py:243-265 | the view's loop builds exactly the member-entry specification |
| PermissionAction.UserShopListAll | api/views/tiktok/permission_action/__init__.py:233-276 | the reply is the listing specification: 404 for an unknown group, else its active managers and sellers, newest first |
| PermissionAction.ListingSound | api/views/tiktok/permission_action/__init__.py:243-274 | every listed user is active and has a manager or seller membership of the group, and the list is newest first |
| PermissionAction.ListingComplete | api/views/tiktok/permission_action/__init__.py:243-270 | every active user with a manager or seller membership of the group is listed |
| TemplateAction.AsciiLower | api/views/tiktok/template_action/__init__.py:24-27 | lowering keeps the length and maps exactly the ASCII capitals to their small letters |
| TemplateAction.TemplateList | api/views/tiktok/template_action/__init__.py:20-34 | the listed templates are exactly the selected rows of the table |
| TemplateAction.TemplateKinds | api/views/tiktok/template_action/__init__.py:24-31 | "all" lists every template of the user; "custom" in any case lists exactly the custom ones; anything else lists exactly the others |
| TemplateAction.Cleared | api/views/tiktok/template_action/__init__.py:72-89 | clearing sets the fourteen cleared columns to their empty values and leaves every other column as stored |
| TemplateAction.NormalisedAt | api/views/tiktok/template_action/__init__.py:91-107 | each of the seven keys becomes `null` when absent or equal to its empty value, and keeps its value otherwise; a `null` `images_link_variant` becomes `[]`; no other key is added or changed |
| TemplateAction.NullIfAt | api/views/tiktok/template_action/__init__.py:92-93 | one adjustment sets its key to `null` when absent or empty, keeps the key's value otherwise, and leaves every other key alone |
| TemplateAction.TemplateTable.constructor | api/views/tiktok/template_action/__init__.py:17-18 | the template table starts with the given rows |
| TemplateAction.TemplateTable.Put | api/views/tiktok/template_action/__init__.py:68-115 | an unknown id is a 404 with nothing changed; otherwise the cleared template is saved first, so an invalid request leaves it cleared; a valid one saves the validated fields over the cleared ones |
| TemplateAction.PutKeepsCleared | api/views/tiktok/template_action/__init__.py:72-113 | a cleared column that the validated request does not set keeps its cleared value |
| TemplateAction.Group | api/views/tiktok/template_action/__init__.py:197-206 | when grouping succeeds the listed days are distinct and are exactly the grouped days |
| TemplateAction.GroupFacts | api/views/tiktok/template_action/__init__.py:197-206 | grouping fails exactly when some entry's time does not parse; otherwise each day with an entry is kept once, as its first entry carrying the products of all that day's entries in order |
| TemplateAction.SliceTo | api/views/tiktok/template_action/__init__.py:210 | `[:days]` keeps a prefix whose length follows Python's slice rules, a negative `days` counting from the end |
| TemplateAction.ListedDates | api/views/tiktok/template_action/__init__.py:209-210 | every listed day is one of the grouped days |
| TemplateAction.ListedNewest | api/views/tiktok/template_action/__init__.py:209-210 | the listed days run strictly newest first, there are `days` of them (or all when fewer exist, Python's rule for a negative `days`), and every day left out is older than every day listed |
| TemplateAction.GroupDesigns | api/views/tiktok/template_action/__init__.py:197-206 | the grouping loop computes the grouping specification, failing where a time does not parse |
| TemplateAction.TemplateDesignLit | api/views/tiktok/template_action/__init__.py:190-212 | the reply is the listing specification: the grouped entries of the listed days, newest first |
| Flashship.CheckRow | api/utils/flashship/flashshipapi.py:23-36 | a saved row's SKU reads `size/colour` with the variant's size and colour, its type is one of the three product types, and its id is kept; a stopping row never gives the success or no-file reply |
| Flashship.SkuRoundTrip | api/utils/flashship/flashshipapi.py:28-36 | a SKU `size/colour` without another slash, with a valid type, is saved with exactly that size and colour |
| Flashship.BadSkuRejected | api/utils/flashship/flashshipapi.py:28-31 | a SKU that does not split into exactly two parts is rejected with its row number |
| Flashship.FirstStop | api/utils/flashship/flashshipapi.py:23-36 | every row before the stop passes, and the stop row, when there is one, fails |
| Flashship.Variants | api/utils/flashship/flashshipapi.py:36 | one variant per passing row, in row order, each the row's checked variant |
| Flashship.ImportReplyFacts | api/utils/flashship/flashshipapi.py:23-41 | the import succeeds exactly when every row passes; an invalid SKU or type reply names the first failing row, with every row before it passing |
| Flashship.VariantTable.constructor | api/models.py:146-160 | the variant table starts empty |
| Flashship.VariantTable.SaveVariantDataFromExcel | api/utils/flashship/flashshipapi.py:13-41 | no file is the 400 reply and an unreadable sheet the 500, both saving nothing; otherwise the reply is the import reply, and the rows before the first failing one are saved, in order |
| TiktokFinance.Annotate | api/utils/tiktok_base_api/finance.py:47-58 | a statement gains its `shop_owner` and `shop` entries, built from the owner and the shop, and keeps every other key |
| TiktokFinance.AnnotateAll | api/utils/tiktok_base_api/finance.py:47-58 | one annotated statement per statement of the page, in order |
| TiktokFinance.NextQuery | api/utils/tiktok_base_api/finance.py:31-33 | every request is sent with the status being listed |
| TiktokFinance.Pages | api/utils/tiktok_base_api/finance.py:30-60 | paging sends at least one request, starting with the first query, and at most one more than the page allowance |
| TiktokFinance.PagesFacts | api/utils/tiktok_base_api/finance.py:30-60 | every listed statement carries the shop and owner tags, and every request asks for the status being listed |
| TiktokFinance.PagesBase | api/utils/tiktok_base_api/finance.py:31-33 | paging changes only `page_token` and `payment_status` of the query |
| TiktokFinance.Fresh | api/utils/tiktok_base_api/finance.py:27-33 | the corrected first request of a status carries no page token and asks for that status |
| TiktokFinance.FreshSameBase | api/utils/tiktok_base_api/finance.py:27-33 | the corrected first request of a status does not depend on the tokens or statuses a query already carried |
| TiktokFinance.AllIsPerStatus | api/utils/tiktok_base_api/finance.py:14-23 | the corrected listing skips invalid statuses and concatenates, in the order given, each valid status's own listing, which does not depend on the statuses before it |
| TiktokFinance.StaleTokenCarried | api/utils/tiktok_base_api/finance.py:26-33 | as written, listing `PAID` (two pages) then `SETTLED` sends the first `SETTLED` request with `PAID`'s last page token; the corrected listing sends it without one |
| TiktokFinance.AllAsWritten | api/utils/tiktok_base_api/finance.py:14-33 | as written, every statement is tagged with the shop and its owner, every request asks for one of the valid statuses, and a request is sent exactly when some status is valid |
| TiktokFinance.All | api/utils/tiktok_base_api/finance.py:14-33 | the corrected listing tags every statement with the shop and its owner, asks only for valid statuses, and sends a request exactly when some status is valid |
| TiktokFinance.AppendPage | api/utils/tiktok_base_api/finance.py:47-58 | the inner loop appends the page's statements, each tagged, in order |
| TiktokFinance.PagesStep | api/utils/tiktok_base_api/finance.py:30-60 | one turn of the paging loop: an expired token or a non-200 reply stops with nothing from that page; otherwise the page is kept and the loop goes on exactly when there is a next token |
| TiktokFinance.PageTurn | api/utils/tiktok_base_api/finance.py:30-60 | one loop turn sends the request with token and status set, appends the page, and continues while there is a next token and the allowance is not spent |
| TiktokFinance.GetStatementsByStatus | api/utils/tiktok_base_api/finance.py:26-62 | the paging loop computes the paging specification from a query with no stale page token |
| TiktokFinance.AllStep | api/utils/tiktok_base_api/finance.py:16-22 | one turn of the status loop skips an invalid status and otherwise lists the status and threads the query on |
| TiktokFinance.GetStatementsAll | api/utils/tiktok_base_api/finance.py:14-23 | the status loop computes the all-statuses specification, and its statements are the per-status listings concatenated |
| TiktokFinance.TransactionsUrl | api/utils/tiktok_base_api/finance.py:83-86 | the transactions URL is the statements URL, a slash, the statement id and the transactions suffix |
| TiktokFinance.ReplaceOnceFacts | api/utils/tiktok_base_api/finance.py:84-86 | replacing the `{statement_id}` placeholder, whose first character occurs nowhere else, replaces its one occurrence |
| ObjectCreate.KwProductCreateMultiDistinct | api/utils/objectcreate.py:66-80 | the twelve keyword parameters of `ProductCreateMultiObject` are distinct names |
| ObjectCreate.SalesAttributeFromKwargs | api/utils/objectcreate.py:41-46 | building succeeds exactly when the keywords are the two required ones plus an optional `sku_img`; a missing or `None` image becomes the empty dict |
| ObjectCreate.DefaultImageSerialised | api/utils/objectcreate.py:46-53 | an attribute built without an image serialises its image as the text `{}` |
| ObjectCreate.SalesAttributeRoundTrip | api/utils/objectcreate.py:41-53 | serialising and rebuilding an attribute keeps its name and value and turns the image into its `str()`; an image that is already a string comes back unchanged |
| ObjectCreate.SkuRoundTrip | api/utils/objectcreate.py:1-18 | rebuilding a SKU from its `to_json` gives the same SKU, with attributes and stocks in the same order, once images are strings |
| ObjectCreate.AttributesRoundTrip | api/utils/objectcreate.py:3-5 | rebuilding the serialised attribute list gives the same list, the empty list included |
| ObjectCreate.FalsyAttributesEmpty | api/utils/objectcreate.py:3-5 | a SKU given `None` or an empty attribute list has no attributes |
| ObjectCreate.ProductCreateMultiObjectRoundTrip | api/utils/objectcreate.py:65-109 | rebuilding a product from its `to_json` gives the same product: the SKUs are converted, every other field, size chart and raw attributes included, is kept |
| Pipeline.DownloadWithDefaults | api/utils/pdf/download_pdf.py:38-146 | a download with the default three attempts always returns, keeps the URL, and a success carries bytes that one of the three attempts fetched from the converted URL |
| Pipeline.EachDownloaded | background_processor.py:192-230 | one result per URL, in URL order whatever the completion order, each the download of that URL |
| Pipeline.DownloadedFrom | api/utils/pdf/download_pdf.py:59-146 | a successful download carries bytes that one of the remaining attempts received |
| Pipeline.FinishTask | background_processor.py:119-176 | merging, uploading and saving produce the terminal-row specification, store that row under the task's id, leave every other task as it was and append the row to the history; a task that reaches the upload sends its PDF as `combined_labels_<id>_<stamp>.pdf`, the stamp being the upload clock as `%Y%m%d_%H%M%S` |
| Pipeline.FinishSpec | background_processor.py:119-176 | a merge failure is reported exactly when the merge fails, keeping its failed URLs; a raise before the upload (Drive authentication) exactly when the merge succeeded and authentication failed, its text stored as the error message |
| Pipeline.FinishIsTerminal | api/tasks.py:46-97 | the terminal row is COMPLETED exactly when the upload succeeded, and FAILED with a message otherwise; the completion time is set; identity, URLs, start time and Celery id are kept; only a completed task gets a new link |
| Pipeline.FinishCounts | background_processor.py:119-170 | with one download per URL, a task that reached the upload accounts for every URL once and merged at least one; a merge failure counts every URL as failed |
| Pipeline.FinishUpload | api/tasks.py:60-89 | a completed task's link is the `webViewLink` of a file the upload created and shared; a failed upload is reported after all three attempts with the last Drive error |
| Pipeline.ThreeAttempts | api/utils/google/googleapi.py:75-155 | with three attempts the upload always ends; a link is the `webViewLink` of a file one attempt created and shared without a permission error; a failure carries "Failed to upload after 3 retries: " and the third attempt's error |

## Left out

- Threads, futures and `as_completed` are modelled as sequential steps; where the completion order matters it is a parameter.
- Polling sleeps, backoff sleeps, clocks and time zones: pauses are returned as values and timestamps are plain naturals given as inputs.
- HTTP requests, request signing with HMAC-SHA256, and timestamps in signed queries: each endpoint call is an oracle, and the HMAC is an uninterpreted function.
- PyPDF2, reportlab, PIL, pytesseract and poppler: page rendering and OCR are oracles. The OCR model starts from the recognised text of a page.
- PDF layout and the crop boxes of the OCR step are not modelled.
- The MOCK_OCR random branch of `process_pdf_to_info` is not modelled.
- Floating-point money: the `round(float(...), 2)` sums of the statistics views and the promotion price computation. Only the integer counters and orderings are modelled.
- Django and ORM machinery: querysets, the serializer framework and model saving. Tables are sequences or maps. The sign-up validation is modelled field by field; only Django's e-mail format check and password validators are oracles.
- api/utils/constants/statement.py and api/utils/constants/pagination.py are not part of this model. The valid payment statuses and the allowed filter and sort fields are parameters.
- `urllib.parse.urlparse(url).path` in the signers is a parameter.
- JSON `null` values inside request bodies are modelled only where the source tests for them.
- TemplateDesign contents that lack `time` or `products` are not modelled.
- `TemplateDesignLit.get` assumes the `days` query parameter has already been parsed to an integer.
- `TemplateAction.AsciiLower`: models `str.lower()` on ASCII only. No other character lowers to a letter of "custom" or "all", so the comparison is unchanged.
- FinanceStats: the nested statistics dict is a map, so the insertion order of the day keys is not modelled. The reply lists days through an explicit sort.
- FinanceStats.StatsCount: assumes no order has the status literally named `TOTAL`. Such an order would share its counter with the total.
- `variant_id` values of the wrong type in the FlashShip import, and spreadsheet cells other than text, are reduced to the `AttributeError` text of a failed `split`.
- PermissionAction.Directory.AddUserToGroup: the `IntegrityError` 500s (a taken username, a clashing user code or membership, a requested shop id with no shop row) carry fixed texts (`UsernameTaken`, `CodeTaken`, `MembershipTaken`, `NoShop`); the database's own wording of those errors is not modelled.
- PermissionAction.Directory.Enrol and PermissionAction.EnrolSpec: same fixed `IntegrityError` texts as AddUserToGroup.
- PermissionAction.Directory.GetOrCreateUser and PermissionAction.Directory.AddUsertoGroup: a taken username is the fixed text `UsernameTaken`, not the database's wording.
- PermissionAction.Directory.Put: the 500 for a taken username (`SaveFailed`) carries no text, since Django's uncaught-exception page is not modelled.
- Constant.SalesAttributeFromKwargs, Constant.StockInfoFromKwargs, Constant.AttributeValueFromKwargs, Constant.ProductAttributeFromKwargs, Constant.SkuFromKwargs, Constant.ProductCreateObjectFromKwargs, Constant.ProductCreateOneObjectFromKwargs, Helpers.SalesAttributeFromKwargs, Helpers.SkuFromKwargs, Helpers.ProductObjectFromKwargs, ObjectCreate.SalesAttributeFromKwargs, ObjectCreate.SkuFromKwargs and ObjectCreate.ProductCreateMultiObjectFromKwargs: a constructor call with an unknown or missing keyword gives the fixed text `TypeErrorArgs`; Python's own message names the argument and differs between versions.
- ProductAction.ProcessExcel: the failure keeps the exception's text as its cause, although the 400 and 404 bodies sent are the text `error`.
- PermissionAction.Directory.AddUsertoGroup: a requested shop id with no shop row is linked as if the shop existed. The `IntegrityError` the database would raise there is not modelled.
- PermissionAction.Directory.Put: a requested shop id with no shop row is linked as if the shop existed. The `IntegrityError` the database would raise there is not modelled.
- BackgroundProcessing.BackgroundProcessor.Round: requires the scheduler to be running. The `if not self.running: break` inside the submit loop is not modelled, because `stop()` from another thread is concurrency.
- TaskStore.Store.Create: requires a clock that does not go back, so that the table stays newest first as the model's `created_at` ordering expects.
- OcrPdf.CleanTrackingId: cleaning is idempotent only when the cleaned id holds no whitespace other than the plain space (`CleanIdempotent`). `CleanNotAlwaysIdempotent` shows an input where it is not.
- TiktokFinance.Pages: the source's `while` loop over `next_page_token` is unbounded. The model follows at most `maxPages` pages after the first, so a server that never stops paging is cut off there.
- TiktokFinance.GetStatementsByStatus and TiktokFinance.GetStatementsAll: same `maxPages` bound.
- OrderApi.FetchOrdersForStatus and OrderApi.ReqGetOrderList: the `next_page_token` loop is bounded by `fuel` pages in the same way.
- BackgroundProcessing.ProcessSingleTask: for a task row deleted while it is processed, the `except` handler saves the stale instance as FAILED, which re-inserts the row. The model reports the failure and writes nothing for a missing row, since its table has no re-insert.
- BackgroundProcessing.ProcessOutcome: same gap as ProcessSingleTask for a row deleted during processing; the re-inserted FAILED row is not promised.
- Text.InvalidLiteral: always quotes the rejected text in single quotes; Python's `repr` switches to double quotes for a text holding a single quote and escapes control characters.
- Text.ParseInt: reads ASCII digits with surrounding whitespace and one sign. The underscores and non-ASCII decimal digits that Python's `int()` also accepts are not modelled.
- OrderAction.TokenId: `str.isdigit()` is modelled on ASCII only. Superscript digits, which pass `isdigit()` but make `int()` raise the 400 "Invalid shop_id format, must be integers.", and other scripts' decimal digits, which `int()` reads, are not modelled.
- OrderAction.ConvertUnix: the bounds are those of a 64-bit `time_t` and glibc's `gmtime`; other platforms draw the error ranges elsewhere.
- ProductAction.ProcessExcel: an image reader or other error while uploading the shared fixed, variant or size-chart images (also a 400), a body that is not a JSON dict, rows that are not dicts, and image values that are not strings are not modelled.
- Endpoints with no logic of their own, `html_template.py`, the scripts, and the admin and URL configuration are outside the core and are not modelled.

## Findings

| source | as written | input that shows it | evidently intended | confidence | as-written member | corrected member |
|---|---|---|---|---|---|---|
| api/utils/tiktok_base_api/promotion.py:538-539 | `callProductList` is called without `app_key` and `app_secret`, which its signature at product.py:18 requires, so the call raises `TypeError` before any request | any call, e.g. a shop whose first page holds one unpromoted product | fetch both product pages and return the products no promotion lists | not executed | Promotion.UnpromotedProductsAsWritten, Promotion.UnpromotedNeverReturned | Promotion.UnpromotedProducts, Promotion.SecondPageIncluded |
| api/utils/tiktok_base_api/product.py:331-369 | `product_attributes_list` is assigned only inside the SKU loop, so a product with no SKUs raises `UnboundLocalError` | a `ProductCreateOneObject` with iterable images and `skus == []` | build the attribute list once, after the SKU loop | not executed | Product.CreateOneBodyAsWritten, Product.NoSkusRaises | Product.CreateOneBody, Product.BrandRule, Product.AsWrittenAgreesWithSkus |
| api/utils/tiktok_base_api/order.py:560-579 | the URL is looked up under `url_update_tracking_infor`, a key the URL table (api/utils/constant.py:54) names `url_update_tracking`, so a `KeyError` ends every call; behind it, the shop model is subscripted (`shop["shop_cipher"]`, a `TypeError`), and the body, signature and post sit after the loop, so only the last package would be sent | `package_ids ["p1"]`, `tracking_ids ["t1"]`, an existing shop: 500 "'url_update_tracking_infor'" | look up `url_update_tracking`, read the shop's attributes, and send one signed request per package with its tracking id | not executed | ListOrders.UpdateTrackingInforAsWritten, ListOrders.UpdateTrackingNeverSucceeds | ListOrders.UpdateTrackingInfor, ListOrders.TrackingRequests, ListOrders.TrackingAt, ListOrders.TrackingListRequests, ListOrders.UpdateTrackingCanSucceed |
| api/utils/pdf/ocr_pdf.py:94-96 | the parser's handler calls `logger.error(..., exec_info=e)`, an unknown keyword that raises `TypeError`, so `_ocr_image` reports a generic OCR error instead of its parse-failure message | a recipient block whose last line is one word, or blank | log the error and return `None`, giving the parse-failure reply | not executed | OcrPdf.OcrPageAsWritten, OcrPdf.ParseFailedNeverReported | OcrPdf.OcrPage, OcrPdf.OcrPageAgrees, OcrPdf.OcrPages, OcrPdf.ProcessPdfToInfo |
| api/views/tiktok/permission_action/__init__.py:178-190 | `role=existing_role or 2` treats the administrator role 0 as missing | an administrator (role 0) whose group is edited becomes a seller (role 2) | keep the existing role, using the default only when there is no membership | not executed | PermissionAction.RoleAfterEditAsWritten, PermissionAction.AdminDemoted | PermissionAction.RoleAfterEdit, PermissionAction.RoleAfterEditAgrees, PermissionAction.Directory.Put |
| api/utils/tiktok_base_api/finance.py:26-33 | `page_token` is written into the shared `query` dict and never removed, so the next status starts from the previous status's last token | statuses `PAID` then `SETTLED`, where `PAID` has two pages | start each status without a page token | not executed | TiktokFinance.AllAsWritten, TiktokFinance.StaleTokenCarried | TiktokFinance.All, TiktokFinance.AllIsPerStatus, TiktokFinance.GetStatementsAll |
