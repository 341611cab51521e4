# A verified model of the BCO-DMO migration and repair scripts

The BCO-DMO migration scripts are one-shot Python programs. Each wraps a
small, deterministic transformation in S3, HTTP or DynamoDB calls. This
project models those transformations in Dafny and proves what the scripts
promise about them. Every remote call becomes input data or an oracle
function: a list of keys, an object body, a sequence of HTTP replies, or the
shutdown flag.

The model follows the repository's structure:

- **Laminar regression comparator** (`laminar_floating_point_error/process.py`):
  - `process_steps.dfy`: validating and redirecting the dump step.
  - `process_http.dfy`: the bounded request retry, and the poll loop with its status mapping.
  - `interrupt.dfy`: the shutdown flag.
  - `process_compare.dfy`: the cell-level table diff with interruption checkpoints.
  - `process_files.dfy`: per-prefix file matching by ETag.
  - `process_pipeline.dfy`: outcome precedence and the single rerun.
  - `process_main.dfy`: the result slots and the summary.
- **Number formats** (`convert.py`, `filter/test.py`):
  - `decimals.dfy`: Python-style decimals with HALF_UP quantisation.
  - `convert.dfy`: format-code parsing and trailing-`#` trimming.
  - `significant.dfy`: the one-unit-in-the-last-place check and its test table.
- **Bug scan and follow-up reports**:
  - `scan_extract.dfy`, `scan_check.dfy`, `scan_main.dfy`: extracting xlsx paths, the first-bug-per-sheet rule, and the sorted records.
  - `laminar_filter.dfy`: the per-author buckets.
  - `laminar_parameters.dfy`: the parameter map with conflict detection.
- **Version-history migrations**:
  - `dump_specs.dfy`: latest-version selection and history-step patching.
  - `state_history.dfy`: change detection over a version window.
  - `new_history.dfy`: history rows chained before/after.
  - `updated_keys.dfy`: same-second key de-duplication.
- **DynamoDB loaders**:
  - `submission_dynamodb.dfy`: FNV-1a keyed index rows.
  - `submission_permissions.dfy`: permission flattening.
  - `listing.dfy`: S3 pagination.
- **Datapackage generator** (`generate_datapackages/script.py`):
  - `generate_lookups.dfy`: the lookups.
  - `generate_pipeline.dfy`: step construction and the single retry.
  - `generate_move.dfy`: moving an existing pipeline.
- **Step counter**: `spec_count.dfy`, with the insertion sort in `sorting.dfy`.
- **Submission-bucket sweeps**:
  - `submission_bucket.dfy`: the shared key pattern and fetch loop.
  - `resource_sweep.dfy`: the shared per-resource repair loop.
  - The repairs themselves: `resources_key.dfy`, `related_pubs.dfy`, `publications.dfy`, `category_key.dfy`, `object_path.dfy`.
  - The reports: `people.dfy`, `comments.dfy`.
- **Laminar-load key repair**: `space_keys.dfy`.

`wrappers.dfy`, `text.dfy`, `json.dfy` and `lists.dfy` hold the shared
definitions:
- Option and Result;
- Python string semantics;
- JSON values as ordered objects;
- filtering.

Each imperative part of a script is a method with loop invariants. The
method is proved equal to a specification function. The script's
properties are lemmas about that function.

## Model

| member | source | states |
|---|---|---|
| ProcessSteps.DumpPositions | conrad_scripts/laminar_floating_point_error/process.py:518-522 | the collected positions are exactly the dump_to_s3 steps, in increasing order |
| ProcessSteps.Validate | conrad_scripts/laminar_floating_point_error/process.py:518-559 | a step that is not a dict makes validation raise the AttributeError case; on success the only dump_to_s3 step is the last, and the copy has as many steps, every step but the last unchanged, and a last step that is still dump_to_s3 |
| ProcessSteps.WithPrefix | conrad_scripts/laminar_floating_point_error/process.py:558-559 | setting the prefix keeps the number of steps, every step but the last, and the last step's run |
| ProcessSteps.ValidateAndModify | conrad_scripts/laminar_floating_point_error/process.py:508-561 | the loop-and-check procedure returns the validated copy, the old prefix and the metadata, or the error it raises, as the validation function defines them |
| ProcessSteps.ValidateAccepts | conrad_scripts/laminar_floating_point_error/process.py:518-552 | validation succeeds iff every step is a dict, exactly one step is dump_to_s3 and it is the last, and its parameters (and a truthy data_manager) are dicts |
| ProcessSteps.NoDumps | conrad_scripts/laminar_floating_point_error/process.py:518-527 | steps without a dump_to_s3 step give no positions, so the "No dump_to_s3 step" error is raised |
| ProcessSteps.ValidateRewritesOnlyPrefix | conrad_scripts/laminar_floating_point_error/process.py:515-559 | the copy keeps every step but the last, and every key of the last step but parameters.prefix, which becomes EXCEL_BUG_TEST/<title>; the old prefix defaults to "" |
| ProcessSteps.ValidateMetadata | conrad_scripts/laminar_floating_point_error/process.py:535-555 | author name and orcid come from a truthy data_manager and are None otherwise; submission ids are the truthy submission_ids or [] |
| ProcessSteps.ValidateIdempotent | conrad_scripts/laminar_floating_point_error/process.py:508-561 | validating the rewritten steps again succeeds and leaves them unchanged |
| ProcessHttp.RetryRequest | conrad_scripts/laminar_floating_point_error/process.py:194-229 | the retry loop returns what the retry function defines (the first response that passes raise_for_status, or the last request exception re-raised), together with the number of calls made |
| ProcessHttp.RetryOutcome | conrad_scripts/laminar_floating_point_error/process.py:208-229 | the request is made 1 to MAX_RETRIES = 5 times; every call before the last failed with a request or HTTP error; the result is the last call's response iff it passed raise_for_status; any other exception is raised at once; a request failure is re-raised only after the fifth call |
| ProcessHttp.RetryFromOutcome | conrad_scripts/laminar_floating_point_error/process.py:208-227 | the same outcome for the loop entered at any attempt, the induction step of the one above |
| ProcessHttp.Registry.Register | conrad_scripts/laminar_floating_point_error/process.py:629-631 | the thread's entry in active_pipelines becomes (cache_id, title), and no other entry changes |
| ProcessHttp.Registry.Unregister | conrad_scripts/laminar_floating_point_error/process.py:716-720 | the thread's entry is removed, if present, and no other entry changes |
| ProcessHttp.StatusReply | conrad_scripts/laminar_floating_point_error/process.py:661-690 | one status reply ends the loop exactly when its pipeline_status (default "UNKNOWN") is not "SENT", and the pair it ends with carries the reply's error |
| ProcessHttp.WaitForCompletion | conrad_scripts/laminar_floating_point_error/process.py:620-720 | the poll loop returns the status the poll function maps the replies to, and on every exit the thread's registry entry is gone and the rest of the registry is unchanged |
| ProcessHttp.PollOutcome | conrad_scripts/laminar_floating_point_error/process.py:639-714 | the shutdown flag is read at least once; a returned status is never "SENT"; "SUCCESS" is returned only without an error message; a flag set on entry gives ("INTERRUPTED", "Processing interrupted by user"); an exception propagates only when the flag was clear at its last read; PollFinal states the mapping of the answering reply |
| ProcessHttp.PollSent | conrad_scripts/laminar_floating_point_error/process.py:684-686 | a reply whose status is "SENT" sends the loop on to the next poll with the flag read once |
| ProcessHttp.PollAnswered | conrad_scripts/laminar_floating_point_error/process.py:663-690 | a reply with any other status ends the loop after one flag read, with the pair FinalAt describes |
| ProcessHttp.FirstAnswer | conrad_scripts/laminar_floating_point_error/process.py:639-690 | the first poll whose reply is not a "SENT" object lies within the polls allowed |
| ProcessHttp.FirstAnswerSent | conrad_scripts/laminar_floating_point_error/process.py:684-686 | every reply before the first answer is "SENT", and the first answer itself is not |
| ProcessHttp.PollInterrupted | conrad_scripts/laminar_floating_point_error/process.py:639-714 | a pair returned while the flag was set at the last read is ("INTERRUPTED", "Processing interrupted by user") |
| ProcessHttp.PollFinal | conrad_scripts/laminar_floating_point_error/process.py:663-690 | any other returned pair comes from the first poll whose reply is not "SENT": "SUCCESS" with a truthy error becomes "ERROR_WITH_SUCCESS", "SUCCESS" without one stays "SUCCESS", every other status is returned as it is, and the error is the reply's own |
| Interrupt.StaysSet | conrad_scripts/laminar_floating_point_error/process.py:159-191 | once shutdown_event is set it stays set for every later read |
| Interrupt.FirstSetIsFirst | conrad_scripts/laminar_floating_point_error/process.py:380-388 | the first read at which the flag is seen set is found within the window, and every earlier read saw it clear; no index means it stayed clear throughout |
| ProcessCompare.CommonRowDiffs | conrad_scripts/laminar_floating_point_error/process.py:390-416 | the column loop of one common row appends exactly the row's mismatching cells, in column order |
| ProcessCompare.ExtraRowCells | conrad_scripts/laminar_floating_point_error/process.py:447-478 | the column loop of one extra row appends one sentinel entry per column |
| ProcessCompare.CommonRows | conrad_scripts/laminar_floating_point_error/process.py:375-416 | the common-row loop reads the flag at each row divisible by 100; it stops at the first such row where the flag is set, having appended the diffs of the rows before it; otherwise it covers every common row |
| ProcessCompare.ExtraRows | conrad_scripts/laminar_floating_point_error/process.py:427-478 | the extra-row loop appends sentinel rows from the shorter table's length on, and stops only at a checkpoint row where the flag is set |
| ProcessCompare.CompareCsvContents | conrad_scripts/laminar_floating_point_error/process.py:294-507 | the downloads and the comparison give the detail and flag cursor that the comparison function defines, including the early returns and the exception path |
| ProcessCompare.CompareDownloaded | conrad_scripts/laminar_floating_point_error/process.py:340-485 | the comparison of two downloaded tables equals the table-comparison function |
| ProcessCompare.AfterCommonRows | conrad_scripts/laminar_floating_point_error/process.py:418-423 | after the common rows, the check before the extra-row pass returns the interrupted detail or continues as the function defines |
| ProcessCompare.ExtraPhase | conrad_scripts/laminar_floating_point_error/process.py:425-485 | the extra-row pass and the final count agree with the table-comparison function |
| ProcessCompare.StoppedAt | conrad_scripts/laminar_floating_point_error/process.py:380-467 | a flag first seen set at a checkpoint gives "Comparison interrupted by user" with the diffs gathered so far and total_differences equal to their number |
| ProcessCompare.StoppedInCommon | conrad_scripts/laminar_floating_point_error/process.py:380-388 | an interrupt at a common-row checkpoint returns the common diffs of the earlier rows |
| ProcessCompare.StoppedAfterCommon | conrad_scripts/laminar_floating_point_error/process.py:418-423 | an interrupt seen before the extra rows returns all common diffs |
| ProcessCompare.StoppedInExtra | conrad_scripts/laminar_floating_point_error/process.py:429-467 | an interrupt at an extra-row checkpoint returns the common diffs plus the sentinel rows before it |
| ProcessCompare.Completed | conrad_scripts/laminar_floating_point_error/process.py:480-485 | with the flag clear at every check, the result holds every common diff then every sentinel entry, error None and total_differences equal to their number |
| ProcessCompare.CheckpointAt | conrad_scripts/laminar_floating_point_error/process.py:378-459 | the i-th read of the flag happens at the i-th checkpoint row |
| ProcessCompare.FirstSetFound | conrad_scripts/laminar_floating_point_error/process.py:380-459 | the comparison stops at the first checkpoint at which the flag is set |
| ProcessCompareFacts.ColDiffsExact | conrad_scripts/laminar_floating_point_error/process.py:390-416 | a row's entries are exactly its mismatching (column, new, original) cells, with the literal strings |
| ProcessCompareFacts.CommonEntriesSound | conrad_scripts/laminar_floating_point_error/process.py:375-416 | every common-row entry is a real mismatch in a common row |
| ProcessCompareFacts.CommonEntriesComplete | conrad_scripts/laminar_floating_point_error/process.py:375-416 | every mismatching cell of the common rows has its entry |
| ProcessCompareFacts.CommonRowMajor | conrad_scripts/laminar_floating_point_error/process.py:375-416 | common-row entries come in row-major order |
| ProcessCompareFacts.ExtraCellsShape | conrad_scripts/laminar_floating_point_error/process.py:447-478 | an extra row gives one entry per column: the new value with "ROW_NOT_IN_ORIGINAL" when the new table is longer, else "ROW_NOT_IN_NEW" with the original value |
| ProcessCompareFacts.ExtraRowMajor | conrad_scripts/laminar_floating_point_error/process.py:425-478 | sentinel entries come in row order |
| ProcessCompareFacts.RowMajor | conrad_scripts/laminar_floating_point_error/process.py:375-478 | all entries gathered up to any row come in row-major order |
| ProcessCompareFacts.ExtraSentinels | conrad_scripts/laminar_floating_point_error/process.py:447-478 | every extra-row entry carries the sentinel on the side that lacks the row |
| ProcessCompareFacts.ExtraCount | conrad_scripts/laminar_floating_point_error/process.py:425-478 | the extra rows give (row difference) times (column count) entries |
| ProcessCompareFacts.CompletedEntries | conrad_scripts/laminar_floating_point_error/process.py:375-480 | a completed comparison's entries are the common diffs followed by the sentinel entries, so total_differences = mismatches + row difference × column count |
| ProcessCompareFacts.CommonGrow | conrad_scripts/laminar_floating_point_error/process.py:375-416 | the common diffs only grow as rows are added |
| ProcessCompareFacts.ReachedGrow | conrad_scripts/laminar_floating_point_error/process.py:375-478 | an interrupted comparison returns a prefix of the complete entry list |
| ProcessCompareFacts.TablesOutcome | conrad_scripts/laminar_floating_point_error/process.py:340-485 | different column lists give headers_match false, "Headers do not match" and no cell entries; otherwise shape_match records equal row counts, total_differences counts the entries, error is None iff no checkpoint saw the flag (then the entries are complete) and otherwise is the interrupt message with a prefix of them |
| ProcessCompareFacts.DownloadOutcome | conrad_scripts/laminar_floating_point_error/process.py:294-318 | a download succeeds iff the object is fetched and the flag is clear after it; a failure carries the cancel message when the flag is set, else the fetch's own error |
| ProcessCompareFacts.ContentsOutcome | conrad_scripts/laminar_floating_point_error/process.py:321-507 | a flag set at the start returns only the interrupt error; a failed download returns an error without headers_match or cell entries; a flag set at the last read always means the interrupt message |
| ProcessFiles.Directory | conrad_scripts/laminar_floating_point_error/process.py:726-728 | the listed prefix always ends with "/" |
| ProcessFiles.ListCsvFiles | conrad_scripts/laminar_floating_point_error/process.py:723-748 | the listing loop returns the keys ending in ".csv", in listing order, and [] when the listing raises |
| ProcessFiles.CsvKeysFilter | conrad_scripts/laminar_floating_point_error/process.py:738-742 | a key is kept iff it is listed and ends in ".csv"; the result is no longer than the listing |
| ProcessFiles.CollectOnlyIn | conrad_scripts/laminar_floating_point_error/process.py:808-818 | the loop collects the names of one side, in order, that the other side lacks |
| ProcessFiles.CompareCsvFiles | conrad_scripts/laminar_floating_point_error/process.py:781-896 | the whole file comparison gives the result and flag cursor that the comparison function defines |
| ProcessFiles.CompareFile | conrad_scripts/laminar_floating_point_error/process.py:836-894 | one pass of the per-file loop body equals the step function: ETag gate, mismatch count, and a detailed comparison unless the flag is set |
| ProcessFilesFacts.FindPut | conrad_scripts/laminar_floating_point_error/process.py:797-798 | after `m[name] = key` the name maps to key and every other name keeps its entry |
| ProcessFilesFacts.PutDistinct | conrad_scripts/laminar_floating_point_error/process.py:797-798 | the name dict never holds a name twice |
| ProcessFilesFacts.LastNamedExists | conrad_scripts/laminar_floating_point_error/process.py:797-798 | a name has a key iff some listed file has that name |
| ProcessFilesFacts.LastNamedIsLast | conrad_scripts/laminar_floating_point_error/process.py:797-798 | a name maps to the last listed file with that name |
| ProcessFilesFacts.NameMapFind | conrad_scripts/laminar_floating_point_error/process.py:797-798 | the dict comprehension has distinct names, each mapped to the last file with that name |
| ProcessFilesFacts.OnlyInMembers | conrad_scripts/laminar_floating_point_error/process.py:808-818 | a name is "only in" one side iff that side has it and the other does not |
| ProcessFilesFacts.InBothMembers | conrad_scripts/laminar_floating_point_error/process.py:821-825 | a name is compared iff both sides have it, and it is paired with both sides' keys |
| ProcessFilesFacts.GroupsPartition | conrad_scripts/laminar_floating_point_error/process.py:808-825 | each file name falls in exactly the group its presence decides: only in new, only in original, or in both |
| ProcessFilesFacts.CountsOrdered | conrad_scripts/laminar_floating_point_error/process.py:840-876 | per-file records count detailed comparisons ≤ files with differences ≤ files compared |
| ProcessFilesFacts.Countable | conrad_scripts/laminar_floating_point_error/process.py:840-841 | the number of pairs from k on with both ETags present is at most the number of those pairs |
| ProcessFilesFacts.FileStepKeeps | conrad_scripts/laminar_floating_point_error/process.py:836-894 | a loop step leaves the only-in lists untouched and keeps the counters consistent with the records |
| ProcessFilesFacts.FileStepCount | conrad_scripts/laminar_floating_point_error/process.py:840-841 | a step counts the file as compared iff both ETags are present and non-empty |
| ProcessFilesFacts.FilesFromKeeps | conrad_scripts/laminar_floating_point_error/process.py:827-894 | the per-file loop leaves the only-in lists untouched and keeps the counters consistent |
| ProcessFilesFacts.FilesFromCount | conrad_scripts/laminar_floating_point_error/process.py:827-894 | the loop either counts every pair with both ETags, or stops with "Comparison interrupted by user" at a read where the flag was set |
| ProcessFilesFacts.CompareFilesOutcome | conrad_scripts/laminar_floating_point_error/process.py:781-896 | detailed comparisons ≤ files_with_differences ≤ total_files_compared ≤ files in both; a flag set on entry gives the empty interrupted result; an error is always the interrupt message |
| ProcessPipeline.RerunOnlyOnce | conrad_scripts/laminar_floating_point_error/process.py:1033-1048 | a pass asks for a rerun only when preserve_missing_values is true, so the rerun (run with false) cannot rerun again |
| ProcessPipeline.PreparePipeline | conrad_scripts/laminar_floating_point_error/process.py:913-956 | reading the entry, the spec, its title and the validated steps gives the result record and prepared steps that the preparation function defines; pipeline_title is recorded before the steps are validated |
| ProcessPipeline.RunOrReuse | conrad_scripts/laminar_floating_point_error/process.py:958-1018 | the reuse-or-run branch equals the execution function, and the active-pipeline registry is left as it was |
| ProcessPipeline.FindFilledIn | conrad_scripts/laminar_floating_point_error/process.py:1034-1048 | the scan finds a cell with original "" and a non-empty new value in a comparison that was not interrupted iff the rerun condition holds |
| ProcessPipeline.ScanHeaders | conrad_scripts/laminar_floating_point_error/process.py:1053-1065 | the header loop's flags and first mismatching filename are those of the scan function |
| ProcessPipeline.ClassifyComparison | conrad_scripts/laminar_floating_point_error/process.py:1052-1096 | the status chosen from the comparison is the classification function's |
| ProcessPipeline.RunPass | conrad_scripts/laminar_floating_point_error/process.py:901-1105 | one call of process_pipeline without the recursive rerun gives the pass function's outcome, and leaves the registry as it was |
| ProcessPipeline.DecideOutcome | conrad_scripts/laminar_floating_point_error/process.py:1025-1096 | the decision after the file comparison (interrupt, rerun, or classification) is the decision function's |
| ProcessPipeline.ProcessPipeline | conrad_scripts/laminar_floating_point_error/process.py:901-1105 | process_pipeline, with its one rerun, returns the processing function's result, and leaves the registry as it was |
| ProcessPipelineFacts.HeaderScanMismatch | conrad_scripts/laminar_floating_point_error/process.py:1056-1065 | a header mismatch is found iff some detailed comparison that was not interrupted has headers_match false |
| ProcessPipelineFacts.HeaderScanFirst | conrad_scripts/laminar_floating_point_error/process.py:1060-1065 | the reported filename is that of the first such comparison; the loop breaks there |
| ProcessPipelineFacts.HeaderScanInterrupted | conrad_scripts/laminar_floating_point_error/process.py:1056-1059 | without a mismatch, the interrupted flag is set iff some detailed comparison was interrupted |
| ProcessPipelineFacts.ClassifyPrecedence | conrad_scripts/laminar_floating_point_error/process.py:1067-1096 | the status is "error" iff a header mismatches; else "interrupted" iff a comparison was interrupted; else "buggy" iff files_with_differences > 0; else "not_buggy". is_buggy is True exactly for buggy and False exactly for not_buggy. A buggy result carries the sum of total_differences. Errors are only appended |
| ProcessPipelineFacts.PrepareFacts | conrad_scripts/laminar_floating_point_error/process.py:913-1103 | the result keeps the entry's pipeline_name; prepared steps come with the spec's first key as title; a failure is reported with status "error"; once the spec and its first value are read, the record carries the title even when validation then raises; a failure before that has no title |
| ProcessPipelineFacts.PrepareNonListSteps | conrad_scripts/laminar_floating_point_error/process.py:939-950 | a "pipeline" value that is not a list (null, a number, a string or a dict) always makes validation raise, and the error record still carries pipeline_title; a value that cannot be iterated is the TypeError case |
| ProcessPipelineFacts.ExecuteFacts | conrad_scripts/laminar_floating_point_error/process.py:961-1018 | existing output is reused iff it exists, and then cache_id is "REUSED_EXISTING_OUTPUT" and the execution status is "SUCCESS"; the result goes on to comparison only with status "SUCCESS"; otherwise it stops as "interrupted" or "error" |
| ProcessPipelineFacts.ExecuteStatus | conrad_scripts/laminar_floating_point_error/process.py:976-1018 | only a "SUCCESS" execution continues; every other exit is "interrupted" or "error" |
| ProcessPipelineFacts.ExecuteStopped | conrad_scripts/laminar_floating_point_error/process.py:994-1018 | after a submitted run, a result that stops is "interrupted" or "error" and reported |
| ProcessPipelineFacts.DecideFacts | conrad_scripts/laminar_floating_point_error/process.py:1025-1096 | a rerun is asked only with preserve true and a filled-in cell; a finished result records the flag it ran with, and with true it holds no filled-in cell unless the flag was set |
| ProcessPipelineFacts.PassFacts | conrad_scripts/laminar_floating_point_error/process.py:901-1105 | a flag set on entry gives the "skipped" record with "Processing interrupted before start"; a pass result is "skipped" iff that happened; rerun only from preserve true |
| ProcessPipelineFacts.ComparedFacts | conrad_scripts/laminar_floating_point_error/process.py:1020-1096 | after the comparison, a finished result is never "skipped" and records the flag it ran with |
| ProcessPipelineFacts.ProcessOutcome | conrad_scripts/laminar_floating_point_error/process.py:901-1105 | process_pipeline always returns a reported result with the entry's name; "skipped" only when the flag was set; a rerun result never claims preserve_missing_values true; a true one has no filled-in cell left unless interrupted |
| ProcessMain.Collect | conrad_scripts/laminar_floating_point_error/process.py:1233-1302 | the completion loop keeps one slot per input entry |
| ProcessMain.IndexOf | conrad_scripts/laminar_floating_point_error/process.py:1153 | an author's position in the tally holds that author, and no position means the author has no entry |
| ProcessMain.CollectAuthors | conrad_scripts/laminar_floating_point_error/process.py:1149-1162 | the author loop builds the tally the tally function defines |
| ProcessMain.SaveResults | conrad_scripts/laminar_floating_point_error/process.py:1114-1203 | the counts and lists computed are the summary function's |
| ProcessMain.Work | conrad_scripts/laminar_floating_point_error/process.py:1108-1111 | a worker call returns process_pipeline's result for the entry, and leaves the registry as it was |
| ProcessMain.CollectResults | conrad_scripts/laminar_floating_point_error/process.py:1233-1302 | the slot array after the completion loop holds, at each input index, what the collection function puts there |
| ProcessMain.FillSkipped | conrad_scripts/laminar_floating_point_error/process.py:1311-1321 | every slot ends up filled: its own result, or the "skipped" record naming its pipeline |
| ProcessMain.RunMain | conrad_scripts/laminar_floating_point_error/process.py:1206-1327 | main's summary is the summary of the completed slots, in input order, with the input count as total expected |
| ProcessMainFacts.AuthorTitlesSnoc | conrad_scripts/laminar_floating_point_error/process.py:1150-1162 | one more buggy pipeline adds its title to its own author's list only; the first orcid is kept |
| ProcessMainFacts.TallyFacts | conrad_scripts/laminar_floating_point_error/process.py:1149-1162 | each author appears once; only truthy author names appear, each with its titles in order, count equal to their number and the orcid of its first pipeline; every buggy pipeline with a truthy author is covered |
| ProcessMainFacts.AddBugFacts | conrad_scripts/laminar_floating_point_error/process.py:1151-1162 | one loop step keeps all three tally properties |
| ProcessMainFacts.SummaryFacts | conrad_scripts/laminar_floating_point_error/process.py:1165-1190 | completed + interrupted + skipped = processed = number of results; buggy + errors ≤ processed; reused + newly executed ≤ processed; success-with-errors and HTTP errors ≤ errors; stopped comparisons ≤ interrupted; was_interrupted iff expected ≠ processed or some interrupt count is positive |
| ProcessMainFacts.RunFacts | conrad_scripts/laminar_floating_point_error/process.py:901-1111 | every worker result is reported under its entry's name, "skipped" only when the flag was set |
| ProcessMainFacts.CollectFacts | conrad_scripts/laminar_floating_point_error/process.py:1245-1302 | the loop fills a slot only with its own entry's result and never empties one; without a shutdown every handed-back entry's slot is filled |
| ProcessMainFacts.CompleteFacts | conrad_scripts/laminar_floating_point_error/process.py:1308-1321 | every final result is reported under its entry's name, or is the unprocessed record; "skipped" only after a shutdown or for an empty slot |
| ProcessMainFacts.MainFacts | conrad_scripts/laminar_floating_point_error/process.py:1233-1327 | every input index gets a result, so processed = expected = number of entries and was_interrupted reduces to an interrupt count being positive |
| ProcessMainFacts.MainNothingSkipped | conrad_scripts/laminar_floating_point_error/process.py:1245-1321 | with no shutdown and every entry handed back, no result is "skipped" |
| Convert.DecimalSection | conrad_scripts/laminar_floating_point_error/convert.py:129-131 | the decimal section keeps only the characters 0, # and ?, and is no longer than the code it came from |
| Convert.Convert | conrad_scripts/laminar_floating_point_error/convert.py:82-154 | the step-by-step converter (hash-counting loop from the right, zero-stripping loop once per hash) returns what the branch-by-branch definition of convert_old/convert_new gives |
| Convert.Converted | conrad_scripts/laminar_floating_point_error/convert.py:82-154 | the result is str(value) exactly when the code contains "@", and Decimal raises only where rendering the (percent-scaled) value at some number of decimals fails |
| Convert.CountTrailingHashes | conrad_scripts/laminar_floating_point_error/convert.py:135-140 | the reversed loop that breaks at the first non-# counts exactly the trailing # of the section |
| Convert.StripZeros | conrad_scripts/laminar_floating_point_error/convert.py:147-150 | the loop that drops a final "0" once per trailing # gives the defined trimming |
| Convert.TrailingHashesRun | conrad_scripts/laminar_floating_point_error/convert.py:135-140 | the count is a run of # at the end of the section, and the character before the run (if any) is not # |
| Convert.TrimOnlyZeros | conrad_scripts/laminar_floating_point_error/convert.py:147-150 | trimming removes at most k characters, all of them "0", from the end of the text and nothing else |
| Convert.Branches | conrad_scripts/laminar_floating_point_error/convert.py:88-152 | a code holding "@" gives str(value); "General" gives the value itself; "General%" gives the value times 100; a code ending in "%" that renders text gets the "%" back at its end |
| Convert.IntegerPath | conrad_scripts/laminar_floating_point_error/convert.py:104-152 | a code without "." renders the value quantized to an integer with ROUND_HALF_UP: exact for whole values, otherwise the nearest integer with ties away from zero (or Decimal raises) |
| Convert.DecimalPath | conrad_scripts/laminar_floating_point_error/convert.py:128-150 | a code with one "." that is not a scientific pattern renders the value quantized to as many decimals as the section has 0/#/? characters, then trims one zero per trailing # |
| Convert.FinishHalfUp | conrad_scripts/laminar_floating_point_error/convert.py:142-152 | the rendered text is the half-up quantized value with the sign kept and the section's exponent, with only trailing zeros removed and "%" appended for a percentage; it raises exactly when the quantization needs more than 28 digits |
| Convert.OldNewDifferOnlyInRendering | conrad_scripts/laminar_floating_point_error/convert.py:14-154 | convert_old and convert_new agree on every code except in the text they render (or where Decimal raises): the @, General, None, engineering and scientific branches are shared |
| Convert.GeneralHandlersAgree | conrad_scripts/laminar_floating_point_error/convert.py:157-173 | both general handlers return the empty string before reaching their rounding code |
| Decimals.HalfUp | conrad_scripts/laminar_floating_point_error/convert.py:142-145 | quantizing with ROUND_HALF_UP to a coarser exponent picks the nearest multiple, ties away from zero, and keeps the sign and takes the requested exponent |
| Decimals.QuantizeExact | conrad_scripts/laminar_floating_point_error/convert.py:111-112 | quantizing to an exponent no finer than the value's own is exact |
| Significant.Directional | conrad_scripts/laminar_floating_point_error/filter/test.py:4-48 | a pair that passes the one-unit test never passes with its arguments swapped |
| Significant.PlainNumeral | conrad_scripts/laminar_floating_point_error/filter/test.py:17-31 | a plain numeral parses as the Decimal of its digits with the exponent minus the fraction length, and has as many decimal places as its fraction |
| Significant.Case | conrad_scripts/laminar_floating_point_error/filter/test.py:29-48 | for two plain numerals the test compares the parsed values at the larger number of decimal places, first minus second, reversed when both are negative |
| Significant.PositiveRow1 | conrad_scripts/laminar_floating_point_error/filter/test.py:55 | 0.54 vs 0.53 passes |
| Significant.PositiveRow2 | conrad_scripts/laminar_floating_point_error/filter/test.py:56 | 0.54 vs 0.52 fails |
| Significant.PositiveRow3 | conrad_scripts/laminar_floating_point_error/filter/test.py:57-61 | 0.53 vs 0.54 fails |
| Significant.PositiveRow4 | conrad_scripts/laminar_floating_point_error/filter/test.py:62 | 24.5 vs 24.4 passes |
| Significant.PositiveRow5 | conrad_scripts/laminar_floating_point_error/filter/test.py:63 | 24.5 vs 24.3 fails |
| Significant.PositiveRow6 | conrad_scripts/laminar_floating_point_error/filter/test.py:64 | 125 vs 124 passes |
| Significant.PositiveRow7 | conrad_scripts/laminar_floating_point_error/filter/test.py:65 | 125 vs 123 fails |
| Significant.PositiveRow8 | conrad_scripts/laminar_floating_point_error/filter/test.py:66-70 | 1.235 vs 1.234 passes |
| Significant.PositiveRow9 | conrad_scripts/laminar_floating_point_error/filter/test.py:71-75 | 1.236 vs 1.234 fails |
| Significant.NegativeRow1 | conrad_scripts/laminar_floating_point_error/filter/test.py:77 | -2.230 vs -2.229 passes |
| Significant.NegativeRow2 | conrad_scripts/laminar_floating_point_error/filter/test.py:78 | -2.231 vs -2.229 fails |
| Significant.NegativeRow3 | conrad_scripts/laminar_floating_point_error/filter/test.py:79 | -2.229 vs -2.230 fails |
| Significant.NegativeRow4 | conrad_scripts/laminar_floating_point_error/filter/test.py:80 | -5.6 vs -5.5 passes |
| Significant.NegativeRow5 | conrad_scripts/laminar_floating_point_error/filter/test.py:81 | -5.7 vs -5.5 fails |
| Significant.NegativeRow6 | conrad_scripts/laminar_floating_point_error/filter/test.py:82 | -126 vs -125 passes |
| Significant.NegativeRow7 | conrad_scripts/laminar_floating_point_error/filter/test.py:83 | -127 vs -125 fails |
| ScanExtract.Items | conrad_scripts/laminar_floating_point_error/script.py:206-208 | a "from" value is iterated as its items: a string as one path, a list as its elements, a dict as its keys; anything else raises |
| ScanExtract.FirstSlash | conrad_scripts/laminar_floating_point_error/script.py:170 | the position found is the first "/" of the text, or there is none |
| ScanExtract.BucketAndPath | conrad_scripts/laminar_floating_point_error/script.py:169-174 | an s3:// URL splits at its first "/" after the scheme into a slash-free bucket and the rest, which put back together give the URL; the split raises exactly when there is no "/" |
| ScanExtract.S3Paths | conrad_scripts/laminar_floating_point_error/script.py:193-194 | every matched key becomes s3://bucket/key, one per match, in order |
| ScanExtract.Pairs | conrad_scripts/laminar_floating_point_error/script.py:208-209 | every path becomes one (pipeline name, stripped path) pair, in order |
| ScanExtract.MatchUrls | conrad_scripts/laminar_floating_point_error/script.py:193-194 | the loop appending matches gives the defined s3 paths |
| ScanExtract.AppendPairs | conrad_scripts/laminar_floating_point_error/script.py:208-209 | the loop appends exactly the defined pairs to the files found so far |
| ScanExtract.ExpandGlobs | conrad_scripts/laminar_floating_point_error/script.py:164-203 | the glob-expansion loop returns the expanded paths of every pattern, or the first pattern's error (not s3, malformed, or no match) |
| ScanExtract.LoadStepPaths | conrad_scripts/laminar_floating_point_error/script.py:159-209 | one step contributes its expanded or literal "from" paths when it is an xlsx load step, and nothing otherwise |
| ScanExtract.StepsLoop | conrad_scripts/laminar_floating_point_error/script.py:158-209 | the loop over the steps returns the defined files of the pipeline, stopping at the first step that raises |
| ScanExtract.ExtractExcelFiles | conrad_scripts/laminar_floating_point_error/script.py:141-211 | extract_excel_files as a whole: an empty spec or a pipeline without "pipeline" gives no files, otherwise the steps' files under the first key's name |
| ScanExtractFacts.ExpandAllOk | conrad_scripts/laminar_floating_point_error/script.py:164-203 | the expansion of all patterns finishes exactly when no single pattern raises |
| ScanExtractFacts.ExpandAllFacts | conrad_scripts/laminar_floating_point_error/script.py:164-203 | expansion succeeds iff every pattern expands; then it gives at least one path per pattern and every path starts with s3:// |
| ScanExtractFacts.StepsFilesFacts | conrad_scripts/laminar_floating_point_error/script.py:158-209 | the files succeed iff every step succeeds, and every file is named after the pipeline |
| ScanExtractFacts.StepsFilesNeedLoad | conrad_scripts/laminar_floating_point_error/script.py:159-161 | a pipeline yields files only if some step is a load step with format xlsx |
| ScanExtractFacts.ExcelFilesFacts | conrad_scripts/laminar_floating_point_error/script.py:149-211 | an empty spec yields nothing; files come only from an object spec's first pipeline with a "pipeline" list holding an xlsx load step, carry that pipeline's name, and every path has no surrounding white space |
| ScanExtractFacts.StepsFilesStripped | conrad_scripts/laminar_floating_point_error/script.py:209 | every recorded path starts and ends with a non-space character or is empty |
| ScanCheck.ColumnLetter | conrad_scripts/laminar_floating_point_error/script.py:262 | the column letter of a column index is a non-empty run of capital letters |
| ScanCheck.ScanRow | conrad_scripts/laminar_floating_point_error/script.py:240-276 | the cell loop stops at the first cell whose old and new renderings differ, and otherwise reports whether every cell was empty |
| ScanCheck.ScanRowsLoop | conrad_scripts/laminar_floating_point_error/script.py:239-283 | the row loop gives the defined sheet outcome: the first bug, or clear once rows run out or 100 empty rows were counted |
| ScanCheck.CheckExcelForBug | conrad_scripts/laminar_floating_point_error/script.py:214-294 | the sheet loop collects at most one bug per sheet and stops with what it has when a converter raises; an unreadable file gives no bugs |
| ScanCheckFacts.ColumnRoundTrip | conrad_scripts/laminar_floating_point_error/script.py:262 | the column letters read back as the column index |
| ScanCheckFacts.LetterRoundTrip | conrad_scripts/laminar_floating_point_error/script.py:262 | every run of capital letters is the letter of exactly one column index |
| ScanCheckFacts.GeneralAgrees | conrad_scripts/laminar_floating_point_error/script.py:248-253 | a cell with the General format never counts as a bug, since both general handlers return "" |
| ScanCheckFacts.ScanJudgeNoGeneral | conrad_scripts/laminar_floating_point_error/script.py:245-262 | the scan's judge never reports a General-format bug |
| ScanCheckFacts.BlankRowsGrow | conrad_scripts/laminar_floating_point_error/script.py:279-283 | the empty-row count never decreases as rows are read |
| ScanCheckFacts.CellsFacts | conrad_scripts/laminar_floating_point_error/script.py:241-276 | a row is clear iff every cell from the start agrees; otherwise the outcome is that of the first disagreeing cell |
| ScanCheckFacts.RowsClear | conrad_scripts/laminar_floating_point_error/script.py:239-283 | the rows from i on are clear iff every cell up to the 100th empty row agrees |
| ScanCheckFacts.RowsEnd | conrad_scripts/laminar_floating_point_error/script.py:239-283 | a sheet that is not clear ends at the first disagreeing cell before the 100th empty row, with its 1-based row number |
| ScanCheckFacts.SheetFacts | conrad_scripts/laminar_floating_point_error/script.py:233-283 | a whole sheet is clear iff all its cells up to the 100th empty row agree, and otherwise reports the first disagreement |
| ScanCheckFacts.RowsAfterBlanksIgnored | conrad_scripts/laminar_floating_point_error/script.py:279-283 | rows appended after the 100th empty row do not change the outcome from row i on |
| ScanCheckFacts.SheetIgnoresRowsAfterBlanks | conrad_scripts/laminar_floating_point_error/script.py:279-283 | rows after the 100th empty row are never looked at |
| ScanCheckFacts.FoundFacts | conrad_scripts/laminar_floating_point_error/script.py:259-276 | a bug names its own sheet and a cell position inside it, and is never of General type under the scan's judge |
| ScanCheckFacts.SheetsFacts | conrad_scripts/laminar_floating_point_error/script.py:233-283 | every bug comes from a sheet whose scan found it; no sheet name gets more bugs than sheets of that name; without a raise, there is one bug per sheet with a finding |
| ScanCheckFacts.CheckExcelFacts | conrad_scripts/laminar_floating_point_error/script.py:214-294 | every bug is of type Other and well placed; an unreadable file gives none; a file gives at most one bug per sheet |
| ScanCheckFacts.SheetsBound | conrad_scripts/laminar_floating_point_error/script.py:233-278 | the sheet loop reports at most one bug per sheet |
| ScanMain.LastUpdated | conrad_scripts/laminar_floating_point_error/script.py:360 | the recorded date is the spec's last-modified time when it has one, and "Unknown" otherwise; never empty |
| ScanMain.FileRecords | conrad_scripts/laminar_floating_point_error/script.py:348-363 | every bug of a file becomes one record naming spec, pipeline, file, sheet, cell and format type, in order |
| ScanMain.ListPipelineSpecs | conrad_scripts/laminar_floating_point_error/script.py:73-86 | the pagination loop collects, page by page, exactly the keys ending in pipeline-spec.yaml |
| ScanMain.AppendFileRecords | conrad_scripts/laminar_floating_point_error/script.py:348-363 | the loop appends exactly the file's records |
| ScanMain.CheckFile | conrad_scripts/laminar_floating_point_error/script.py:342 | checking a file returns what the defined file check gives |
| ScanMain.CheckSpecFiles | conrad_scripts/laminar_floating_point_error/script.py:340-363 | the loop over a spec's files appends every file's records in order |
| ScanMain.RunScan | conrad_scripts/laminar_floating_point_error/script.py:297-406 | main: every spec is parsed, its files extracted and checked, the records collected and sorted newest first; an extraction that raises stops the run |
| ScanMainFacts.SpecKeysFacts | conrad_scripts/laminar_floating_point_error/script.py:80-84 | a key is listed iff it ends in pipeline-spec.yaml and is on some page |
| ScanMainFacts.LocationRoundTrip | conrad_scripts/laminar_floating_point_error/script.py:354 | the error location column-then-row reads back as the column and the row |
| ScanMainFacts.SpecRecordsOk | conrad_scripts/laminar_floating_point_error/script.py:340-363 | every record of a spec is well formed and names that spec |
| ScanMainFacts.AllRecordsOk | conrad_scripts/laminar_floating_point_error/script.py:324-363 | every record collected is well formed and names a listed spec |
| ScanMainFacts.AllRecordsFail | conrad_scripts/laminar_floating_point_error/script.py:337-338 | the run fails iff extraction raises on one of the specs |
| ScanMainFacts.NewerOrders | conrad_scripts/laminar_floating_point_error/script.py:406 | the newest-first comparison on last-updated text is a total preorder, so the sort is well defined |
| ScanMainFacts.ScanOutputFails | conrad_scripts/laminar_floating_point_error/script.py:324-338 | the whole scan fails iff extraction raises on one of the listed specs |
| ScanMainFacts.PermutedRecordsOk | conrad_scripts/laminar_floating_point_error/script.py:406 | reordering the records keeps every record well formed and naming a spec key |
| ScanMainFacts.ScanOutputFacts | conrad_scripts/laminar_floating_point_error/script.py:324-406 | the output is sorted newest first, is a permutation of the collected records, every record is well formed, and none is of General type |
| ScanMainFacts.ScanCheckerOk | conrad_scripts/laminar_floating_point_error/script.py:214-294 | the file check only ever reports well-placed bugs of type Other |
| LaminarFilter.Buckets | conrad_scripts/laminar_floating_point_error/filter/script.py:151-160 | the buckets of the placements, one per placement, in order |
| LaminarFilter.CheckedInId | conrad_scripts/laminar_floating_point_error/filter/script.py:128-139 | the script raises on a resource that is not a dict or whose "bcodmo:" is not a dict; a resource of another category is skipped; an id is returned only for a laminar resource of this title whose check-in Status is "SUCCESS", and it is that resource's resourceId |
| LaminarFilter.Place | conrad_scripts/laminar_floating_point_error/filter/script.py:125-160 | every failure is the Malformed error of this id, and a submission or "bcodmo:" that is not a dict or a submission without "resources" fails; a placement records the id, whether it was attached and the submission's state, in the in-dataset bucket or the one the attached flag picks |
| LaminarFilter.AuthorIndex | conrad_scripts/laminar_floating_point_error/filter/script.py:92-100 | the index found is the first author with that orcid, and there is none when no author has it |
| LaminarFilter.CollectCheckedIn | conrad_scripts/laminar_floating_point_error/filter/script.py:128-139 | the resource loop returns the defined checked-in resource ids, or None where a resource makes the script raise: it or its "bcodmo:" is not a dict, or it is a laminar resource without a key the loop indexes |
| LaminarFilter.ScanPrimary | conrad_scripts/laminar_floating_point_error/filter/script.py:142-144 | the primary-files loop finds a hit iff some primary file is a checked-in id |
| LaminarFilter.ScanSupplemental | conrad_scripts/laminar_floating_point_error/filter/script.py:145-148 | the supplemental-files loop, which breaks at the first hit, finds one iff some supplemental file is a checked-in id |
| LaminarFilter.SearchDatasets | conrad_scripts/laminar_floating_point_error/filter/script.py:140-148 | the dataset loop gives the defined verdict: whether some dataset lists a checked-in id, or None where the script raises on a dataset that is not a dict or on a file list it cannot iterate |
| LaminarFilter.ExamineSubmission | conrad_scripts/laminar_floating_point_error/filter/script.py:120-160 | one submission id is fetched and placed in the in-dataset, not-in-dataset or inferred bucket as the defined placement says, or gives the error raised: a 400 reply, a reply or "bcodmo:" that is not a dict, or a resource or dataset the loops raise on |
| LaminarFilter.PlaceIds | conrad_scripts/laminar_floating_point_error/filter/script.py:120-160 | the loop over the submission ids places every id in order, stopping at the first error |
| LaminarFilter.TriagePipeline | conrad_scripts/laminar_floating_point_error/filter/script.py:59-160 | one pass of the loop over one record gives the defined step: skip, BadRecord where one of the record's reads raises, duplicate, conflict, or filing the pipeline under its author |
| LaminarFilter.CountBuckets | conrad_scripts/laminar_floating_point_error/filter/script.py:162-170 | the four counters are the totals of the four lists over all authors |
| LaminarFilter.TriageBuggyPipelines | conrad_scripts/laminar_floating_point_error/filter/script.py:54-186 | the whole script on the loaded file returns the defined triage of all records, BadInput when the file has no iterable "all_results", or the first error, including every record and every submission the script raises on |
| LaminarFilterFacts.SkipIff | conrad_scripts/laminar_floating_point_error/filter/script.py:60-67 | a step leaves the tally unchanged iff the record is a dict with a falsy is_buggy or one of the two typo specs |
| LaminarFilterFacts.RepeatFacts | conrad_scripts/laminar_floating_point_error/filter/script.py:69-84 | a title already seen is fine iff the record has an orcid and a date and is the same run (orcid, spec and date); it then only counts one more duplicate; with both keys any failure is the conflict that stops the script, and without an orcid the record raises |
| LaminarFilterFacts.SeenKept | conrad_scripts/laminar_floating_point_error/filter/script.py:69-85 | a step keeps every earlier first record of a title and records every title it processes |
| LaminarFilterFacts.FilterSeenKept | conrad_scripts/laminar_floating_point_error/filter/script.py:59-85 | over the whole loop the first record of each title is kept and every processed title is recorded |
| LaminarFilterFacts.InferredIdFacts | conrad_scripts/laminar_floating_point_error/filter/script.py:105-114 | the inferred id holds no "/", is empty off the submissions bucket, and otherwise is the text after the bucket prefix up to the next "/" |
| LaminarFilterFacts.InferredIdOf | conrad_scripts/laminar_floating_point_error/filter/script.py:109-114 | a path written as the submissions bucket, an id and "/..." gives back that id |
| LaminarFilterFacts.CheckedInFacts | conrad_scripts/laminar_floating_point_error/filter/script.py:128-139 | the collection fails iff some resource makes the script raise (it or its "bcodmo:" is not a dict, or a laminar resource lacks a key the loop indexes); otherwise an id is collected iff some laminar resource of this title with a SUCCESS check-in has it |
| LaminarFilterFacts.InDatasetsFacts | conrad_scripts/laminar_floating_point_error/filter/script.py:140-148 | the search fails iff some dataset is not a dict or has a file list that cannot be iterated; otherwise it says yes iff some dataset lists a checked-in id |
| LaminarFilterFacts.ListsFacts | conrad_scripts/laminar_floating_point_error/filter/script.py:142-148 | a dataset counts iff one of the checked-in ids is among its primary or supplemental files |
| LaminarFilterFacts.AuthorIndexFirst | conrad_scripts/laminar_floating_point_error/filter/script.py:93 | the lookup finds the first author with that orcid |
| LaminarFilterFacts.ExamineFaithful | conrad_scripts/laminar_floating_point_error/filter/script.py:120-127 | every placement records the submission id and whether it was attached, and is never in the no-submission bucket |
| LaminarFilterFacts.PlacementsFacts | conrad_scripts/laminar_floating_point_error/filter/script.py:120-160 | the ids' placement fails iff one id fails; otherwise there is one placement per id, in order, each recording its id and whether it was attached |
| LaminarFilterFacts.PlaceFacts | conrad_scripts/laminar_floating_point_error/filter/script.py:125-160 | a submission goes to in-dataset iff some dataset uses one of its checked-in resources; otherwise to not-in-dataset when the id was attached and to inferred when it was not |
| LaminarFilterFacts.FileAllFacts | conrad_scripts/laminar_floating_point_error/filter/script.py:116-160 | filing an author under several buckets keeps name and orcid and appends the record once per occurrence of each bucket |
| LaminarFilterFacts.OccurrencesOfPlacements | conrad_scripts/laminar_floating_point_error/filter/script.py:151-160 | every placement lands in exactly one of the three dataset buckets |
| LaminarFilterFacts.TotalUpdate | conrad_scripts/laminar_floating_point_error/filter/script.py:166-170 | replacing one author changes a bucket's total by the difference of that author's entries |
| LaminarFilterFacts.TotalAppend | conrad_scripts/laminar_floating_point_error/filter/script.py:93-170 | adding an author adds their entries to each bucket's total |
| LaminarFilterFacts.StepCounts | conrad_scripts/laminar_floating_point_error/filter/script.py:86-160 | a new title is read in full, and adds one record per submission id to the three dataset buckets, or one record to no_submission_id when there are no ids, and leaves the duplicate count alone |
| LaminarFilterFacts.FiledCounts | conrad_scripts/laminar_floating_point_error/filter/script.py:101-160 | filing a pipeline's placements adds one record per id, or one no-submission record when there are no ids |
| LaminarFilterFacts.BucketsOccur | conrad_scripts/laminar_floating_point_error/filter/script.py:106-160 | the buckets a pipeline is filed under number one per id in the dataset buckets, or exactly one no-submission bucket when it has no ids |
| LaminarFilterFacts.FileAllTotal | conrad_scripts/laminar_floating_point_error/filter/script.py:151-160 | filing adds to each bucket's total exactly the occurrences of that bucket |
| LaminarFilterFacts.StepSharesRecord | conrad_scripts/laminar_floating_point_error/filter/script.py:92-160 | all records of one new title are one shared record: title and date, and the last id and attached flag (none without ids), appended after the author's earlier entries in every bucket of the author filed under the record's own author_orcid value, null included |
| LaminarFilterFacts.FiledRecord | conrad_scripts/laminar_floating_point_error/filter/script.py:92-160 | after filing, the author exists and each bucket holds their earlier entries followed only by this pipeline's record |
| LaminarFilter.Read | conrad_scripts/laminar_floating_point_error/filter/script.py:86-118 | a new title's record is read iff it has submission_ids, original_prefix and a hashable author_orcid, an author_name when the author is new, a last_updated, submission_ids with a length, and a string excel_file when there are no ids; any failure is BadRecord; the result keeps the record's title, spec, orcid, name and date, the listed ids when there are some, and otherwise at most the one id inferred from the spreadsheet path |
| LaminarFilterFacts.MissingSpecRaises | conrad_scripts/laminar_floating_point_error/filter/script.py:60-68 | a record that is not skipped by is_buggy and has no pipeline_spec (or is not a dict) stops the script with BadRecord |
| LaminarFilterFacts.StatusRecordRaises | conrad_scripts/laminar_floating_point_error/filter/script.py:60-68 | the record process.py writes for a pipeline skipped on shutdown or whose worker thread raised (no is_buggy, no pipeline_spec) stops the triage with BadRecord |
| LaminarFilterFacts.StatusRecordFails | conrad_scripts/laminar_floating_point_error/filter/script.py:59-68 | any all_results holding such a record makes the whole loop fail, on that record or an earlier one |
| LaminarFilterFacts.ExcelFileNotStringRaises | conrad_scripts/laminar_floating_point_error/filter/script.py:106-109 | a new title with an empty submission_ids list and an excel_file that is missing or not a string (null in a failed run's record) raises |
| LaminarFilterFacts.FilterStops | conrad_scripts/laminar_floating_point_error/filter/script.py:59-160 | when the loop reaches a record that raises, the whole loop ends with that record's error |
| LaminarFilterFacts.FoundIffUsed | conrad_scripts/laminar_floating_point_error/filter/script.py:128-148 | the dataset loops find a hit iff some dataset lists a checked-in laminar resource of the pipeline |
| LaminarParameters.BuildParameterMap | conrad_scripts/laminar_floating_point_error/parameters/script.py:69-81 | the parameter loop returns the defined map from each name to its BCO-DMO parameter, or stops on a malformed parameter or a name seen with two types |
| LaminarParameters.CollectParameters | conrad_scripts/laminar_floating_point_error/parameters/script.py:49-85 | the loop over js["all_results"] returns the defined results: it raises on a record without "submission_ids" or "original_prefix" or with a prefix that is not a string, skips a dataset that is not found, and otherwise stores the dataset's parameter map under the record's prefix |
| LaminarParameters.RecordPrefix | conrad_scripts/laminar_floating_point_error/parameters/script.py:50-54 | a record yields a prefix iff it has both "submission_ids" and "original_prefix" and the prefix is a string, and the prefix is that string |
| LaminarParametersFacts.FirstBadRecord | conrad_scripts/laminar_floating_point_error/parameters/script.py:49-54 | the first record that lacks "submission_ids" or "original_prefix", or whose prefix is not a string, ends the run with that record's error once the records before it went through |
| LaminarParametersFacts.CollectAppend | conrad_scripts/laminar_floating_point_error/parameters/script.py:49-85 | the loop over two runs of records is the loop over the first, then the loop over the second from its results, and an error in the first ends it |
| LaminarParametersFacts.CollectObj | conrad_scripts/laminar_floating_point_error/parameters/script.py:49-85 | a finished loop leaves results a dict |
| LaminarParametersFacts.CollectReadable | conrad_scripts/laminar_floating_point_error/parameters/script.py:49-54 | a run that finishes read a string prefix and both keys from every record |
| LaminarParametersFacts.NamedStep | conrad_scripts/laminar_floating_point_error/parameters/script.py:49-85 | a prefix is named by some record whose dataset was found iff the first record names it and its dataset was found, or a later record does |
| LaminarParametersFacts.DatasetIdOf | conrad_scripts/laminar_floating_point_error/parameters/script.py:55-58 | a prefix written as an id without "/" and a "/"-led rest gives back that id |
| LaminarParametersFacts.MissingDatasetSkipped | conrad_scripts/laminar_floating_point_error/parameters/script.py:50-66 | a readable record whose dataset is not found leaves the results unchanged |
| LaminarParametersFacts.SetFacts | conrad_scripts/laminar_floating_point_error/parameters/script.py:81-85 | storing a name gives it the new value, keeps every other entry and adds only that key |
| LaminarParametersFacts.ParameterMapOk | conrad_scripts/laminar_floating_point_error/parameters/script.py:70-80 | the map is built iff no name occurs with two different types (among the parameters and those already in the map) |
| LaminarParametersFacts.ParameterMapKeys | conrad_scripts/laminar_floating_point_error/parameters/script.py:70-81 | the map's names are exactly the earlier names and the names of the parameters |
| LaminarParametersFacts.ParameterMapContents | conrad_scripts/laminar_floating_point_error/parameters/script.py:70-81 | every parameter's name maps to its type, and every other name keeps its earlier value |
| LaminarParametersFacts.ConsistentStep | conrad_scripts/laminar_floating_point_error/parameters/script.py:73-81 | adding a parameter that does not conflict keeps the rest consistent exactly when the whole list was |
| LaminarParametersFacts.CollectFacts | conrad_scripts/laminar_floating_point_error/parameters/script.py:49-85 | a finished run read a prefix from every record, and the results hold exactly the earlier prefixes and the prefixes whose dataset was found, each mapped to its dataset's parameter map; the others are unchanged |
| DumpSpecs.LastTail | fix_laminar_dump_pipeline_specs/script.py:28 | the greedy second group ends at the last position that still matches, and no match exists when none is found |
| DumpSpecs.LastSplit | fix_laminar_dump_pipeline_specs/script.py:28 | the greedy first group takes the last "/" at which the whole pattern matches, with the greedy second group after it; nothing matches when none is found |
| DumpSpecs.Consumed | fix_laminar_dump_pipeline_specs/script.py:20-23 | the number of keys read lies between the start and the end of the listing |
| DumpSpecs.HoldsSkip | fix_laminar_dump_pipeline_specs/script.py:28-36 | a key that does not match or does not parse as two integers changes nothing |
| DumpSpecs.HoldsKeep | fix_laminar_dump_pipeline_specs/script.py:38-40 | a key for a known dataset with a version no newer changes nothing |
| DumpSpecs.HoldsReplace | fix_laminar_dump_pipeline_specs/script.py:38-45 | a newer version of a known dataset replaces its key at the same index |
| DumpSpecs.HoldsAdd | fix_laminar_dump_pipeline_specs/script.py:46-52 | a new dataset appends its key and records its version and index |
| DumpSpecs.BestOther | fix_laminar_dump_pipeline_specs/script.py:38-52 | a key for another dataset does not change a dataset's newest key |
| DumpSpecs.BestNew | fix_laminar_dump_pipeline_specs/script.py:40-45 | a strictly newer version becomes the dataset's newest key |
| DumpSpecs.BestListed | fix_laminar_dump_pipeline_specs/script.py:38-52 | a dataset with a newest key is among the datasets seen |
| DumpSpecs.CollectLatest | fix_laminar_dump_pipeline_specs/script.py:20-52 | the listing loop stops once more than 1000 specs are kept, and keeps, for every dataset seen, the key of its highest version, first seen on ties, one key per dataset |
| DumpSpecs.GetHistoryVersion | fix_laminar_dump_pipeline_specs/script.py:113-143 | the history lookup returns the defined verdict, which raises on a step or history step that cannot be indexed and on a load step whose "parameters" is not a dict |
| DumpSpecs.PatchSteps | fix_laminar_dump_pipeline_specs/script.py:174-189 | the step loop as written patches every step against the history step at the same index, and gives None where a patch raises: on a history step or its "parameters" that is not a dict, and on the False verdict, which cannot be indexed |
| DumpSpecs.RepairPipelines | fix_laminar_dump_pipeline_specs/script.py:146-211 | as intended (see Findings): the pipeline loop returns the defined report of failed, fixed and rebuilt pipelines, keeping the steps of a pipeline answered with False, or None where the lookup or a patch raises |
| DumpSpecsFacts.IdsFacts | fix_laminar_dump_pipeline_specs/script.py:38-52 | the dataset ids seen are distinct and are exactly the ids of matching, parsing keys |
| DumpSpecsFacts.IdsPrefix | fix_laminar_dump_pipeline_specs/script.py:38-52 | the ids seen in a prefix of the listing come first among the ids of the whole listing |
| DumpSpecsFacts.IdsGrow | fix_laminar_dump_pipeline_specs/script.py:46-52 | one key adds at most one id |
| DumpSpecsFacts.BestFacts | fix_laminar_dump_pipeline_specs/script.py:38-45 | a dataset has a newest key iff it was seen; that key parses to the dataset with the highest version seen, and every earlier key has a strictly lower version |
| DumpSpecsFacts.ConsumedFacts | fix_laminar_dump_pipeline_specs/script.py:20-23 | the loop stops exactly after the first key that takes the count of datasets past 1000, and never holds more than 1001 |
| DumpSpecsFacts.SanityCheck | fix_laminar_dump_pipeline_specs/script.py:54-58 | every kept key matches the pattern and no two kept keys share a dataset id, so the assertion holds |
| DumpSpecsFacts.GroupsOf | fix_laminar_dump_pipeline_specs/script.py:28-30 | a key written as id/version/data/pipeline-spec.yaml gives back that id and version |
| DumpSpecsFacts.WalkSkips | fix_laminar_dump_pipeline_specs/script.py:126-137 | steps that neither have a "from" nor mismatch the history are passed over |
| DumpSpecsFacts.HistoryFacts | fix_laminar_dump_pipeline_specs/script.py:122-138 | with a stored history of the same length, the verdict is the history's steps when no step stops the walk, and otherwise that of the first step that does |
| DumpSpecsFacts.MissingHistory | fix_laminar_dump_pipeline_specs/script.py:117-142 | a missing history object or one of a different length gives None |
| DumpSpecsFacts.HasFromAt | fix_laminar_dump_pipeline_specs/script.py:128-134 | the False verdict means some load step from there on already has a "from" |
| DumpSpecsFacts.SetParameterFacts | fix_laminar_dump_pipeline_specs/script.py:182-189 | setting a parameter changes only that parameter of the step |
| DumpSpecsFacts.PatchStepFacts | fix_laminar_dump_pipeline_specs/script.py:175-189 | a load step takes the history's "from" when that is truthy; a dump step takes the history's bucket_name and prefix; other steps are unchanged; patching raises exactly on a step without "run", on a load or dump step whose history step or its "parameters" is not a dict, and on a step to patch without a parameters object |
| DumpSpecsFacts.Listing | fix_laminar_dump_pipeline_specs/script.py:166-172 | each pipeline is listed by its path and title, in order |
| DumpSpecsFacts.NextFacts | fix_laminar_dump_pipeline_specs/script.py:163-201 | as intended: one pipeline raises exactly when its lookup raises or, with a history, a patch raises; otherwise a None verdict adds it to the failed list, a history adds it to the fixed list, and every pipeline not failed is rebuilt |
| DumpSpecsFacts.RepairAllDies | fix_laminar_dump_pipeline_specs/script.py:146-201 | as intended: the run fails iff some pipeline dies |
| DumpSpecsFacts.RepairAllFailed | fix_laminar_dump_pipeline_specs/script.py:165-208 | as intended: missing.json lists exactly the pipelines without a usable history, in order |
| DumpSpecsFacts.RepairAllFixed | fix_laminar_dump_pipeline_specs/script.py:171-211 | as intended: fixed.json lists exactly the pipelines with a history, in order |
| DumpSpecsFacts.RepairAllRebuilt | fix_laminar_dump_pipeline_specs/script.py:174-201 | as intended: every pipeline that is not failed gets a rebuilt spec |
| DumpSpecsFacts.FalsePathRaises | fix_laminar_dump_pipeline_specs/script.py:168-178 | as written, the patch loop raises on every pipeline answered with False, since False is indexed as if it were the history steps |
| DumpSpecsFacts.FalsePathReached | fix_laminar_dump_pipeline_specs/script.py:128-178 | a one-step pipeline whose load step has a "from" gets the False answer and then makes the patch loop raise |
| DumpSpecsFacts.FalsePathKept | fix_laminar_dump_pipeline_specs/script.py:168-170 | with the intended repair, a pipeline answered with False is rebuilt with its steps unchanged and the run goes on |
| StateHistory.GatherVersions | conrad_scripts/submission_put_state_history_ddb/script.py:54-67 | the pagination loop keeps, page by page, exactly the versions whose key equals the object key |
| StateHistory.FirstBefore | conrad_scripts/submission_put_state_history_ddb/script.py:72-76 | the baseline is a version strictly before the start date, and there is none exactly when no version is before it |
| StateHistory.FindBaseline | conrad_scripts/submission_put_state_history_ddb/script.py:72-76 | the loop that breaks at the first version before the start returns the defined baseline |
| StateHistory.SelectVersions | conrad_scripts/submission_put_state_history_ddb/script.py:54-88 | the selected versions are those in the window plus the baseline, oldest first, and the baseline is the newest version before the window |
| StateHistory.FetchStates | conrad_scripts/submission_put_state_history_ddb/script.py:98-110 | whatever order the downloads complete in, slot i holds the state of version i; the result is None, as the script raises, when some datapackage or its "bcodmo:" is not a dict |
| StateHistory.StatesOf | conrad_scripts/submission_put_state_history_ddb/script.py:40-110 | the states exist iff every selected version's datapackage and its "bcodmo:" are dicts; then there is one per version, in order, each that version's state |
| StateHistory.VersionOrcids | conrad_scripts/submission_put_state_history_ddb/script.py:25-37 | the query loop maps every VersionIdAfter of the history table to its orcid, later items overwriting earlier ones |
| StateHistory.Track | conrad_scripts/submission_put_state_history_ddb/script.py:113-156 | the loop records at most one change per version, and previous_value ends as the last version's state (None when that state is null) |
| StateHistory.TrackChanges | conrad_scripts/submission_put_state_history_ddb/script.py:113-162 | the change loop returns the defined tracked changes, previous_value included as written |
| StateHistory.Dates | conrad_scripts/submission_put_state_history_ddb/script.py:139-150 | one date per change |
| StateHistory.PutChanges | conrad_scripts/submission_put_state_history_ddb/script.py:194-236 | one row per change with the de-duplicated Updated key, in order, up to the first row whose key does not increase; the write succeeds iff every key increases |
| StateHistory.ObjectChanges | conrad_scripts/submission_put_state_history_ddb/script.py:48-162 | get_s3_object_version_changes as a whole: None where a download raises, else the tracked changes of the selected versions, their states and the history table's orcids |
| StateHistoryFacts.PageEntriesFacts | conrad_scripts/submission_put_state_history_ddb/script.py:59-67 | a page contributes an entry iff one of its versions has exactly the object key |
| StateHistoryFacts.GatheredFacts | conrad_scripts/submission_put_state_history_ddb/script.py:57-67 | an entry is gathered iff it is on some page under the object key |
| StateHistoryFacts.FirstBeforeNewest | conrad_scripts/submission_put_state_history_ddb/script.py:69-76 | in the newest-first list, the first version before the start is the newest such version |
| StateHistoryFacts.NewestFirstMembers | conrad_scripts/submission_put_state_history_ddb/script.py:69 | sorting newest first keeps exactly the same versions |
| StateHistoryFacts.BaselineFacts | conrad_scripts/submission_put_state_history_ddb/script.py:69-76 | the baseline is the newest version before the start, and there is none iff every version is at or after the start |
| StateHistoryFacts.SelectedSorted | conrad_scripts/submission_put_state_history_ddb/script.py:88 | the selected versions are oldest first |
| StateHistoryFacts.SelectedMembers | conrad_scripts/submission_put_state_history_ddb/script.py:79-85 | a version is selected iff it lies in the inclusive window or is the baseline |
| StateHistoryFacts.SelectedBaselineFirst | conrad_scripts/submission_put_state_history_ddb/script.py:84-88 | the baseline, when there is one, comes first |
| StateHistoryFacts.OrcidMapFacts | conrad_scripts/submission_put_state_history_ddb/script.py:33-35 | a version id is mapped iff some history item has it as VersionIdAfter, and it maps to the orcid of the last such item |
| StateHistoryFacts.TrackMatches | conrad_scripts/submission_put_state_history_ddb/script.py:113-156 | without null states, the loop's changes are the intended ones and previous_value ends at the last state |
| StateHistoryFacts.ExpectedMembers | conrad_scripts/submission_put_state_history_ddb/script.py:123-156 | a change is emitted iff its version is the first non-baseline version or its state differs from the one before, and it carries that version's date, state, id and orcid ("unknown" when missing) |
| StateHistoryFacts.ExpectedLast | conrad_scripts/submission_put_state_history_ddb/script.py:145-156 | the last emitted change carries the state the loop ends with |
| StateHistoryFacts.ExpectedDiffer | conrad_scripts/submission_put_state_history_ddb/script.py:146-156 | consecutive changes have different states |
| StateHistoryFacts.ExpectedDates | conrad_scripts/submission_put_state_history_ddb/script.py:88-156 | the changes are in date order |
| StateHistoryFacts.ExpectedPrefix | conrad_scripts/submission_put_state_history_ddb/script.py:118-156 | the changes of a prefix of the versions are a prefix of the changes |
| StateHistoryFacts.FirstEmitted | conrad_scripts/submission_put_state_history_ddb/script.py:130-145 | when the first selected version is not the baseline it is always emitted first |
| StateHistoryFacts.BaselineUnchanged | conrad_scripts/submission_put_state_history_ddb/script.py:132-146 | with a baseline and no state change, nothing is emitted |
| StateHistoryFacts.ExpectedKeysIncrease | conrad_scripts/submission_put_state_history_ddb/script.py:209-225 | for changes of whole-second dates in date order with fewer than 1000 of a date, the Updated keys strictly increase and the assertion holds |
| StateHistoryFacts.NullRepeats | conrad_scripts/submission_put_state_history_ddb/script.py:130-156 | as written, a null state does not count as a previous value, so two versions with null state give two changes with the same state |
| NewHistory.AlnumRun | conrad_scripts/submission_generate_new_history/script.py:43 | the run of letters and digits at the start of the key, and the character after it is not one |
| NewHistory.ObjectIdOf | conrad_scripts/submission_generate_new_history/script.py:43-45 | the object id is the leading alphanumeric run exactly when "/datapackage.json" follows it, and nothing else can match |
| NewHistory.CollectVersions | conrad_scripts/submission_generate_new_history/script.py:51-64 | the version loop accumulates every response's versions until one lacks NextVersionIdMarker, and fails on a response without "Versions" |
| NewHistory.Oldest | conrad_scripts/submission_generate_new_history/script.py:71 | the versions oldest first, one per version |
| NewHistory.Times | conrad_scripts/submission_generate_new_history/script.py:73-77 | one time per version |
| NewHistory.UpdatedOf | conrad_scripts/submission_generate_new_history/script.py:75-91 | one Updated key per version |
| NewHistory.ObjectRows | conrad_scripts/submission_generate_new_history/script.py:70-122 | one row per version |
| NewHistory.WriteRows | conrad_scripts/submission_generate_new_history/script.py:66-122 | the rows written are the object's rows up to the first key that does not increase; the write succeeds iff all keys increase, and rows_added counts the failing row too |
| NewHistory.ListKeys | conrad_scripts/submission_generate_new_history/script.py:34-128 | the listing loop visits the keys of every page until an empty page or one without a continuation token, and reports a raise when a page has no "Contents" |
| NewHistory.HandleObject | conrad_scripts/submission_generate_new_history/script.py:46-125 | one object adds its rows and counts as updated, or stops the run where listing versions or the assertion fails |
| NewHistory.HandleKey | conrad_scripts/submission_generate_new_history/script.py:37-45 | a key counts as processed, and is handled iff it has an object id |
| NewHistory.Migrate | conrad_scripts/submission_generate_new_history/script.py:31-131 | the whole script gives the defined summary of rows, counter, updated and rows_added over the keys listed, marked failed when the listing raised |
| NewHistoryFacts.CollectUpTo | conrad_scripts/submission_generate_new_history/script.py:53-64 | the versions are those of the responses up to the first one without a marker, later ones are never read, and a response without "Versions" fails |
| NewHistoryFacts.ObjectRowsChain | conrad_scripts/submission_generate_new_history/script.py:66-122 | rows are written oldest first with orcid "unknown"; the first row's VersionIdBefore is "" and each later one's is the previous row's VersionIdAfter |
| NewHistoryFacts.ObjectKeysIncrease | conrad_scripts/submission_generate_new_history/script.py:71-91 | for whole-second times with fewer than 1000 of a time, every version gets a row and the keys strictly increase |
| NewHistoryFacts.RunTallies | conrad_scripts/submission_generate_new_history/script.py:72-125 | rows_added is the number of rows written, or one more after a failed assertion; without a failure every key is counted and updated counts the objects handled |
| NewHistoryFacts.NoEndAnchor | conrad_scripts/submission_generate_new_history/script.py:43 | the match has no end anchor: "ab/datapackage.json.bak" is handled as object "ab" |
| UpdatedKeys.Keys | conrad_scripts/submission_put_state_history_ddb/script.py:209-218 | one key per time |
| UpdatedKeys.Admitted | conrad_scripts/submission_put_state_history_ddb/script.py:219-222 | the rows admitted are those before the first key that fails the assertion |
| UpdatedKeys.AssignKeys | conrad_scripts/submission_put_state_history_ddb/script.py:194-225 | the de-duplication loop gives each time plus the length of its run of equal earlier times, and stops at the first key that does not increase on the previous one |
| UpdatedKeysFacts.KeysIncrease | conrad_scripts/submission_put_state_history_ddb/script.py:209-225 | times in order with fewer than 1000 equal in a run give strictly increasing keys, so the assertion holds |
| UpdatedKeysFacts.NewestFirstRejected | conrad_scripts/submission_put_state_history_ddb/script.py:219-222 | times newest first make the assertion fail |
| Fnv.TextHash | submission_dynamodb/script.py:60 | the hash of the object id's UTF-8 bytes is a 32-bit value |
| Fnv.Utf8Char | submission_dynamodb/script.py:60 | a character encodes as one to four bytes, and an ASCII character as itself |
| Fnv.Utf8 | submission_dynamodb/script.py:60 | the encoding of a text is a sequence of bytes |
| SubmissionIndex.ClassRun | submission_dynamodb/script.py:26 | the run of characters of the class [a-zA-z0-9] at the start of the key, and the character after it is not in the class |
| SubmissionIndex.IsDpKey | submission_dynamodb/script.py:26-39 | a key is kept iff the anchored pattern matches it |
| SubmissionIndex.BuildRows | submission_dynamodb/script.py:43-64 | the loop over the kept keys gives the defined rows, stopping at the first datapackage that (or whose "bcodmo:") is not a dict, or that is not deleted and has no usable "updated" |
| SubmissionIndex.PutDps | submission_dynamodb/script.py:10-64 | put_dps as written: the rows of the keys the listing loop collects, where the loop follows the echoed ContinuationToken and a page without keys (S3 then omits "Contents") raises |
| SubmissionIndexFacts.FnvVectors | submission_dynamodb/script.py:60 | FNV-1a gives 0x811c9dc5 for no bytes and 0xe40c292c for "a" |
| SubmissionIndexFacts.Utf8Ascii | submission_dynamodb/script.py:60 | an ASCII text encodes as its character codes |
| SubmissionIndexFacts.FnvFoobar | submission_dynamodb/script.py:60 | FNV-1a of "foobar" is 0xbf9cf968 |
| SubmissionIndexFacts.FnvSteps | submission_dynamodb/script.py:60 | FNV-1a of the bytes of "foobar" is 0xbf9cf968 |
| SubmissionIndexFacts.FnvFoo | submission_dynamodb/script.py:60 | FNV-1a of the bytes of "foo" is 0xa9f37ed7 |
| SubmissionIndexFacts.IntToStringFacts | submission_dynamodb/script.py:58 | str(int) has no ".", starts with "-" exactly for negatives, and otherwise is the decimal numeral |
| SubmissionIndexFacts.IntToStringInjective | submission_dynamodb/script.py:58 | different integers have different decimal texts |
| SubmissionIndexFacts.UpdatedReadsBack | submission_dynamodb/script.py:57-61 | the Updated key is the seconds' text, a ".", and the decimal digits of the object id's hash, and each part reads back |
| SubmissionIndexFacts.UpdatedKeyDecodes | submission_dynamodb/script.py:57-61 | equal Updated keys mean equal seconds and equal hashes |
| SubmissionIndexFacts.UnderscoreAdmitted | submission_dynamodb/script.py:26 | the range A-z admits "_", so "a_b/datapackage.json" is kept |
| SubmissionIndexFacts.DashRejected | submission_dynamodb/script.py:26 | a key with "-" in its id is not kept |
| SubmissionIndexFacts.ObjectIdOfListed | submission_dynamodb/script.py:26-51 | the object id is the key without "/datapackage.json", and a key kept through the "$" before a final newline keeps an extra "/" |
| SubmissionIndexFacts.DpKeysMembers | submission_dynamodb/script.py:37-40 | a key is collected iff it is listed and the pattern matches it |
| SubmissionIndexFacts.RowsFacts | submission_dynamodb/script.py:43-64 | the rows succeed iff every non-deleted datapackage is readable and has a usable "updated"; then there is one row per non-deleted datapackage, in order, with its object id, state and type; a failure names a non-deleted key, and it is the not-a-dict case exactly when the datapackage or its "bcodmo:" is not a dict, and "UPDATED NOT FOUND" exactly when "updated" is then missing or empty |
| SubmissionIndexFacts.PutDpsNeverLoads | submission_dynamodb/script.py:27-35 | as written, a listing of more than one page is never finished; reading NextContinuationToken instead loads the rows of every page |
| S3Listing.Request | submission_dynamodb/script.py:28-33 | a request carries the token iff there is a non-empty one |
| S3Listing.ListAll | submission_dynamodb/script.py:23-40 | the while-truncated loop gives the defined listing and how it ended: finished, raised on a page without keys (S3 then omits "Contents"), or cut by the fuel |
| S3ListingFacts.ListFrom | submission_permissions_dynamodb/script.py:27-37 | following NextContinuationToken from page i lists the keys of every later page and finishes |
| S3ListingFacts.NextListsAll | submission_permissions_dynamodb/script.py:27-37 | following NextContinuationToken lists the keys of every page, in order, and finishes |
| S3ListingFacts.EchoedLoops | submission_dynamodb/script.py:27-35 | reading ContinuationToken (absent in a response) re-requests the first page: the first page's keys repeat once per request |
| S3ListingFacts.EchoedNeverEnds | submission_dynamodb/script.py:27-35 | reading ContinuationToken never finishes a listing of more than one page |
| SubmissionPermissions.PageGrants | submission_permissions_dynamodb/script.py:37-49 | the loop over a page's objects gives the defined grants of each object, in order, or the first failure |
| SubmissionPermissions.JsonGrants | submission_permissions_dynamodb/script.py:39-49 | a null document gives no grants; a list gives one per item |
| SubmissionPermissions.Crawl | submission_permissions_dynamodb/script.py:23-49 | a first page without keys (S3 then omits "Contents") makes the crawl raise |
| SubmissionPermissions.GatherPermissions | submission_permissions_dynamodb/script.py:23-49 | the pagination loop gives the defined crawl: the grants of every listed object following NextContinuationToken, or the raise on a page without "Contents" |
| SubmissionPermissions.ItemFields | submission_permissions_dynamodb/script.py:54-59 | the put item carries the grant's orcid, object id, type and permission |
| SubmissionPermissions.PutPermissions | submission_permissions_dynamodb/script.py:50-60 | one item per grant, in order, with its four fields |
| SubmissionPermissionsFacts.GrantsFacts | submission_permissions_dynamodb/script.py:41-49 | the items give grants iff every item has id, type and permission; then one grant per item, named by the object's key |
| SubmissionPermissionsFacts.ObjectGrantsFacts | submission_permissions_dynamodb/script.py:40-49 | a null document gives no grants, a list one per item, and every grant is named by the key |
| SubmissionPermissionsFacts.RecordsAppend | submission_permissions_dynamodb/script.py:37-49 | the grants of two runs of keys are the grants of the first followed by those of the second |
| SubmissionPermissionsFacts.CrawlFrom | submission_permissions_dynamodb/script.py:27-49 | from page i, the crawl gives the grants of the keys of every later page |
| SubmissionPermissionsFacts.CrawlAll | submission_permissions_dynamodb/script.py:27-49 | the crawl gives the grants of the keys of every page, in order |
| GenerateLookups.LastIndex | generate_datapackages/script.py:68 | the index found holds the character and no later index does; no index means the character does not occur |
| GenerateLookups.MatchesMembers | generate_datapackages/script.py:111-116 | a path is collected exactly when it is listed, holds "/id/version/data/pipeline-spec.yaml" and holds neither "/working/" nor "/work/" |
| GenerateLookups.FindPipelineSpecMatch | generate_datapackages/script.py:111-122 | the assertion fails iff more than one path matches; no result iff no listed path matches; otherwise the result is the one listed matching path |
| GenerateLookups.OnlyMatch | generate_datapackages/script.py:118-121 | with one match, every matching listed path is that match |
| GenerateLookups.LatLonFields | generate_datapackages/script.py:125-131 | an unknown dataset has no columns; a known one gives its lat_column and lon_column, and raises iff one of them is missing |
| GenerateLookups.SpeciesColumnsOwned | generate_datapackages/script.py:134-141 | the lookup succeeds iff every row it inspects is readable, and then gives the species_column of each row whose dataset id is this one, in order |
| GenerateLookups.SpeciesFields | generate_datapackages/script.py:134-141 | the loop over the species rows gives the species columns of the dataset's own rows, in order, and fails iff a row lacks a needed key |
| GenerateLookups.SpeciesStopAt | generate_datapackages/script.py:136-139 | once the loop has raised on a prefix of the rows, the whole lookup raises the same way |
| GenerateLookups.Normalise | generate_datapackages/script.py:459-488 | the id is column 0; a version that is not an integer of ASCII digits becomes "0" and is recorded as false-versioned; a ".tsv" suffix is cut from the title; the url is the generated data url for a Primary dataset and column 3 otherwise |
| GenerateLookupsFacts.ExtractDigitTail | generate_datapackages/script.py:67-68 | a one-line url ending in "/" and ASCII digits gives those digits as the dataset id |
| GenerateLookupsFacts.ExtractOneLine | generate_datapackages/script.py:67-68 | on a one-line url the id is the url unchanged or the ASCII digit tail that follows its last "/" |
| GenerateLookupsFacts.NormaliseVersion | generate_datapackages/script.py:470-475 | after normalisation every version parses as an integer |
| GenerateLookupsFacts.OwnedMembers | generate_datapackages/script.py:137-138 | the rows attributed to a dataset are exactly the rows whose dataset url extracts to its id |
| GenerateLookupsFacts.LatLonIndexNamed | generate_datapackages/script.py:88-91 | the index is built only when every row names a dataset |
| GenerateLookupsFacts.LatLonIndexLast | generate_datapackages/script.py:86-91 | a dataset is in the lat/lon index iff some row belongs to it, and the index keeps the last such row |
| GeneratePipeline.BuildSpeciesFields | generate_datapackages/script.py:352-362 | the loop builds the same processor fields as the specification of update_fields' parameters |
| GeneratePipeline.LatLonSteps | generate_datapackages/script.py:368-377 | an update_resource step is added iff both the latitude and the longitude column are truthy |
| GeneratePipeline.SpeciesFieldsNonEmpty | generate_datapackages/script.py:352-365 | the species fields are empty iff the dataset has no species columns |
| GeneratePipeline.BuildSteps | generate_datapackages/script.py:329-417 | the method builds exactly the step list of the specification: load, species, lat/lon, update_package, dump |
| GeneratePipeline.GenerateAndRunPipeline | generate_datapackages/script.py:419-442 | running the pipeline and retrying once on a processor error gives exactly the specified outcome |
| GeneratePipelineFacts.Runs | generate_datapackages/script.py:329-417 | the processor names of a step list, one per step, in order |
| GeneratePipelineFacts.RunsAppend | generate_datapackages/script.py:329-417 | the processor names of concatenated steps are the concatenation of their names |
| GeneratePipelineFacts.RunsWhen | generate_datapackages/script.py:352-377 | a conditional step contributes its processor iff its condition holds |
| GeneratePipelineFacts.StepsOrder | generate_datapackages/script.py:329-417 | the processors run load, then update_fields iff there are species, then update_resource iff both columns are truthy, then update_package, then dump_to_s3 iff dumping is on |
| GeneratePipelineFacts.StepsRuns | generate_datapackages/script.py:329-417 | the step list is the load step followed by each conditional part in source order |
| GeneratePipelineFacts.StepsStamp | generate_datapackages/script.py:380-417 | the update_package step sets the dataset's id and version, and the dump step writes under the dataset's id and version prefix |
| GeneratePipelineFacts.SpeciesFieldsLast | generate_datapackages/script.py:352-362 | a species column takes the unique values given with its last occurrence |
| GeneratePipelineFacts.AtMostTwoRuns | generate_datapackages/script.py:419-442 | the outcome depends only on the first two runs of the pipeline |
| GeneratePipelineFacts.RetryOnce | generate_datapackages/script.py:430-442 | success without retry iff the first run processes; success on retry iff the first run fails in a processor and the second processes; failure iff both fail in a processor |
| GenerateMove.PatchedFieldStops | generate_datapackages/script.py:264-271 | once patching a field raises on a prefix of the species, it raises on them all |
| GenerateMove.PatchFields | generate_datapackages/script.py:264-271 | the loop over the fields patches each as specified, or raises as specified |
| GenerateMoveFacts.SuccessNeedsMatch | generate_datapackages/script.py:283-319 | a successful move needs matching data and makes three transfers; an unsuccessful one makes at most two |
| GenerateMoveFacts.OneResourceOnly | generate_datapackages/script.py:216-218 | a datapackage without exactly one resource is not moved and nothing is transferred |
| GenerateMoveFacts.PackageStamped | generate_datapackages/script.py:279-280 | the moved datapackage carries the dataset's id and version |
| GenerateMoveFacts.SentStamped | generate_datapackages/script.py:279-306 | the first transfer puts the datapackage, stamped with the dataset's id and version |
| GenerateMoveFacts.PatchedFieldName | generate_datapackages/script.py:264-271 | patching keeps a field's name, and with species to look for the field must have a name |
| GenerateMoveFacts.PatchedFieldUnique | generate_datapackages/script.py:264-271 | a field named after a species column gets the unique values of that column's last occurrence |
| GenerateMoveFacts.PatchedFieldUntouched | generate_datapackages/script.py:264-271 | a field named after no species column is left as it was |
| SpecCount.Analyze | conrad_scripts/pipeline_spec_count/pipeline_spec_analyzer.py:16-77 | the total is the number of listed pipeline-spec.yaml keys and the data are their entries sorted by creation date |
| SpecCount.MinOf | conrad_scripts/pipeline_spec_count/pipeline_spec_analyzer.py:103 | the minimum is one of the counts and no count is smaller |
| SpecCount.MaxOf | conrad_scripts/pipeline_spec_count/pipeline_spec_analyzer.py:102 | the maximum is one of the counts and no count is larger |
| SpecCountFacts.PageEntriesOf | conrad_scripts/pipeline_spec_count/pipeline_spec_analyzer.py:28-74 | a page gives one entry per key ending in pipeline-spec.yaml, in listing order, and no other |
| SpecCountFacts.EntriesOf | conrad_scripts/pipeline_spec_count/pipeline_spec_analyzer.py:24-74 | pages without Contents are skipped; every entry comes from a pipeline-spec.yaml key, in listing order |
| SpecCountFacts.EntryOfFacts | conrad_scripts/pipeline_spec_count/pipeline_spec_analyzer.py:37-74 | an entry keeps the key and the modification date; it records an error iff the file could not be read or parsed, and then has zero steps |
| SpecCountFacts.FirstPipelineFacts | conrad_scripts/pipeline_spec_count/pipeline_spec_analyzer.py:48-56 | a positive count is the length of the pipeline list under the first top-level key holding "pipeline"; with no such key the count is zero |
| SpecCountFacts.NotMappingCountsZero | conrad_scripts/pipeline_spec_count/pipeline_spec_analyzer.py:48-49 | a document that is not a mapping counts zero steps |
| SpecCountFacts.EarlierOrders | conrad_scripts/pipeline_spec_count/pipeline_spec_analyzer.py:77 | comparing by creation date is a total preorder |
| SpecCountFacts.AnalysisOrdered | conrad_scripts/pipeline_spec_count/pipeline_spec_analyzer.py:77 | the sorted data are a permutation of the entries, ordered by creation date |
| SpecCountFacts.CountedOf | conrad_scripts/pipeline_spec_count/pipeline_spec_analyzer.py:97-99 | the summarised counts are exactly the step counts of entries without an error |
| SpecCountFacts.SummaryFacts | conrad_scripts/pipeline_spec_count/pipeline_spec_analyzer.py:96-106 | there is no summary iff every entry has an error; otherwise min and max are counts of error-free entries and bound all of them |
| SubmissionBucket.LineLength | conrad_scripts/submission_file_object_path/script.py:26 | the reach of `.+`: the longest newline-free prefix of the key, stopped by a newline or the end |
| SubmissionBucket.LastTail | conrad_scripts/submission_file_object_path/script.py:26 | the last position up to a bound where "/datapackage.json" matches, or none if it matches nowhere up to it |
| SubmissionBucket.Oid | conrad_scripts/submission_file_object_path/script.py:26-28 | the object id is a prefix of the key on which the pattern's tail follows, and it is the longest such prefix (the group is greedy) |
| SubmissionBucket.CollectStops | conrad_scripts/submission_file_object_path/script.py:21-40 | once the sweep has raised on some datapackage, later keys do not change the outcome |
| SubmissionBucket.CollectAll | conrad_scripts/submission_file_object_path/script.py:21-40 | the loop over the visited ids gives exactly the sweep's output or the id it raised on |
| SubmissionBucketFacts.KeyRoundTrip | conrad_scripts/submission_file_object_path/script.py:26-31 | the datapackage key of a one-line, non-empty id gives back that id |
| SubmissionBucketFacts.GreedyGroup | conrad_scripts/submission_file_object_path/script.py:26-28 | a key naming a datapackage inside a folder called "<id>/datapackage.json" gives the longer id |
| SubmissionBucketFacts.NoEndAnchor | conrad_scripts/submission_file_object_path/script.py:26-31 | a "<id>/datapackage.json.bak" key is matched too and gives the id before "/datapackage.json" |
| SubmissionBucketFacts.EmptyIdSkipped | conrad_scripts/submission_file_object_path/script.py:26-27 | a key with nothing before "/datapackage.json" is not matched |
| SubmissionBucketFacts.VisitedMembers | conrad_scripts/submission_file_object_path/script.py:21-28 | the visited ids are exactly the ids of the listed keys the pattern matches |
| SubmissionBucketFacts.CollectFacts | conrad_scripts/submission_file_object_path/script.py:21-40 | the sweep finishes iff it raises on no fetched datapackage; then its output is exactly the parts of the fetched ones; otherwise it names a datapackage it raised on |
| SubmissionBucketFacts.CollectAppend | conrad_scripts/submission_file_object_path/script.py:21-40 | one more datapackage that does not raise appends its part to the output |
| ResourceSweep.FixedStops | conrad_scripts/submission_file_object_path/script.py:42-53 | once the resource loop has raised on a prefix, it raises on the whole list |
| ResourceSweep.FixResources | conrad_scripts/submission_file_object_path/script.py:42-53 | the loop gives exactly the fixed resources and the count of changed ones, or raises as specified |
| ResourceSweep.FixDp | conrad_scripts/submission_file_object_path/script.py:40-54 | a visit keeps the object id, and a datapackage with no changed resource is left as it was |
| ResourceSweepFacts.FixedFacts | conrad_scripts/submission_file_object_path/script.py:42-53 | the loop finishes iff the fix raises on no resource; then it holds each resource's fixed form, in order, and counts the changed ones |
| ResourceSweepFacts.ChangedHasChange | conrad_scripts/submission_file_object_path/script.py:45-46 | a positive change count means some resource was changed |
| ResourceSweepFacts.RefixedUnchanged | conrad_scripts/submission_file_object_path/script.py:42-53 | with a fix that settles after one application, a second loop over the fixed resources changes nothing |
| ResourceSweepFacts.FixDpFacts | conrad_scripts/submission_file_object_path/script.py:40-57 | a visit counts every resource and the changed ones; with none changed the datapackage is unchanged; otherwise only its "resources" are replaced, by the fixed list |
| ResourceSweepFacts.FixDpSettles | conrad_scripts/submission_file_object_path/script.py:40-57 | visiting a repaired datapackage again with a settling fix changes nothing |
| ResourceSweepFacts.VisitsOf | conrad_scripts/submission_file_object_path/script.py:21-54 | the visits are exactly those of the fetched datapackages of the visited ids |
| ResourceSweepFacts.WritesOf | conrad_scripts/submission_file_object_path/script.py:54-57 | a datapackage is written back iff its visit changed a resource, under its own key |
| ResourceSweepFacts.WritesFrom | conrad_scripts/submission_file_object_path/script.py:21-57 | the writes are exactly the changed datapackages among the fetched ones, each under its own key |
| ObjectPath.NewPath | conrad_scripts/submission_file_object_path/script.py:44-48 | a new path exists iff the path starts with the host and "/minio/" followed by a character that is not a newline |
| ObjectPath.FixPath | conrad_scripts/submission_file_object_path/script.py:42-53 | the script raises on a resource exactly when it is not a dict or its path is not a string; a resource reported unchanged is returned as it was, and one reported changed has a path the pattern rewrites |
| ObjectPathFacts.MinioRemoved | conrad_scripts/submission_file_object_path/script.py:44-48 | on a one-line path, the rewrite removes exactly the "/minio" after the host |
| ObjectPathFacts.Rewrites | conrad_scripts/submission_file_object_path/script.py:44-48 | host + "/minio/" + text becomes host + "/" + text |
| ObjectPathFacts.OneSegmentPerRun | conrad_scripts/submission_file_object_path/script.py:44-48 | a doubled "/minio" loses only one segment per run, and a second run would rewrite the path again |
| ObjectPathFacts.NewlineCuts | conrad_scripts/submission_file_object_path/script.py:44-48 | the rewritten path ends at the first newline after the prefix |
| ObjectPathFacts.FixPathFacts | conrad_scripts/submission_file_object_path/script.py:42-53 | a resource changes iff its path is a string the pattern matches; then only its path changes, to the new one |
| ObjectPathFacts.FixPathObjectsOnly | conrad_scripts/submission_file_object_path/script.py:43 | the fix raises on any resource that is not an object |
| ObjectPathFacts.SweepWrites | conrad_scripts/submission_file_object_path/script.py:21-57 | the script writes back exactly the fetched datapackages with a rewritten path, each repaired, under its own key |
| DatasetResources.SupplementalFiles | conrad_scripts/submission_update_dataset_resources_key/script.py:53-56 | the loop keeps exactly the resource ids that `not in` primaryDataFiles admits, in order, or raises where `in` raises |
| DatasetResources.MigrateAllStops | conrad_scripts/submission_update_dataset_resources_key/script.py:45-60 | once the dataset loop has raised on a prefix, it raises on the whole list |
| DatasetResources.MigrateDatasets | conrad_scripts/submission_update_dataset_resources_key/script.py:45-60 | the loop migrates every dataset as specified, or raises as specified; `not in` tests list membership, substring on a string and key membership on a dict |
| DatasetResourcesFacts.SupplementalCounts | conrad_scripts/submission_update_dataset_resources_key/script.py:53-56 | a primary data file is dropped entirely; any other id is kept as often as it occurs |
| DatasetResourcesFacts.KeptList | conrad_scripts/submission_update_dataset_resources_key/script.py:53-56 | with a list of primary data files, the kept ids are exactly the ids not in that list |
| DatasetResourcesFacts.KeptFacts | conrad_scripts/submission_update_dataset_resources_key/script.py:53-56 | the membership tests raise on no id iff the kept list exists, and then an id is kept iff it is a resource id that `not in` primaryDataFiles admits |
| DatasetResourcesFacts.SubstringDropped | conrad_scripts/submission_update_dataset_resources_key/script.py:53-56 | with a string primaryDataFiles "xaby", the id "ab" is dropped as a substring; with the list ["xaby"] it is kept |
| DatasetResourcesFacts.NoPrimaryKeepsAll | conrad_scripts/submission_update_dataset_resources_key/script.py:47-56 | with no primary data files every resource id is kept |
| DatasetResourcesFacts.MigrateDatasetFacts | conrad_scripts/submission_update_dataset_resources_key/script.py:46-60 | a migrated dataset has no "resources", its "supplementalFiles" are the resource ids that `not in` primaryDataFiles keeps, and every other key is unchanged |
| DatasetResourcesFacts.RerunEmpties | conrad_scripts/submission_update_dataset_resources_key/script.py:46-60 | migrating a migrated dataset again empties its supplementalFiles |
| DatasetResourcesFacts.MigrateDpFacts | conrad_scripts/submission_update_dataset_resources_key/script.py:41-60 | a datapackage counts as updated iff it has datasets; without datasets it is unchanged; otherwise its datasets are replaced by their migrated forms |
| DatasetResourcesFacts.NothingWritten | conrad_scripts/submission_update_dataset_resources_key/script.py:41-65 | as written, the script uploads nothing: the upload is guarded by a flag that is never set |
| DatasetResourcesFacts.NothingWrittenFrom | conrad_scripts/submission_update_dataset_resources_key/script.py:41-65 | the same for any list of visited ids |
| DatasetResourcesFacts.IntendedWrites | conrad_scripts/submission_update_dataset_resources_key/script.py:41-65 | as intended, the uploads are exactly the fetched datapackages with datasets, migrated, each under its own key |
| DatasetResourcesFacts.SameFailures | conrad_scripts/submission_update_dataset_resources_key/script.py:21-65 | the script as written raises iff the intended one does |
| CategoryKey.Scan | conrad_scripts/submission_update_category_key/script.py:27-78 | a page without keys makes the loop raise |
| CategoryKey.ScanAll | conrad_scripts/submission_update_category_key/script.py:27-78 | the listing loop reads exactly the keys and ending of the specification |
| CategoryKey.ObjectId | conrad_scripts/submission_update_category_key/script.py:37-39 | the id is the leading run of [A-za-z0-9] characters, non-empty, followed by the pattern's tail; a key with such a run gets exactly that id |
| CategoryKey.FillResource | conrad_scripts/submission_update_category_key/script.py:53-64 | the script raises on a resource exactly when it is not a dict, or is not the placeholder and has a "bcodmo:" that is not a dict; a resource reported unchanged is returned as it was, and one reported changed had a "bcodmo:" without a truthy category |
| CategoryKeyFacts.FillResourceFacts | conrad_scripts/submission_update_category_key/script.py:53-64 | a resource changes iff it is not the placeholder and has a "bcodmo:" object without a truthy category; then only its category changes, to "submitter" |
| CategoryKeyFacts.FillSettles | conrad_scripts/submission_update_category_key/script.py:53-64 | the fill raises on non-objects, and a filled resource is not changed again |
| CategoryKeyFacts.TallyFacts | conrad_scripts/submission_update_category_key/script.py:22-68 | already_updated stays 0; the updated count equals the number of written datapackages, whose ids are the updated ids in order; no_category is at least the updated count |
| CategoryKeyFacts.ScanFrom | conrad_scripts/submission_update_category_key/script.py:29-78 | from any page onward, non-empty pages ending in one without a token are all read |
| CategoryKeyFacts.ScanListsAll | conrad_scripts/submission_update_category_key/script.py:27-78 | with non-empty pages and a last page without a token, the loop reads every key |
| CategoryKeyFacts.SweepWrites | conrad_scripts/submission_update_category_key/script.py:37-71 | the script writes back exactly the fetched datapackages where some resource got the default category, each under its own key |
| CategoryKeyFacts.MatchedKeyRoundTrip | conrad_scripts/submission_update_category_key/script.py:37-42 | the datapackage key of an id made of class characters gives back that id |
| RelatedPublications.Move | conrad_scripts/submission_find_related_pub_bug/script.py:69-80 | moving a part keeps the metadata an object that has the nested key, holding an object |
| RelatedPublications.Drop | conrad_scripts/submission_find_related_pub_bug/script.py:83-88 | dropping a part leaves no flat key of that part and keeps the nested key |
| RelatedPublications.Restructure | conrad_scripts/submission_find_related_pub_bug/script.py:67-88 | the repaired metadata is an object that always has the "related_publications" key |
| RelatedPublications.Repaired | conrad_scripts/submission_find_related_pub_bug/script.py:64-90 | the script raises on a datapackage exactly when its "bcodmo:" "metadata" is missing or not an object; the datapackage written back has "related_publications" in its metadata |
| RelatedPublications.FlatIsNotNested | conrad_scripts/submission_find_related_pub_bug/script.py:67-80 | no flat key is the nested key itself |
| RelatedPublicationsFacts.MoveFacts | conrad_scripts/submission_find_related_pub_bug/script.py:69-80 | after a move the flat key is gone, its value sits under the part in the nested object, and every other key is unchanged |
| RelatedPublicationsFacts.DropFacts | conrad_scripts/submission_find_related_pub_bug/script.py:83-88 | a drop removes the flat key and nothing else |
| RelatedPublicationsFacts.FlatInjective | conrad_scripts/submission_find_related_pub_bug/script.py:69-88 | different parts have different flat keys |
| RelatedPublicationsFacts.FlatKeysDistinct | conrad_scripts/submission_find_related_pub_bug/script.py:69-88 | the three flat keys are distinct and none is the nested key |
| RelatedPublicationsFacts.MovedGone | conrad_scripts/submission_find_related_pub_bug/script.py:67-80 | without the nested object, the repair creates it and removes all three flat keys |
| RelatedPublicationsFacts.MovedNested | conrad_scripts/submission_find_related_pub_bug/script.py:67-80 | the created nested object holds a part iff its flat key was present, with that key's value |
| RelatedPublicationsFacts.MovedOthers | conrad_scripts/submission_find_related_pub_bug/script.py:67-80 | every other metadata key is unchanged by the move |
| RelatedPublicationsFacts.DroppedWhenPresent | conrad_scripts/submission_find_related_pub_bug/script.py:82-88 | with the nested object present, the flat keys are removed and everything else is unchanged |
| RelatedPublicationsFacts.RestructureIdempotent | conrad_scripts/submission_find_related_pub_bug/script.py:67-88 | repairing repaired metadata changes nothing |
| RelatedPublicationsFacts.MovedOrDroppedGone | conrad_scripts/submission_find_related_pub_bug/script.py:67-88 | after the repair no flat key remains |
| RelatedPublicationsFacts.SweepWrites | conrad_scripts/submission_find_related_pub_bug/script.py:17-94 | the uploads are exactly the repaired datapackages of the visited ids whose query returned a truthy first record, each under its own key |
| Publications.Texts | submission_publications/script.py:44-65 | the loop walks the three parts in order, each with its string |
| Publications.MigrateFields | submission_publications/script.py:57-78 | the loop produces the migrated publications, and `used` is set iff some part is a non-empty string |
| Publications.Publish | submission_publications/script.py:36-81 | only a submission can make the script raise, and a datapackage is written back only when it is a submission whose publications are an object with a string part and only string parts |
| PublicationsFacts.MigratedFacts | submission_publications/script.py:58-78 | an empty part is deleted; a non-empty part becomes a list of one migrated record holding its text; other keys are unchanged |
| PublicationsFacts.PartsDistinct | submission_publications/script.py:58-65 | the three parts are distinct |
| PublicationsFacts.MigratesIff | submission_publications/script.py:36-55 | a submission is migrated iff its publications are an object with a string part and all three parts are strings; a string part beside a non-string one makes the script raise; missing publications leave it alone |
| PublicationsFacts.Unwrapped | submission_publications/script.py:57-81 | the new metadata holds the migrated publications when some part was used, and no publications otherwise |
| PublicationsFacts.UsedIff | submission_publications/script.py:57-80 | some part is used iff not all three are empty strings |
| PublicationsFacts.PublishedMetadata | submission_publications/script.py:57-81 | the other metadata keys are unchanged, and the publications are removed iff all three parts were empty |
| PublicationsFacts.PublishedParts | submission_publications/script.py:57-81 | each empty part is removed, each non-empty part becomes one migrated record, other keys of the publications stay |
| PublicationsFacts.RerunUnchanged | submission_publications/script.py:47-51 | a migrated datapackage is left alone by a second run |
| PublicationsFacts.OnlySubmissions | submission_publications/script.py:36-37 | a datapackage that is not a submission is left alone |
| PublicationsFacts.SweepWrites | submission_publications/script.py:17-91 | the uploads are exactly the migrated datapackages among the fetched ones, each under its own key |
| SpaceKeys.TargetsAppend | conrad_scripts/correct_spaces_laminar_load/script.py:34-38 | the names copied to by two runs of copies are the union of each run's names |
| SpaceKeys.SelectKeys | conrad_scripts/correct_spaces_laminar_load/script.py:11-17 | the first loop selects the listed keys holding "%20", in order |
| SpaceKeys.CorrectSpaces | conrad_scripts/correct_spaces_laminar_load/script.py:11-40 | the before keys are the selected keys, the after keys their renamed forms, the copies those of the plan, and the bucket ends holding the listing and the copies' names |
| SpaceKeys.CopyKeys | conrad_scripts/correct_spaces_laminar_load/script.py:23-40 | the second loop records each key and its new name, and copies exactly where no object of the new name exists yet |
| SpaceKeysFacts.SelectedIff | conrad_scripts/correct_spaces_laminar_load/script.py:16-17 | a key is selected iff it is listed and holds "%20" |
| SpaceKeysFacts.RenamedHead | conrad_scripts/correct_spaces_laminar_load/script.py:32 | renaming keeps a key empty iff it was, and begins with a space or the key's first character |
| SpaceKeysFacts.NoEscapeLeft | conrad_scripts/correct_spaces_laminar_load/script.py:32 | no new name holds "%20" |
| SpaceKeysFacts.PlanFacts | conrad_scripts/correct_spaces_laminar_load/script.py:32-40 | each copy goes from a selected key to its new name, which did not exist; no two copies share a name; afterwards every selected key's new name exists |
| SpaceKeysFacts.PlanCopies | conrad_scripts/correct_spaces_laminar_load/script.py:34-40 | a key is copied iff its new name is neither in the bucket nor an earlier copy's name |
| People.Tallied | conrad_scripts/parse_submission_datapackage_people/script.py:40-52 | the insertion order and the dictionary hold the same names |
| People.SightingOf | conrad_scripts/parse_submission_datapackage_people/script.py:40-48 | a collaborator gives at most one sighting, and one only when it is a submitter; the script raises on it exactly when it is not a dict, or is a submitter whose first or last name is not a string |
| People.Tally | conrad_scripts/parse_submission_datapackage_people/script.py:40-52 | the loop builds exactly the specified insertion order and dictionary |
| People.Report | conrad_scripts/parse_submission_datapackage_people/script.py:16-57 | the report is the header row followed by one row per name, in insertion order |
| People.Run | conrad_scripts/parse_submission_datapackage_people/script.py:15-57 | the script finishes iff no datapackage makes it raise, and then reports the header and the tally's rows |
| PeopleFacts.SubmittersIff | conrad_scripts/parse_submission_datapackage_people/script.py:40-44 | the sightings are exactly the collaborators with a truthy submitter flag, at most one each |
| PeopleFacts.SubmissionsOnly | conrad_scripts/parse_submission_datapackage_people/script.py:37-39 | only a submission with truthy collaborators gives sightings |
| PeopleFacts.TalliedNames | conrad_scripts/parse_submission_datapackage_people/script.py:45-52 | each name appears once, and exactly the names seen at least once appear |
| PeopleFacts.TalliedEntries | conrad_scripts/parse_submission_datapackage_people/script.py:45-52 | each name holds the orcid of its first sighting and its number of sightings |
| PeopleFacts.FirstSeenOrder | conrad_scripts/parse_submission_datapackage_people/script.py:45-54 | names are reported in the order they were first seen |
| PeopleFacts.FirstIndexBound | conrad_scripts/parse_submission_datapackage_people/script.py:45-50 | a name's first sighting lies within the sightings iff it was seen |
| PeopleFacts.CountsAddUp | conrad_scripts/parse_submission_datapackage_people/script.py:45-52 | the counts add up to the number of sightings |
| PeopleFacts.NewName | conrad_scripts/parse_submission_datapackage_people/script.py:45-50 | an unseen name is appended to the order and the total grows by one |
| PeopleFacts.ReportFacts | conrad_scripts/parse_submission_datapackage_people/script.py:54-57 | the report has one row per name: the name, its first orcid and its count |
| PeopleFacts.RowsOf | conrad_scripts/parse_submission_datapackage_people/script.py:54-57 | one row per name, in order, from the dictionary's entries |
| Comments.Results | conrad_scripts/parse_submission_datapackage/script.py:16-40 | a finished run's output starts with the header row |
| Comments.Run | conrad_scripts/parse_submission_datapackage/script.py:15-40 | the script gives exactly the specified rows, or the id it raised on |
| CommentsFacts.CommentRowFacts | conrad_scripts/parse_submission_datapackage/script.py:36-40 | a row is added iff the comments are truthy, and it names the kind, the id and the comments |
| CommentsFacts.CommentRowRaises | conrad_scripts/parse_submission_datapackage/script.py:36-37 | the script raises exactly on a datapackage without an object "bcodmo:" or with a non-object "metadata" |
| CommentsFacts.KindIff | conrad_scripts/parse_submission_datapackage/script.py:36-40 | a row says "dataset" iff the datapackage has a submissionId, "project" otherwise |
| CommentsFacts.ResultsRows | conrad_scripts/parse_submission_datapackage/script.py:17-40 | after the header, the rows are exactly those of the commented fetched datapackages |
| CommentsFacts.ResultsOk | conrad_scripts/parse_submission_datapackage/script.py:17-40 | the script finishes iff it raises on none of the fetched datapackages |

## Left out

**Concurrency and time**
- Threading and signals in process.py (the thread pool, the locks, the signal handler, sleeps and the grace period). Workers run as a sequential loop that fills the result slots by index. The shutdown flag is an oracle giving the value seen at each read.
- Time is in integer milliseconds. The float `num_same / 1000` key arithmetic is integer milliseconds too.
- Wall-clock timestamps such as `analysis_timestamp` are left out.
- An entry that is not a dict is not modelled: Entry is always a dict. In process.py, `process_pipeline` calls `entry.get` before its `try` (process.py:904 and 913), so such an entry raises in the worker thread, and the pool stores the thread-error record of process.py:1290-1301 for it.

**Remote calls, files and parsing**
- All S3, HTTP, DynamoDB, Lambda and OpenAI calls are given data or oracle functions. This covers the `cancel_pipeline` call, which only logs.
- Logging, printing and progress counters are left out.
- The CSV, JSON and YAML files the scripts write are left out, and so are the module-level reads of datasets.csv, species.json, latlon.json and pipelines.txt. The model starts from their parsed contents.
- JSON and YAML parsing, pandas `read_csv` and openpyxl workbook loading are left out. A fetcher gives parsed values or tables.
- In the submission sweeps, `json.loads` runs outside the `try` that skips a failed fetch, so a datapackage body that is not JSON ends the script. The fetcher gives parsed values only, so that crash is not modelled.

**Floating point**
- Progress percentages and the average step count are floating point and are left out.
- `convert_old`'s float formatting and `eformat` are a renderer parameter.
- Convert.Converted: the percentage scaling `value * 100` is exact on decimals, so the float rounding error of the source's product is not modelled. For example, with the code "0%" and the value 0.145, Python's product is 14.499999999999998 and renders as "14%", while the model's product 14.5 renders as "15%".
- Decimals are exact. The `convert_new` path is modelled on them.
- JSON numbers are integers only: `Json.Value` has no float. So float truthiness (`0.0` is falsy in Python) is not captured. Nor is Python equality across number types (`1.0 == 1 == True`) in the `==`, `in` and truthiness tests on fetched values, such as the `not in` test of DatasetResources.SupplementalFiles and the false-like test of GenerateMove.ClearFalseSubmission. In the model a boolean never equals a number. Dicts are also compared entry by entry in order, whereas Python's dict equality ignores key order.

**Python semantics**
- `.get` on a value that is not a dict raises AttributeError. Every such call is modelled as the script raising on that item, as is indexing a missing key or a value that is not a dict.
- A key test `k in v` on a value that is not a dict is read as false. Python instead tests list membership or substring on a list or a string, and raises on a number, a boolean or None.
- Publications.Publish: because of the previous point, a datapackage that is a JSON list holding "bcodmo:", or whose "bcodmo:" is a string containing "submissionId", is left alone by the model, while the script goes on and raises at its `.get`.
- Significant.ParseDecimal: accepts only finite numerals (sign, digits with at most one point, optional exponent). The "inf", "nan" and underscore-separated literals that Python's Decimal also accepts are read as raising.
- LaminarParameters.NameAndType: a parameter name that is not a string is read as raising. Python also accepts a number, a boolean or None there as the dict key.

**Regular expressions**
- The regexes are modelled as written. The `(.+)/datapackage.json` pattern has no end anchor, so a `.bak` sibling key is processed too. Its dots match any character except a newline, and the group stops at a newline.
- In submission_dynamodb, `$` also allows a final newline, and `A-z` admits `[ \ ] ^ _` and the backtick.
- The DynamoDB "S"/"N" attribute typing is left out.

**Bug scan**
- `get_column_letter`'s limit of 18278 columns is not modelled.
- Boolean cells (which Python counts as int) are not modelled.

**Bounded loops**
- The poll loop, the S3 pagination loops and the category-key listing are unbounded in the source. Each is cut after a fuel bound of requests. A run that needs more requests is reported as unfinished.

**Datapackage generator**
- Outside `Normalise`'s row clean-up, the main loop of generate_datapackages (after line 445) is left out: the result lists and the skip list.
- `get_unique_species` and `download_data` use pandas, so the unique species values are an input.
- In `move_already_existing_pipeline`, the data file's md5 hash is an input, and the S3 comparison of the local and dumped data is a parameter.
- GenerateLookups.ExtractDatasetId: reads `\d` as the ASCII digits 0-9 only. Python 3's `\d` (generate_datapackages/script.py:68) matches every Unicode decimal digit, so a url ending in "/١٢" gives "١٢" in the script but is returned unchanged by the model.
- GenerateLookups.Normalise: reads the version with `int()` over ASCII digits only (around the stripping, the sign and the single underscores it does model). Python's `int()` (script.py:472) also takes other Unicode decimal digits, so such a version is kept by the script but becomes "0" and is marked false-versioned in the model. Normalise and NormaliseVersion also require a row of at least five columns. A shorter datasets.csv row raises IndexError in the script at generate_datapackages/script.py:470-482 (`dataset[1]`, `dataset[2]`, `dataset[4]`), and the model does not capture that.

**Per-script gaps**
- DumpSpecs: `get_orcid` (fix_laminar_dump_pipeline_specs/script.py:103-111) is not modelled. The dataset's orcid is part of each loaded pipeline, so the S3 read and the chained `.get` that raises on a "bcodmo:" or "dataManager" that is not a dict are not captured.
- put_state_history: the main loop (script.py:172-190) selects objects modified after the start date and keeps counters. It is not modelled. The per-object change computation is.
- related_pubs: the S3 Select call and its text munging are a selection oracle that gives the first record.
- space_keys: object bodies are not modelled. Copies are tracked by name.
- people and comments: a failed fetch skips the key, as the script's `except` does.
- Dictionaries that the scripts mutate in place are JSON values rebuilt by functions. For aliasing, only the filter script's reused `pipeline_info` is modelled.

**Weaker statements**
- CategoryKey.Scan: its own contract states only the empty-page case. The full listing is stated by CategoryKeyFacts.ScanListsAll.
- StateHistoryFacts.FirstEmitted: states that the first selected version is emitted when it is not the baseline. When a baseline precedes the window, the first in-window version is emitted only if its state differs from the baseline's, because the code compares states once the baseline has seeded the previous value.

- DumpSpecs.RepairPipelines: states the repair loop as intended. A pipeline whose history lookup returns False is rebuilt with its own steps and the loop goes on. The script as written dies with TypeError at fix_laminar_dump_pipeline_specs/script.py:178 on the first such pipeline (see Findings; DumpSpecs.PatchSteps models that loop as written).
- DumpSpecsFacts.NextFacts: stated about the intended loop, as for DumpSpecs.RepairPipelines.
- DumpSpecsFacts.RepairAllDies: stated about the intended loop, so a False verdict alone does not count as dying.
- DumpSpecsFacts.RepairAllFailed: stated about the intended loop, as for DumpSpecs.RepairPipelines.
- DumpSpecsFacts.RepairAllFixed: stated about the intended loop, as for DumpSpecs.RepairPipelines.
- DumpSpecsFacts.RepairAllRebuilt: stated about the intended loop, where a False verdict yields a rebuilt spec.

**Not modelled at all**
- Dead code after `return ""` in handle_general_old/new.
- The zlib/base64 `encode_string` helper and laminar_dynamodb/script.py.
- The plotting, scraping, S3 Select and library-reproduction scripts.
- The scripts broken as written: filtered_parameters, parse_submission_files, check_fixedwidth and fix_errors_script.

## Findings

| source | as written | input that shows it | evidently intended | confidence | as-written member | corrected member |
|---|---|---|---|---|---|---|
| fix_laminar_dump_pipeline_specs/script.py:168-178 | when `get_history_version` returns False, the patch loop still indexes `history_steps[i]` | a one-step pipeline whose load step has a "from" parameter | keep the spec's own steps for a pipeline that already has "from" | not executed | DumpSpecsFacts.FalsePathRaises | DumpSpecsFacts.FalsePathKept |
| submission_dynamodb/script.py:27-35 | the loop reads "ContinuationToken" (the request's echo) instead of "NextContinuationToken" | a bucket of two pages: the first page is requested again and again without a token | follow NextContinuationToken until IsTruncated is false | not executed | S3ListingFacts.EchoedLoops | S3ListingFacts.NextListsAll |
| conrad_scripts/submission_put_state_history_ddb/script.py:130-156 | `previous_value is None` also holds after a version whose state is null, so the next version is emitted as if it were first | two consecutive versions whose state is null | only the first version looked at seeds the comparison | not executed | StateHistoryFacts.NullRepeats | StateHistoryFacts.ExpectedDiffer |
| conrad_scripts/submission_update_dataset_resources_key/script.py:41-44, 62-64 | the flag is set as `updated = True` but read back as `update` | any datapackage with datasets: it is migrated but never uploaded | upload every datapackage that has datasets | not executed | DatasetResourcesFacts.NothingWritten | DatasetResourcesFacts.IntendedWrites |
