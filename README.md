# llm-labeling in Dafny

A model of the labeling script `llm-labeling.ts`.

The script works in four stages:

1. It lists the samples of an Edge Impulse project. Each listing fetches pages of 1000 samples per category, training and then testing, until it meets an empty page. It keeps the samples that pass a filter.
2. It sorts the samples by id and keeps the first `total` of them, where `total` comes from `--limit`.
3. For each kept sample it runs one job. The job asks a chat model for a label inside `retryWithTimeout`, and checks and normalises the answer. It then writes the label, the reason and the prompt back to the sample inside a second `retryWithTimeout`. The write-back either disables the sample, edits its label and sets its metadata, or, with `--propose-actions`, only proposes these changes.
4. It keeps the counters `processed`, `error` and `labelCount`, and prints them with `getSummary`.

Modules, one per file:

- `Retry` (retry.dfy): `retryWithTimeout`. The attempts of the wrapped call are a sequence of outcomes: `Ok`, `Err` or `Timeout`. The loop is a method, proved equal to a recursive specification `Run`. The method yields the exit, the `onWarning`/`onError` calls in order, and the number of calls.
- `Pagination` (pagination.dfy): `listAllUnlabeledData`, `listDataByIds` and `listAllVideos`.
  - The store is a function from (category, offset) to a page or a fetch error.
  - Each `while (1)` loop is a method whose result is tied to the walk of non-empty pages.
  - `listAllVideos` is modelled as written, without the `offset = 0` before its testing loop.
- `Response` (response.dfy): the checks on a chat completion.
  - There must be one choice, from the assistant, with string content.
  - A ```` ```json ```` fence is stripped.
  - `JSON.parse` is modelled as an oracle.
  - A numeric label becomes a string.
  - The label and reason must be strings.
- `Settings` (settings.dfy): `--disable-labels` (split, trim, lower-case, drop empty entries) and `--limit` (`total` and `slice`).
- `Progress` (progress.dfy):
  - the `labelCount` object and the `if (!labelCount[k]) … ++` update;
  - the key order of `Object.keys`: array-index keys ascending, then the other keys in creation order;
  - `getSummary`;
  - the class `Counters`, whose fields `processed`, `error` and `labelCount` the jobs update in place.
- `Labeling` (labeling.dfy): one job (`labelSampleWithOpenAI`), the update actions, the `--propose-actions` check, and the run over the batch.
- Support modules:
  - `Decimal`: the integer `toString` and array-index keys;
  - `Strings`: `split`, `join`, `trim` and `toLowerCase`;
  - `Seqs`: filter and flatten;
  - `Sorting`: a sort by key;
  - `Samples`;
  - `Wrappers`.

The remote services are inputs:
- each model call is a scripted `Call`;
- each write-back attempt is a scripted outcome;
- the page store is a `Listing` function;
- `JSON.parse` is a `Parser` function.

The run is a sequential loop over the batch. A new `Counters` object is updated once per job.

## Model

| member | source | states |
|---|---|---|
| Retry.FailureOf | llm-labeling.ts:554-566 | a thrown error is rethrown as it is; a timeout rejects with the timer's message |
| Retry.Attempts | llm-labeling.ts:552-585 | the loop calls `fn` at most once per scripted attempt and at least once; it is still running only when the attempts ran out |
| Retry.Run | llm-labeling.ts:548-552 | a whole `retryWithTimeout` makes at most one call per scripted attempt |
| Retry.RetryWithTimeout | llm-labeling.ts:539-588 | the loop's exit, its `onWarning`/`onError` calls in order and its number of calls are exactly the trace of `Run` |
| Retry.SucceedsAfter | llm-labeling.ts:552-583 | from `retriesLeft = r`, with the first success at attempt i+1 and no countdown to 0 before it: that value is returned after i+1 calls and i warnings carrying r-1, …, r-i and the failures in order |
| Retry.ReturnsFirstSuccess | llm-labeling.ts:548-587 | with maxRetries = k ≥ 1 and the first success at attempt i+1 ≤ k: that value is returned; `fn` runs i+1 times; `onWarning` fires i times with k-1, …, k-i; `onError` never fires |
| Retry.ExhaustsAfter | llm-labeling.ts:574-584 | r failures in a row from `retriesLeft = r`: warnings r-1, …, 1, then `onError` with the r-th failure, which is rethrown, after exactly r calls |
| Retry.RethrowsLastFailure | llm-labeling.ts:574-584 | with maxRetries = k ≥ 1 and k failures (thrown or timed out): `onWarning(k-1)` … `onWarning(1)`, then one `onError` with the last failure, which is rethrown; `fn` ran k times |
| Retry.NeverGivesUp | llm-labeling.ts:577-583 | from `retriesLeft ≤ 0` the loop never rethrows and never calls `onError`; it stops without a value exactly when no attempt succeeds |
| Retry.EndsOnlyOnSuccess | llm-labeling.ts:548-583 | with maxRetries ≤ 0 the loop ends only on success |
| Retry.AttemptsBounded | llm-labeling.ts:577-581 | from `retriesLeft = r ≥ 1` at most r calls are made, and r attempts always reach a return or a rethrow |
| Retry.RunBounded | llm-labeling.ts:548-581 | with maxRetries ≥ 1, `fn` is called at most maxRetries times, and that many attempts decide the run |
| Retry.TimeoutCountsAsFailure | llm-labeling.ts:554-583 | two attempt sequences that succeed at the same places with the same values give the same returned value, the same rethrow decision, the same number of calls and the same `retriesLeft` in every warning, whether their failures threw or timed out |
| Decimal.NatToString | llm-labeling.ts:192 | an integer is rendered as a canonical decimal numeral |
| Decimal.ValueOfNatToString | llm-labeling.ts:192 | reading back a rendered count gives the count |
| Decimal.NatToStringOfValue | llm-labeling.ts:190 | every canonical numeral is the rendering of its value |
| Decimal.IntToStringInjective | llm-labeling.ts:259-262 | distinct numeric labels become distinct label strings |
| Decimal.ArrayIndexIffNumeral | llm-labeling.ts:190 | a key counts as an array index exactly when it is the numeral of an integer below 2^32 - 1 |
| Strings.Split | llm-labeling.ts:58 | `split(',')` gives at least one piece, and no piece contains the separator |
| Strings.JoinWith | llm-labeling.ts:190 | `join(sep)` of no parts is empty, and the joined string is at least as long as its first part |
| Strings.JoinWithContains | llm-labeling.ts:190 | every part occurs in the joined string |
| Strings.JoinSplit | llm-labeling.ts:58 | joining the pieces of a split with the separator restores the string |
| Strings.SplitJoin | llm-labeling.ts:58 | splitting a join of separator-free pieces gives the pieces back |
| Strings.Trim | llm-labeling.ts:58 | `trim()` leaves no white space at either end and never lengthens the string |
| Strings.TrimCuts | llm-labeling.ts:58 | `trim()` removes only white space, and only from the two ends |
| Strings.TrimTrimmed | llm-labeling.ts:58 | a string without white space at its ends is left unchanged by `trim()` |
| Strings.LowerChar | llm-labeling.ts:58 | `toLowerCase` of one character: an ASCII capital becomes the small letter 32 code points up, anything else is unchanged; white space stays white space |
| Strings.ToLower | llm-labeling.ts:58 | `toLowerCase()` keeps the length and lower-cases each character in place |
| Strings.ToLowerLowers | llm-labeling.ts:58 | after `toLowerCase()` no ASCII capital remains |
| Strings.ToLowerIdempotent | llm-labeling.ts:58 | a string without capitals is left unchanged by `toLowerCase()` |
| Seqs.Filter | llm-labeling.ts:401-405 | the kept elements all pass the predicate and are never more than the input |
| Seqs.FilterMember | llm-labeling.ts:58 | an element is kept exactly when it occurs and passes the predicate |
| Seqs.FilterConcat | llm-labeling.ts:401-405 | filtering page by page is filtering the concatenated pages |
| Seqs.FilterMultiplicity | llm-labeling.ts:401-405 | an element that passes occurs in the result exactly as often as in the input; one that fails does not occur |
| Seqs.FilterPartition | llm-labeling.ts:190 | filtering by a predicate and by its negation splits a sequence without losing or adding elements |
| Sorting.InsertBy | llm-labeling.ts:178 | inserting into a sorted sequence keeps it sorted and adds exactly that element |
| Sorting.SortBy | llm-labeling.ts:178 | `sort((a, b) => a.id - b.id)` orders by ascending id and is a permutation |
| Sorting.InsertByKeepsKeyOrder | llm-labeling.ts:178 | an inserted element goes before the elements of equal key, which keep their order |
| Sorting.SortByStable | llm-labeling.ts:178 | the sort is stable: the elements of each key come out in the order they were listed, as `Array.prototype.sort` keeps them |
| Sorting.SortSorted | llm-labeling.ts:178 | sorting an already ordered sequence changes nothing |
| Pagination.PagesAreWalk | llm-labeling.ts:391-407 | a successful walk returns non-empty pages fetched at offset + 1000·k, and the request after them came back empty |
| Pagination.WalkIsPages | llm-labeling.ts:391-407 | any such walk is what the walk returns: the pages are determined by the store |
| Pagination.CollectedStep | llm-labeling.ts:398-406 | after a non-empty page the loop goes on 1000 further, with that page's kept samples appended |
| Pagination.PushKept | llm-labeling.ts:401-405 | the inner `for`/`push` appends exactly the page's samples that pass the filter, in order |
| Pagination.FetchCategory | llm-labeling.ts:391-407 | one `while (1)` loop returns the kept samples of its category's walk, appended to those found before, and the offset it stopped at; a failed fetch aborts with its error |
| Pagination.ListBoth | llm-labeling.ts:390-426 | the two loops return the kept training samples followed by the kept testing samples; the testing walk starts at 0 or where training stopped |
| Pagination.Pages | llm-labeling.ts:391-407 | the pages one `while (1)` loop collects are all non-empty; it fails only with the error of a request at or after its start offset |
| Pagination.Listed | llm-labeling.ts:390-426 | a listing keeps only samples that pass its filter, and fails only with the error of some request |
| Pagination.ListAllUnlabeledData | llm-labeling.ts:381-432 | the unlabeled images of the training walk, then of the testing walk from offset 0 |
| Pagination.ListDataByIds | llm-labeling.ts:434-485 | the samples whose id is in `ids`, training then testing, each returned sample's id in `ids` |
| Pagination.ListAllVideos | llm-labeling.ts:487-536 | as written: the unprocessed videos of the training walk, then of the testing walk starting at 1000 × (non-empty training pages) |
| Pagination.ListAllVideosFromStart | llm-labeling.ts:496-530 | corrected: the unprocessed videos of both walks, each from offset 0 |
| Pagination.ListingMultiplicity | llm-labeling.ts:391-426 | each sample that passes the filter is kept as often as it was fetched in the two walks together, with no deduplication; others are never kept |
| Pagination.TrainingBeforeTesting | llm-labeling.ts:391-426 | the kept training samples come first in fetch order, followed by the kept testing samples |
| Pagination.VideosSkipTestingStart | llm-labeling.ts:512-520 | with one training page and one testing page, `listAllVideos` misses the testing video that a walk from offset 0 finds |
| Response.StripFence | llm-labeling.ts:252-254 | a body that starts with ```` ```json ```` and ends with ```` ``` ```` loses exactly those markers (10 characters); any other body is unchanged |
| Response.StripFenceRoundTrip | llm-labeling.ts:252-254 | fencing a text and stripping the fence gives the text back |
| Response.NormaliseLabel | llm-labeling.ts:259-262 | a numeric label becomes its decimal string; any other label value is unchanged |
| Response.ParseContent | llm-labeling.ts:256-274 | a body that does not parse fails with a syntax error; an accepted reply comes from an object whose `label` is the reply's label (as a string or a number written so) and whose `reason` is the reply's reason |
| Response.CheckCompletion | llm-labeling.ts:239-276 | not one choice, a role other than `assistant` and non-string content each fail with their own error, in that order; a completion is accepted iff it has one choice, from the assistant, with string content that `ParseContent` accepts, and then yields that reply; with one assistant choice and string content that `ParseContent` rejects, it fails with `Unparsable(cause, raw content)`, the cause being `ParseContent`'s error |
| Response.AcceptedExactly | llm-labeling.ts:239-276 | a completion yields reply (l, r) iff it has one choice, from the assistant, whose string content, fence stripped, parses to an object whose `label` is the string l or a number written l and whose `reason` is the string r |
| Response.NonStringLabelRejected | llm-labeling.ts:263-273 | a missing label, or one that is neither a string nor a number, fails as unparsable content and keeps the raw content |
| Response.NonStringReasonRejected | llm-labeling.ts:266-273 | an accepted label with a missing or non-string reason fails as unparsable content and keeps the raw content |
| Response.MalformedContentRejected | llm-labeling.ts:257-273 | content that does not parse, or parses to `null`, fails as unparsable content with a syntax error or a null-content cause and keeps the raw content |
| Response.NumericLabelBecomesString | llm-labeling.ts:259-262 | a numeric label is accepted as its decimal string |
| Settings.NormaliseAll | llm-labeling.ts:58 | `map(x => x.trim().toLowerCase())` keeps the number of entries and normalises each in place |
| Settings.NormaliseEntryShape | llm-labeling.ts:58 | a normalised comma-free piece is trimmed, free of capitals and comma-free |
| Settings.DisableLabels | llm-labeling.ts:58 | `disableLabelsArgv` holds no empty entry |
| Settings.NothingToDisable | llm-labeling.ts:58 | without `--disable-labels` (`''` split into one empty piece) no label is disabled |
| Settings.DisableLabelsNormal | llm-labeling.ts:58 | every entry of `disableLabelsArgv` is non-empty, trimmed, lower-case and comma-free |
| Settings.DisableLabelsRoundTrip | llm-labeling.ts:58 | passing normal labels joined by commas gives back exactly those labels, in order |
| Settings.NormaliseAllNormal | llm-labeling.ts:58 | normal labels are left as they are by normalisation |
| Settings.OnlyNormalLabelsDisabled | llm-labeling.ts:302-312 | a label with a capital, white space at an end or a comma is never disabled, whatever the argument |
| Settings.NormalLabelDisablesItself | llm-labeling.ts:58 | a normal label given as the argument disables itself |
| Settings.TotalAsWritten | llm-labeling.ts:180-182 | `total` as written is the smaller of the number of samples and the limit, and equals one of them; a negative limit is kept as it is |
| Settings.SliceTo | llm-labeling.ts:356 | `slice(0, end)` is a prefix of `end` elements when 0 ≤ end ≤ length; a negative end counts back from the end |
| Settings.NegativeLimitMiscounts | llm-labeling.ts:180-182 | with a negative limit, `total` is that negative number while the slice still has length + limit samples |
| Settings.Total | llm-labeling.ts:180-182 | corrected `total`: at most the number of samples and at most the limit (0 for a negative one), and equal to one of them |
| Settings.TotalMatchesSource | llm-labeling.ts:180-182 | without a negative limit the corrected total is the source's, and `slice(0, total)` has exactly `total` samples |
| Progress.Bump | llm-labeling.ts:336-339 | one more count for the label, all other counts unchanged, a key created only for a new label, and the sum of the counts one higher |
| Progress.ObjectKeys | llm-labeling.ts:190 | `Object.keys` is a permutation of the keys; array-index keys come first in ascending numeric order; the other keys keep creation order |
| Progress.ObjectKeysMembers | llm-labeling.ts:190 | `Object.keys` lists every own key and nothing else |
| Progress.ObjectKeysInCreationOrder | llm-labeling.ts:190 | without numeric keys, `Object.keys` is creation order |
| Progress.Entries | llm-labeling.ts:190 | one `k=count` entry per key, in key order |
| Progress.SummaryBareIffNoLabels | llm-labeling.ts:189-197 | the summary is `(error=N)` exactly when no label was counted |
| Progress.SummaryText | llm-labeling.ts:189-197 | `getSummary()` opens with `(` and always ends with `error=N)` |
| Progress.SummaryShowsEveryLabel | llm-labeling.ts:189-193 | every counted label occurs in the `getSummary()` text itself as `label=count` |
| Progress.SummaryListsEveryLabel | llm-labeling.ts:190 | every counted label appears as `label=count` |
| Progress.Counters.constructor | llm-labeling.ts:180-187 | the counters start at zero with an empty `labelCount` and the given `total` |
| Progress.Counters.Finish | llm-labeling.ts:336-350 | `processed` goes up by one for every job; `error` goes up exactly when the job threw; the label is bumped exactly when it did not; `processed == error + Σ labelCount` and `processed ≤ total` are kept, so a job finishes only while fewer than `total` have |
| Progress.PrototypeLabelsMiscounted | llm-labeling.ts:336-339 | as written, a first label `toString` counts as NaN and `__proto__` is never counted |
| Progress.BumpAsWritten | llm-labeling.ts:336-339 | the update as written touches no other property; an own numeric count goes up by one; a new label that `Object.prototype` does not provide starts at 1 and is appended to the key order |
| Progress.BumpAsWrittenAgrees | llm-labeling.ts:336-339 | for every label that `Object.prototype` does not provide, the update as written agrees with `Bump` |
| Labeling.NonNumericJobIdAccepted | llm-labeling.ts:74-77 | as written, the `--propose-actions` check never refuses, and a non-numeric job id silently turns propose mode off |
| Labeling.AcceptedJobIdProposes | llm-labeling.ts:66-68 | corrected: once a non-numeric job id is refused, every given job id except 0 selects propose mode |
| Labeling.UpdatedMetadata | llm-labeling.ts:293-295 | `sample.metadata || {}` keeps its other keys and gets `reason` set to the reply's reason and `prompt` set to the prompt; no other key is added |
| Labeling.UpdateIsIdempotent | llm-labeling.ts:291-295 | a retried update block writes the same metadata as the first attempt |
| Labeling.UpdateActions | llm-labeling.ts:291-321 | in propose mode one proposal carrying the job id, the label and the updated metadata; otherwise two or three calls ending with editing the label and setting the updated metadata |
| Labeling.DisableDecision | llm-labeling.ts:298-321 | in propose mode one proposal, with `isDisabled: true` iff the label is a disable label and otherwise unset; otherwise disable iff the label is a disable label, then edit the label, then set the metadata |
| Labeling.KeptActions | llm-labeling.ts:302-312 | a label that is not a disable label is neither disabled nor proposed for disabling |
| Labeling.DisabledActions | llm-labeling.ts:302-313 | a disable label disables the sample, or proposes `isDisabled: true` in propose mode |
| Labeling.AbnormalLabelNeverDisabled | llm-labeling.ts:58 | with the disable labels read from `--disable-labels`, a label with a capital, white space at an end or a comma is never disabled nor proposed for disabling |
| Labeling.NormalLabelArgumentDisables | llm-labeling.ts:58 | a normal label given as the whole `--disable-labels` argument disables its samples, or proposes to |
| Labeling.LabelAttempt | llm-labeling.ts:209-276 | an attempt succeeds exactly when the model answered with a completion that passes the checks, with the checked reply; a completion that fails the checks is a `BadResponse` error with the check's error; a service failure is rethrown with its message; it times out exactly when the model did not answer in time |
| Labeling.JobOutcome | llm-labeling.ts:207-340 | a labeled job's actions are the update block's calls for its reply; whenever the first block returned, its reply is the checked answer of one of the first three model calls |
| Labeling.LabelSample | llm-labeling.ts:207-340 | one job runs the labeling block and, if it returns, the update block; its result is `JobOutcome` |
| Labeling.LabeledOnFirstAnswer | llm-labeling.ts:209-339 | an acceptable first answer, written back at the first attempt, labels the sample with that reply |
| Labeling.FailsAfterThreeCalls | llm-labeling.ts:277-289 | three failed model calls fail the job with the third failure |
| Labeling.LabeledIffBothBlocksReturn | llm-labeling.ts:291-339 | a label is counted iff one of the first three model calls succeeded and one of the first three write-backs succeeded |
| Labeling.FirstSuccessDecides | llm-labeling.ts:278-279 | with maxRetries 3, a block returns iff one of its first three attempts succeeds |
| Labeling.ReturnedByAnAttempt | llm-labeling.ts:278-279 | with maxRetries 3, a value a block returns is the value of one of its first three attempts |
| Labeling.EndOf | llm-labeling.ts:336-346 | a job counts a label exactly when it was labeled, and the label it counts is the reply's label |
| Labeling.Batch | llm-labeling.ts:178-182 | the batch has `total` samples (corrected `Settings.Total`), sorted by id, and is a prefix of the sorted list |
| Labeling.BatchIsSourceSlice | llm-labeling.ts:180-182 | without a negative limit the batch is exactly `samplesToProcess.slice(0, total)`; with a negative limit the batch is empty while the source's slice has length + limit samples |
| Labeling.BatchAndDropped | llm-labeling.ts:356 | the batch and the samples left out together are the samples listed |
| Labeling.BatchHasSmallestIds | llm-labeling.ts:178 | no sample left out has a smaller id than a labeled one |
| Labeling.JobEnds | llm-labeling.ts:356 | one end per batch sample, the i-th the outcome of the i-th job under its own script |
| Labeling.LabelTimesPositive | llm-labeling.ts:336-339 | a label has a count at all exactly when some job applied it |
| Labeling.CountersFollowEnds | llm-labeling.ts:336-350 | after one more job, each label count and the error count follow that job's end |
| Labeling.CountedIffApplied | llm-labeling.ts:336-339 | when the counts follow the job ends, a label is a key exactly when some job applied it |
| Labeling.LabelAll | llm-labeling.ts:353-360 | after the run `processed == total` (the corrected total); `error` is the number of jobs that threw; each label's count is the number of jobs that applied it; every key has count ≥ 1; `processed == error + Σ labelCount`; and the summary is `getSummary()` of those counters |

## Left out

- Concurrency of `asyncPool` (tiny-async-pool). Jobs run one after another, each updating the shared counters once, so the order in which jobs complete is fixed to batch order. The final counts do not depend on that order, but `Object.keys` creation order of the labels does.
- Timers and logging:
  - the progress intervals;
  - the console messages;
  - the `onWarning`/`onError` log lines, which appear only as events;
  - the `padStart` formatting.
- The network:
  - Edge Impulse calls (`authenticate`, `listProjects`, `listSamples`, `getSampleAsImage`, `disableSample`, `editLabel`, `setSampleMetadata`, `setSampleProposedChanges`, `splitSampleInFrames`) become scripted inputs;
  - the OpenAI request becomes a scripted `Call`;
  - the video-splitting loop (lines 148-153) has remote effects only.
- Side effects of an attempt that fails part-way. In the update block, a `disableSample` that succeeds before a failed `editLabel` is not modelled: each block is one outcome per attempt.
- Set-up outside the core:
  - `JSON.parse` internals;
  - `fs`, `commander` and environment checks;
  - `process.exit`;
  - `--data-ids-file` parsing;
  - `--image-quality`, `--concurrency`, `--auto-convert-videos` and frames per second;
  - `promptArgv`'s `replaceAll`;
  - the token-usage sums.
- Number handling:
  - `Number()` on arguments: the limit is an integer or absent, and the job id is an integer or NaN;
  - non-integral JSON numbers;
  - `toString` of numbers of magnitude 1e21 and above.
- Response.NormaliseLabel, Decimal.IntToString: JSON integers of magnitude 2^53 and above are rounded to a double by `JSON.parse`, and `toString` prints the shortest digits that read back to that double (2^60 becomes "1152921504606847000"). The model keeps the integer exact and prints all of its digits.
- `toLowerCase` outside ASCII. Non-ASCII capitals are left unchanged by the model.
- Labeling.LabelAll, Labeling.JobOutcome and Labeling.LabelSample: the run takes one script per job, at least `total` of them, and each job's script must hold at least three model calls and three write-back attempts. That is enough for both retry blocks to decide, so a block that never ends is not modelled for them. `Retry.Run` itself models the unbounded loop as `Pending`.
- Labeling.Batch, Labeling.LabelAll: the batch is cut with the corrected `Settings.Total`, so a negative `--limit` labels nothing and `processed == total` holds. As written, `total` is the negative limit and `slice(0, total)` hands length + limit samples to the pool. `Labeling.BatchIsSourceSlice` proves that the two agree for every other limit, and `Settings.NegativeLimitMiscounts` shows the difference.
- Pagination.FetchCategory, Pagination.ListBoth and the listings: the store must end, for every offset and not only for those the walk requests. Past some offset every request of the category comes back empty or fails. This is stronger than the source needs, which only requests offsets start + 1000·k. A store whose requested pages run out while pages at other offsets never do is not modelled. A store whose requested pages never run out makes the source loop forever and is not modelled either.
- Progress.Counters.Finish: `labelCount` is a map from label to count with its creation order. `Bump` has the semantics the code intends. The JavaScript object as written, with `Object.prototype` members, is the separate `BumpAsWritten`.

## Findings

| source | as written | input that shows it | evidently intended | confidence | as-written member | corrected member |
|---|---|---|---|---|---|---|
| llm-labeling.ts:514 | `listAllVideos` does not reset `offset` before the testing loop, unlike lines 409 and 462 | one non-empty training page, then a testing video at offset 0: the testing walk starts at 1000 and misses it | reset `offset = 0` before the testing loop | high, not executed | Pagination.VideosSkipTestingStart | Pagination.ListAllVideosFromStart |
| llm-labeling.ts:180-182 | `total` is the limit itself when the limit is negative, and `slice(0, total)` then counts back from the end | `--limit -1` with 3 samples: `total` is -1 while 2 samples are labeled | a negative limit labels nothing, or is refused | medium, not executed | Settings.NegativeLimitMiscounts | Settings.Total |
| llm-labeling.ts:336-339 | `labelCount` is a plain object, so labels named like `Object.prototype` members are miscounted | label `toString`: `!labelCount['toString']` is false, so the count becomes NaN; label `__proto__` is never counted | count every label from 0 | medium, not executed | Progress.PrototypeLabelsMiscounted | Progress.Bump |
| llm-labeling.ts:74-77 | `proposeActionsJobId && isNaN(proposeActionsJobId)` is never true, because NaN is falsy | `--propose-actions abc`: no error, and propose mode is off, so the changes are applied for real | refuse a non-numeric job id | high, not executed | Labeling.NonNumericJobIdAccepted | Labeling.AcceptedJobIdProposes |

Each finding has both halves in the model, and the run is built on the corrected halves of two of them. `Labeling.Batch` and `Labeling.LabelAll` use `Settings.Total`, and `Progress.Counters.Finish` counts with `Progress.Bump`. The as-written behaviour is kept in `Settings.TotalAsWritten` and `Progress.BumpAsWritten`. Elsewhere the model follows the code. For example, it keeps `listAllVideos`'s offset as written, and it counts duplicates across the two categories as the code does.
