# Studbud back end: a verified model

A Dafny 4.11 model of the parts of the Studbud back end whose behaviour is hard to
see from any one function: the streaming extractor that pulls JSON objects out of a
model's answer and the generation run around it, the bounded edit distance that
decides whether a flashcard is indexed again, the keyword-extraction job queue with
its racing workers and reaper, the revision-plan normaliser, study streaks, daily
quotas, the mastery trend, and the text normalisers.

`dafny verify dfyconfig.toml` checks the whole project.

## How it is modelled

* **Objects and loops.** The extractor, its callback, the output channel, the job
  table, the keyword table, the quota table and the user's progress are classes
  whose methods update their fields; the edit-distance rows are arrays filled and
  swapped in place; the extractor's buffer is an array that is grown and reused. Each
  method is proved against a function or relation on values, and the properties are
  proved about those.
* **Databases, clocks, providers.** Tables are maps; the clock, the provider's
  replies, the flashcard read and the moment a request's context ends are arbitrary. A
  context's end shows only in selects, so that moment is the number of the first select
  that can choose it. A statement
  that would break a constraint (the partial unique index, the width of the attempts
  column, the keyword key, the weight range) fails and changes nothing.
* **Concurrency.** The job queue, the worker process and overlapping quota-checked
  calls are state machines; a result about them is a result about every sequence of
  their events.
* **Numbers.** Ratios are reals. The float64 code agrees with them: 0.10 in float64
  is off by a factor of 1 + 2^-54, too little to move a product or quotient of lengths
  across one tenth or across a whole number for any length below 2^50, and
  comparisons with one half are exact. Keyword weights are stored in a narrower column:
  the keyword table rounds them by a function given from outside before the range check.
* **Dates** are day numbers; a date text that does not parse has none. **Characters**
  are classified by functions given from outside, bound only by the laws in
  `TextFields.Lawful`.

### Where the code and its comments part

* `boundedLevenshtein` says that it returns bound + 1 above the bound. It can return up
  to three times the bound, and does for every positive one ("xy" against "yzz" with
  bound 1 gives 3); see `ThreefoldExcessIsReached`. The caller's answer never depends
  on it.
* The extractor compares a key with its backslashes dropped, and matches a nested key.
  Once it has a key it takes the next `[` anywhere: a field without an array gives the
  array of a later field, and a run then sends chapters as items. Between elements it
  ignores string literals and nesting: a brace inside a string opens an element, and a
  nested array closes the outer one. `JsonText` says exactly when a list, a value and a
  document are read as JSON means them, `JsonNames` the same for keys; both have
  documents that are misread.
* `NormalizeDays` says that it keeps the first occurrence of an ID. When a date occurs
  twice the later day replaces the earlier one, whose IDs are lost;
  `SurvivesExactlyWhen` gives the exact condition.
* A request cancelled while the provider is being called is not recorded as cancelled:
  the HTTP client reports it as a timeout, which is retried and recorded as a failure
  (`ClientMasksCancellation`). One cancelled while streaming can end as complete
  whenever the stream finishes by itself (`EndedRunCanBeComplete`,
  `CompletesExactlyWhen`), and the client closes the stream when the request ends.
* Reading the gamification state creates the day's goal row, so a day can have one
  without having been studied (`GoalsCountTheDay`).
* The running-generation check promises one generation at a time, but a call takes its
  turn at the quota check first and gets its row last, and its row is closed (by the
  run's end, or after an hour by the reaper) before it is debited: with one call
  admitted and one settled at a time, a prompt or PDF counter can still pass its limit
  by two (`QuotaOverruns.GenerationOverrunIsReached`).
* An enqueue while a job is running only merges into that job, and done or failed rows
  are not final while a worker still holds them.

## Modules

| file | content |
|---|---|
| `Basics`, `Bytes` | an optional value; byte strings |
| `EditDistance`, `BoundedLevenshtein` | edit scripts and their least length; the bounded table; the change test |
| `StreamParser`, `ElementLayout`, `FieldSearch` | the extractor as a machine; its exact result on every byte string |
| `JsonText`, `JsonNames` | the JSON round trip; what keys mean in JSON, and documents that are misread |
| `ProviderErrors`, `Delivery`, `Emission`, `ArrayParsers` | provider failures; what is offered and what is sent; the extractor and its callback as objects |
| `Generation`, `RunOutcomes`, `EndToEnd` | one generation run; which outcomes it can have; from document to client |
| `JobQueue`, `JobQueueRuns`, `WorkerPool` | the job table; every interleaving of its statements; the worker process |
| `TextFields`, `Keywords`, `KeywordRunner`, `PrefixQuery` | splitting and joining; keyword clean-up and storage; running a job; search queries |
| `PlanNormalizer`, `PlanProgress` | the plan normaliser; drift and today's bucket |
| `Streaks`, `MasteryTrend` | streaks, goals, achievements; forward fill |
| `Quota`, `QuotaRuns`, `QuotaOverruns` | the quota table; overlapping calls and how far they overrun; runs that reach those bounds |

## Model

| member | source | states |
|---|---|---|
| EditDistance.LevIsDistance | internal/keywordWorker/enqueue.go:130-151 | the table's recurrence is the least number of inserts, deletes and substitutions over all chains of single-byte edits at any positions |
| EditDistance.LevSymmetric | internal/keywordWorker/enqueue.go:100-128 | the distance does not depend on which text is the old one |
| EditDistance.LevAtLeastLengthGap | internal/keywordWorker/enqueue.go:106-108 | the distance is at least the difference in length, so the length cut-off is sound |
| BoundedLevenshtein.RowMinimumNeverDecreases | internal/keywordWorker/enqueue.go:117-125 | the minimum of a row is never below the minimum of the row above, so the early exit is sound |
| BoundedLevenshtein.NearestPrefixIsRowMinimum | internal/keywordWorker/enqueue.go:130-151 | a row's minimum is the distance to the nearest prefix of the other text: a bound for every cell, attained by one |
| BoundedLevenshtein.FillLevRow | internal/keywordWorker/enqueue.go:132-151 | the filled row holds the distances from the longer prefix to every prefix of b, and the returned value is their minimum |
| BoundedLevenshtein.BoundedDistance | internal/keywordWorker/enqueue.go:103-128 | for any texts and bound, returns bound + 1 exactly when the lengths differ by more than the bound or every prefix of b is further than the bound, otherwise the distance |
| BoundedLevenshtein.BoundedMeetsDistance | internal/keywordWorker/enqueue.go:100-128 | min(d, bound + 1) <= result <= d for the true distance d, and result = d when d is within the bound |
| BoundedLevenshtein.ExcessIsAtMostThreefold | internal/keywordWorker/enqueue.go:100-128 | for any texts the result is at most three times the bound (bound + 1 when the bound is not positive) |
| BoundedLevenshtein.ThreefoldExcessIsReached | internal/keywordWorker/enqueue.go:100-128 | for every positive bound there are texts for which exactly three times the bound is returned |
| BoundedLevenshtein.ExcessIsReportedExactlyWhen | internal/keywordWorker/enqueue.go:100-102 | the promise "above the bound, bound + 1" holds of all texts exactly when the bound is not positive |
| BoundedLevenshtein.LevenshteinRatio | internal/keywordWorker/enqueue.go:82-98 | the ratio is the capped distance over the longer length, 0 for two empty texts |
| BoundedLevenshtein.CapIsOneTenth | internal/keywordWorker/enqueue.go:82-98 | the cap is the least positive number of edits that makes up one tenth of the longer length |
| BoundedLevenshtein.CapKeepsTheAnswer | internal/keywordWorker/enqueue.go:79-98 | the cap never changes on which side of one tenth the ratio falls |
| BoundedLevenshtein.MaterialChange | internal/keywordWorker/enqueue.go:51-68 | true exactly when the combined lengths differ by at least 20 and ten times the least number of edits reaches the longer length |
| BoundedLevenshtein.MaterialSymmetric | internal/keywordWorker/enqueue.go:44-68 | the decision is the same in both directions |
| BoundedLevenshtein.ShortTextsNeedOnlyTheLengthTest | internal/keywordWorker/enqueue.go:61-67 | up to 200 bytes the length test alone decides |
| BoundedLevenshtein.LongTextsNeedBothTests | internal/keywordWorker/enqueue.go:61-67 | for every longer length some edit passes the length test and is not material |
| StreamParser.ChunkingIsInvisible | pkg/aipipeline/streamparse.go:41-45 | feeding chunk by chunk gives the state and the elements of feeding the concatenation |
| StreamParser.ElementsArePrefixClosed | pkg/aipipeline/streamparse.go:41-45 | what is fired for a prefix of the stream is a prefix of what is fired for the whole |
| StreamParser.EveryRunIsValid | pkg/aipipeline/streamparse.go:48-152 | for any bytes: escape only inside a string, strings only while searching or inside an element, depth >= 1 exactly inside an element, an element's buffer starts with '{' and is empty elsewhere |
| StreamParser.DoneIsAbsorbing | pkg/aipipeline/streamparse.go:31-33 | after the array closes nothing changes or is fired |
| ElementLayout.ObjectIsFired | pkg/aipipeline/streamparse.go:103-152 | between elements, a text whose string-aware brace depth is first 0 at its last byte is fired whole and leaves the parser between elements |
| ElementLayout.ElementStepIsSound | pkg/aipipeline/streamparse.go:116-152 | inside an element the buffer always spells tokens of an unclosed object plus perhaps an unfinished literal; when an element is fired it is such an object, just closed |
| ElementLayout.ObjectTextIsNotEmpty | pkg/aipipeline/streamparse.go:103-137 | every fired element starts with '{' and ends with '}' |
| ElementLayout.LayoutExact | pkg/aipipeline/streamparse.go:103-152 | for every array body: the elements fired are exactly its disjoint, ordered, gap-separated object texts, and no others |
| FieldSearch.UnnamedIsSearched | pkg/aipipeline/streamparse.go:62-93 | tokens in which no ':' follows the field's name leave the parser searching, remembering the last name |
| FieldSearch.OpeningIsReached | pkg/aipipeline/streamparse.go:62-100 | the array opens at the first '[' after the first ':' that follows the field's name |
| FieldSearch.ElementsExact | pkg/aipipeline/streamparse.go:48-152 | for every byte string, JSON or not: a fresh parser fires es if and only if the array of the first matching name lays out es, or es is empty and no array opens |
| JsonText.PrintedObjectIsObjectText | pkg/aipipeline/streamparse.go:115-152 | every printed JSON object, with any nesting, escapes and white space, is one element text |
| JsonNames.PrintedObjects | pkg/aipipeline/streamparse.go:62-152 | the bytes of printed objects with no, one and two members |
| JsonNames.PrintedArrays | pkg/aipipeline/streamparse.go:95-113 | the bytes of printed arrays with no, one and two items |
| JsonNames.PrintedStrings | pkg/aipipeline/streamparse.go:62-93 | a printed string is its spelling between quotes, a plain character as itself and an escaped one after a backslash |
| JsonText.ItemsAreFired | pkg/aipipeline/streamparse.go:103-137 | a printed list whose items are objects, or values without '{' and ']', fires exactly its objects, in order, white space and commas dropped |
| JsonText.ListIsReadExactlyWhen | pkg/aipipeline/streamparse.go:103-137 | a list of JSON values is read as its objects, item by item, exactly when every item is an object or holds neither '{' nor ']' |
| JsonText.RoundTrip | pkg/aipipeline/streamparse.go:35-152 | for any JSON document, following the search through it: where it ends at an array whose items are objects, or hold neither '{' nor ']', exactly the objects are fired as printed, in order, whatever follows; a search that does not end fires nothing; only a '[' inside a string or key, met while waiting, leads astray |
| JsonText.FirstValueIsReadExactlyWhen | pkg/aipipeline/streamparse.go:61-101 | the array read is the value of the first member, at any depth, whose stripped key is the field, exactly when that value is an array; no key is found exactly when there is no such member |
| JsonText.ValueGoesByExactlyWhen | pkg/aipipeline/streamparse.go:95-101 | once the key was found, a value is passed over exactly when it holds no '[' |
| JsonText.SkippedExactlyWithoutBracket | pkg/aipipeline/streamparse.go:95-101 | waiting for the array, exactly the byte strings without a '[' leave the parser as it is |
| JsonNames.StripDecodesExactlyWhen | pkg/aipipeline/streamparse.go:78-93 | a JSON string with its backslashes dropped is the text it stands for exactly when each of its escapes is of a quote, a backslash or a slash |
| JsonNames.DecodedForms | pkg/aipipeline/streamparse.go:78-93 | what the eight short escapes stand for in JSON, and a coded character of each length in UTF-8 |
| JsonNames.LoneCodeDecodes | pkg/aipipeline/streamparse.go:78-93 | what one coded character stands for in JSON: its code point, or the replacement character for a half of a surrogate pair |
| JsonNames.PairedCodesDecode | pkg/aipipeline/streamparse.go:78-93 | what two coded characters that pair up stand for in JSON: one code point beyond 0xFFFF |
| JsonNames.KeyOpensExactlyWhen | pkg/aipipeline/streamparse.go:62-93 | for every key and field: the array under the key is read exactly when the key with its backslashes dropped is the field, otherwise nothing is fired |
| JsonNames.KeyIsReadAsJsonExactlyWhen | pkg/aipipeline/streamparse.go:62-93 | a key opens its array for the field it names in JSON and for no other exactly when each of its escapes is of a quote, a backslash or a slash |
| JsonNames.TabbedKeyIsMisread | pkg/aipipeline/streamparse.go:78-93 | the key with an escaped t, another name in JSON, is taken for "items" and its array is read |
| JsonNames.CodedKeyIsMisread | pkg/aipipeline/streamparse.go:78-93 | a key that is "items" in JSON, its first letter written as a code, is not found |
| JsonNames.NestedKeyWins | pkg/aipipeline/streamparse.go:62-75 | a nested member with the field as its key is read instead of a later top-level one |
| JsonNames.NoArrayGivesTheNext | pkg/aipipeline/streamparse.go:95-101 | when the field's value, such as null, holds no '[', the array of another field is read in its place |
| JsonNames.NestedArrayEndsTheReading | pkg/aipipeline/streamparse.go:103-113 | a nested array is read as if it were the array itself, and no object after it is fired |
| JsonNames.StringItemIsTakenForObject | pkg/aipipeline/streamparse.go:103-113 | an array whose only item is the string "{}" fires an object |
| JsonNames.StringValueIsTakenForArray | pkg/aipipeline/streamparse.go:95-101 | a field whose value is the string "[{}]" fires an object |
| Emission.Emitter.OnElement | pkg/aipipeline/service_generation.go:177-205 | a well-formed element is copied to a fresh array and offered in one select: sent unless that select can choose the context's end; malformed items are counted as dropped; only items touch the counters |
| ArrayParsers.ArrayParser.Append | pkg/aipipeline/streamparse.go:116-117 | one byte more at the end of the buffer, in place or in a fresh array, contents kept |
| ArrayParsers.ArrayParser.CloseElement | pkg/aipipeline/streamparse.go:129-136 | the callback is given exactly the buffered bytes before the buffer is restarted |
| ArrayParsers.ArrayParser.StepByte | pkg/aipipeline/streamparse.go:48-59 | one byte takes the object to the machine's next state; at most one element is fired; arrays already sent are not written to |
| ArrayParsers.ArrayParser.Feed | pkg/aipipeline/streamparse.go:41-45 | feeding bytes is the machine's run; every well-formed fired element is one select, and what is added to the channel is those offered before the end can be chosen, all of them in order, and any later ones; every payload sent earlier keeps its bytes |
| Delivery.DeliveredExactly | pkg/aipipeline/service_generation.go:177-205 | if the context outlasts the selects, what is sent is exactly all that is offered, in order |
| Delivery.NothingIsLostBeforeTheEnd | pkg/aipipeline/service_generation.go:177-205 | what is offered before the select that can first choose the end is delivered whole and before anything else |
| ProviderErrors.RetriedExactlyWhen | pkg/aipipeline/errors.go:12-111 | a start failure is retried exactly when it is no image overflow and is a transient code or not one of the client's own errors |
| ProviderErrors.CancelledAtStartExactlyWhen | pkg/aipipeline/errors.go:12-61 | a start failure is recorded as cancelled exactly when it is marked as a cancellation and as one of the recognised errors and is no image overflow |
| ProviderErrors.ClientMasksCancellation | internal/aiProvider/sse.go:79-96 | whatever the HTTP client runs into, a start is never recorded as cancelled; a cancelled transport is retried and recorded as provider_timeout, unless images were sent and its wording hints at their size |
| ProviderErrors.HttpStatusDecides | internal/aiProvider/sse.go:79-91 | per HTTP status: asked again exactly for 429 and outside 400-499; the recorded kind (429 rate limit, 422 content policy, other 4xx bad request, else provider_5xx; 413 with images internal); always failed |
| ProviderErrors.OtherFailuresDecide | internal/aiProvider/sse.go:93-96 | a failed transport or an unbuilt request is asked again and recorded as provider_timeout or provider_5xx, unless images were sent and the wording hints at their size |
| Generation.FeedBoth | pkg/aipipeline/service_generation.go:218-221 | after each chunk both extractors are where the bytes fed so far put each of them alone, and the channel and the counters hold what was sent of the offers of all chunks, items before chapters in each |
| Generation.FeedChunks | pkg/aipipeline/service_generation.go:208-227 | without an error everything up to the chunk marked last, or to the close, has been read; an error is the context's, and then the end had come by the select for the next chunk or the provider hangs |
| Generation.ConsumedExactly | pkg/aipipeline/service_generation.go:208-227 | a stream is read up to and including its first chunk marked last, or whole when there is none |
| Generation.ConsumeStream | pkg/aipipeline/service_generation.go:162-174 | one stream: the channel and both counters in terms of the chunks read, and why it was left |
| Generation.StreamOnce | pkg/aipipeline/service_generation.go:141-155 | one provider call; a refused start sends and counts nothing |
| Generation.Finalize | pkg/aipipeline/service_generation.go:230-258 | one terminal chunk; the row's status, kind and counts; one call and no pages debited exactly on success with items |
| Generation.Drive | pkg/aipipeline/service_generation.go:121-128 | every run, for any provider and any moment at which the context ends: payloads, exactly one Done or Error, then closed; what was offered before the end is all sent, in the order of the chunks; recorded items = items sent; at most two provider calls; a retry never follows sent items; a debit exactly on success with items, on the day the run ends; recorded as cancelled exactly for a cancellation that ended the stream or a start failure recognised as one |
| Generation.AskedTwiceExactlyWhen | pkg/aipipeline/service_generation.go:121-128 | a run whose first start is refused with an HTTP status asks the provider again exactly for 429 and statuses outside 400-499 |
| RunOutcomes.CompletesExactlyWhen | pkg/aipipeline/service_generation.go:208-241 | for every stream and every moment of the context's end, some outcome is complete exactly when the stream finishes by itself (a last chunk, or closed): so a cancelled run is sure not to be recorded as complete exactly when the provider hangs |
| RunOutcomes.IsCutShortExactlyWhen | pkg/aipipeline/service_generation.go:208-227 | some outcome is cut short by the context exactly when the provider hangs or the end comes by the select that receives the last chunk, or by the one that would see the close |
| RunOutcomes.EndedRunCanBeComplete | pkg/aipipeline/service_generation.go:208-241 | a context that ended before the run started need not show: every finishing stream has the outcome "complete" with nothing sent |
| RunOutcomes.CompleteForSureExactlyWhen | pkg/aipipeline/service_generation.go:162-241 | success with everything sent is certain exactly when the stream finishes and the context ends after every select that the run makes |
| EndToEnd.AllOffers | pkg/aipipeline/service_generation.go:157-174 | whatever the chunks, a run offers exactly the well-formed elements that each extractor alone fires over the concatenated bytes |
| EndToEnd.OutlastedRunSendsAll | pkg/aipipeline/service_generation.go:208-241 | a run that its context outlasts sends the client exactly all that is offered, in the order of the chunks |
| EndToEnd.UncancelledRunSendsTheItems | pkg/aipipeline/service_generation.go:157-174 | then a document streamed in any chunks reaches the client as exactly its printed items, none dropped |
| EndToEnd.UncancelledRunSendsTheChapters | pkg/aipipeline/service_generation.go:157-174 | the same for chapters, which are sent only when the request keeps them |
| EndToEnd.WithoutItemsTheChaptersAreSentAsItems | pkg/aipipeline/service_generation.go:157-190 | a document whose items value holds no '[', such as null: its chapters are sent and counted as items |
| JobQueue.JobTable.Enqueue | internal/keywordWorker/queries.go:3-10 | a new pending row, or the flashcard's in-flight row at the higher priority |
| JobQueue.JobTable.Foremost | internal/keywordWorker/queries.go:16-20 | picks a row that no other of the given ones beats by priority, then by age |
| JobQueue.JobTable.ClaimPending | internal/keywordWorker/queries.go:12-23 | claims min(n, pending) distinct rows, leaves none that beats a claimed one, and changes only those |
| JobQueue.ClaimExactlyWhen | internal/keywordWorker/queries.go:12-23 | a claim is any min(n, pending) of the pending rows such that no pending row outside has a higher priority, or the same and an earlier time |
| JobQueue.JobTable.Finish | internal/keywordWorker/queries.go:25-35 | the row becomes done or failed whatever its state was |
| JobQueue.JobTable.RequeueAfterError | internal/keywordWorker/queries.go:37-42 | back to pending at retry priority with one more attempt, or nothing when another row is in flight or the counter is full |
| JobQueue.JobTable.ReapStuckRunning | internal/keywordWorker/queries.go:50-55 | every row running for over 300 seconds goes back to pending with one more attempt, or none does when one of them has a full counter; every other row stays as it is |
| JobQueueRuns.EnqueueLeavesOneJob | internal/keywordWorker/queries.go:3-10 | after an enqueue the flashcard has exactly one in-flight row, at a priority no lower than asked; all other rows are unchanged |
| JobQueueRuns.RequeuedJobYields | internal/keywordWorker/queries.go:12-42 | a requeued job is never claimed ahead of a pending job of user priority |
| JobQueueRuns.EveryRun | internal/keywordWorker/queries.go:3-55 | in every interleaving, stale workers included: one in-flight row per flashcard; claims <= attempts + 1, <= attempts while pending; no more workers hold a row than the run has claims of it |
| JobQueueRuns.CountersCountEvents | internal/keywordWorker/queries.go:12-42 | in every run a row is held by as many workers as there were claims of it less the completions, requeues and crashes of it |
| JobQueueRuns.ReapRecoversEveryRow | cmd/app/main.go:93-111 | in every reachable state a reap after more than five minutes leaves no row running, or, with a full counter, does nothing |
| JobQueueRuns.FreshClaimSurvivesReap | internal/keywordWorker/queries.go:50-55 | in every reachable state, a row claimed and reaped within 300 seconds is exactly as the claim left it |
| JobQueueRuns.TerminalRowChangesExactlyBy | internal/keywordWorker/queries.go:25-42 | a done or failed row changes exactly by a holder's requeue that the index admits, a holder's contrary completion, or deletion |
| JobQueueRuns.ReleasedTerminalRowIsFinal | internal/keywordWorker/queries.go:25-55 | once no worker holds it, a done or failed row keeps its contents through every run |
| JobQueueRuns.StaleWorkerRevivesDoneRow | internal/keywordWorker/runner.go:113-124 | a reachable run after which a stale worker puts a done row back to pending |
| WorkerPool.EveryRun | internal/keywordWorker/worker.go:94-179 | no claimed job is lost sight of or duplicated, consumers receive in claim order, and at most three jobs per worker are claimed and unsettled |
| WorkerPool.AfterShutdown | internal/keywordWorker/worker.go:88-179 | after shutdown the claimed jobs are the finished, the dropped and those left in the channel |
| WorkerPool.FinishedAndDroppedBy | internal/keywordWorker/worker.go:94-179 | only a finish settles a job, and only the end of polling or a failed limiter drops one |
| WorkerPool.BoundIsReached | internal/keywordWorker/worker.go:94-179 | for any number of workers a run claims three jobs per worker and settles none, so the bound is exact |
| Keywords.NormalFormIsTheWords | internal/keywordWorker/postprocess.go:36-45 | a keyword's normal form is its words joined by single spaces, each with the same number of characters, lower-cased one by one |
| Keywords.SameKeyExactlyWhen | internal/keywordWorker/postprocess.go:36-45 | two keywords fall together exactly when they have the same number of words, of the same lengths, with characters that agree in lower case |
| Keywords.CaseDoesNotMatter | internal/keywordWorker/postprocess.go:36-45 | texts that agree character by character in lower case have one normal form |
| Keywords.NormalFormIsLower | internal/keywordWorker/postprocess.go:36-45 | lower-casing any character of a normal form leaves it as it is |
| Keywords.NormalizeIsIdempotent | internal/keywordWorker/postprocess.go:36-45 | normalising twice is normalising once |
| Keywords.Postprocess | internal/keywordWorker/postprocess.go:12-34 | the result lists, each once, every normal form of 1 to 64 bytes that occurs, at the greatest weight it occurs with |
| Keywords.CleanedKeyword | internal/keywordWorker/postprocess.go:12-34 | every cleaned keyword is not empty, at most 64 bytes long, listed once, and the normal form and weight of one input keyword |
| Keywords.EligibleKeyword | internal/keywordWorker/postprocess.go:12-34 | every input keyword with a normal form of 1 to 64 bytes is listed under it at no lower a weight |
| Keywords.SizeAddsUp | internal/keywordWorker/postprocess.go:22 | the length of a text in bytes is the sum of the widths of its characters |
| Keywords.BestIgnoresOrder | internal/keywordWorker/postprocess.go:12-34 | the result as a set does not depend on the order or repetition of the input |
| Keywords.SecondPassChangesNothing | internal/keywordWorker/postprocess.go:12-34 | cleaning the cleaned list keeps every entry and weight |
| Keywords.KeywordTable.ReplaceKeywords | internal/keywordWorker/runner.go:140-160 | all or nothing: stored exactly when the keys are distinct and every weight, rounded to the column's precision, lies in [0, 1]; otherwise no row changes |
| Keywords.ReplacedRows | internal/keywordWorker/runner.go:140-160 | the flashcard's rows are the list with rounded weights, all other rows are unchanged |
| KeywordRunner.RunJob | internal/keywordWorker/runner.go:80-124 | a job is done exactly when its flashcard is gone or its keywords were stored, otherwise requeued if the context ended, else failed; a cleaned list is never refused for a repeated key, only for a weight that rounds to one outside [0, 1]; keyword rows change exactly when stored, to the best weights of the answer |
| KeywordRunner.SettledRow | internal/keywordWorker/runner.go:113-124 | the whole table after each verdict: done, failed, or back to pending at priority 0 with one more attempt unless another row is in flight or the counter is full |
| KeywordRunner.StoredRow | internal/keywordWorker/runner.go:140-160 | each keyword row after storing: the list's for this flashcard, unchanged for any other, with a weight in [0, 1] |
| KeywordRunner.RunOnce | internal/keywordWorker/runner.go:40-53 | claims one foremost pending row, settles it by the verdict of its run, changes keyword rows at most to the cleaned answer for its own flashcard, and returns 1; or changes nothing and returns 0 when none is pending |
| KeywordRunner.DrainsInPendingManyRuns | internal/keywordWorker/runner.go:38-53 | with no new jobs and no cancellation, k runs leave max(0, pending - k) pending rows |
| TextFields.FieldsOfJoin | internal/keywordWorker/postprocess.go:44 | joining words with a space and splitting gives the words back |
| TextFields.SplitExactlyAtSpaces | internal/keywordWorker/postprocess.go:44 | a text is split at every space character and nowhere else, without empty parts |
| PrefixQuery.BuildPrefixTSQuery | pkg/search/service.go:59-73 | the query is the search tokens of the text, each followed by ":*", joined by " & " |
| PrefixQuery.QueryKeepsTokens | pkg/search/service.go:56-73 | splitting a query recovers its tokens |
| PrefixQuery.BuildIsIdempotent | pkg/search/service.go:56-73 | building from a query gives the same query |
| PrefixQuery.SameQueryExactlyWhen | pkg/search/service.go:56-73 | two texts give the same query exactly when they have the same tokens |
| PrefixQuery.TokensHoldEveryAlnum | pkg/search/service.go:56-73 | the tokens hold every letter and digit of the text in order; the query is empty exactly when there is none |
| PrefixQuery.TokensExactly | pkg/search/service.go:59-73 | the text is cut at every space character; each part without one gives the token of its letters and digits in order, or none |
| PrefixQuery.QueryText | pkg/search/service.go:59-73 | the query written out: each token with ":*", " & " between them, empty without a token |
| PlanNormalizer.FilterAllowed | pkg/plan/postprocess.go:69-85 | the allowed IDs not seen before, first occurrences in order; they are added to the seen set |
| PlanNormalizer.CleanDay | pkg/plan/postprocess.go:47-65 | rejects exactly malformed or out-of-range days without touching the seen set; otherwise keeps an ID in the first of primary, cross and deeper that lists it where allowed |
| PlanNormalizer.NormalizeDays | pkg/plan/postprocess.go:26-43 | the loops over a mutated seen set and date map compute the plan that the lemmas below are about |
| PlanNormalizer.OneDayPerDate | pkg/plan/postprocess.go:87-103 | exactly one day per date of the window, ascending; none for an empty window |
| PlanNormalizer.EachDayIsDrawnFromInput | pkg/plan/postprocess.go:45-85 | every list holds only its allowed IDs, none twice in the day, and is a subsequence of that list of the last input day of its date |
| PlanNormalizer.EveryCard | pkg/plan/postprocess.go:26-85 | for every ID, day and list, exactly when it is there: listed there where allowed by the last day of its date, by no earlier in-range day where allowed, and not by an earlier list of the same day where allowed |
| PlanNormalizer.EveryListInOrder | pkg/plan/postprocess.go:69-85 | each list holds entries of the input list in their order, each ID at the place of its first occurrence |
| PlanNormalizer.UnlistedDateIsEmpty | pkg/plan/postprocess.go:87-103 | a date without an input day gets a day with three empty lists |
| PlanNormalizer.NoCardTwice | pkg/plan/postprocess.go:19-43 | no ID occurs on two days or twice on one |
| PlanNormalizer.SurvivesExactlyWhen | pkg/plan/postprocess.go:35-41 | an ID is in the output exactly when the in-range day that first lists it where allowed is the last of its date |
| PlanNormalizer.DistinctDatesLoseNothing | pkg/plan/postprocess.go:35-41 | with distinct dates the output holds exactly the IDs listed in range where allowed |
| PlanNormalizer.RepeatedDateLosesCard | pkg/plan/postprocess.go:35-41 | a repeated date can lose an ID that it lists twice |
| PlanNormalizer.NormalizeIsIdempotent | pkg/plan/postprocess.go:19-43 | normalising its own output under the same rules changes nothing |
| PlanNormalizer.SortLeavesNormalizedAlone | pkg/plan/postprocess.go:120-126 | any sorting by date of a normalised plan is that plan |
| PlanProgress.DayIsBehind | pkg/plan/drift.go:35-51 | true exactly when fewer than half of the required cards are done; never for a day without cards |
| PlanProgress.CalculateDrift | pkg/plan/drift.go:14-33 | counts the past dated days of which fewer than half was done and suggests a new plan from two on |
| PlanProgress.DriftCountsMissedDays | pkg/plan/drift.go:14-51 | the count is the number of days whose date parses and is before today and fewer than half of whose primary and cross cards, counted by position, are in the marks of that date |
| PlanProgress.BuildToday | pkg/plan/read.go:75-104 | the first day dated today with its done cards in order and the goal flag, or an empty bucket |
| PlanProgress.GoalMetExactlyWhen | pkg/plan/read.go:87-104 | the goal is met exactly when there is a required card and all are done; such a day is not behind |
| PlanProgress.MarkingNeverRaisesDrift | pkg/plan/drift.go:14-51 | more marks, on any days, never raise the count |
| PlanProgress.OneMarkNeverRaisesDrift | pkg/plan/read.go:40-56 | one insert never raises the count |
| PlanProgress.MarkIsAnInsert | pkg/plan/read.go:40-56 | a mark adds one card to one day's marks and changes no other day; marking twice is marking once |
| PlanProgress.TimeNeverLowersDrift | pkg/plan/drift.go:14-33 | a later today never lowers the count |
| PlanProgress.FreshPlanDrift | pkg/plan/drift.go:14-33 | n days after generation at most n days are behind, so none on the day itself |
| Streaks.UserProgress.PersistUnlocks | pkg/gamification/service.go:340-361 | earned achievements are added; the ones returned are exactly those not there before |
| Streaks.UserProgress.GetState | pkg/gamification/service.go:32-42 | reading the state creates today's goal row with the preference of the moment if there is none, and changes nothing else |
| Streaks.UserProgress.RecordSession | pkg/gamification/service.go:46-70 | invalid input and missing access change nothing; an accepted session updates streak, goal, totals and unlocks together |
| Streaks.StreaksAreLongestRuns | pkg/gamification/service.go:184-214 | after every history of sessions and looks whose sessions are in day order, the current streak is the longest run of studied days ending on the last session's day, and the best streak the longest anywhere |
| Streaks.AchievementsMatchTotals | pkg/gamification/service.go:292-335 | each achievement is unlocked exactly when the best streak or the total it asks for has been reached |
| Streaks.AwardedExactlyOnce | pkg/gamification/service.go:340-361 | every unlocked achievement was newly awarded by one session and by only one |
| Streaks.GoalsCountTheDay | pkg/gamification/service.go:237-268 | a day's goal row exists exactly if there was a session or a look that day, counts the cards of the day's sessions, and keeps the preference at the day's first event of either kind |
| MasteryTrend.ForwardFillSeries | pkg/subject/service.go:358-371 | one value per day from the first known day in range to today, each the latest known at that day |
| MasteryTrend.FilledIsUnique | pkg/subject/service.go:354-371 | that description determines the series |
| MasteryTrend.LaterStartIsSuffix | pkg/subject/service.go:354-371 | over the same data a later start gives a suffix of the earlier start's series |
| MasteryTrend.OnlyRowsSinceMatter | pkg/subject/service.go:306-329 | restricting the rows to the start day changes nothing |
| MasteryTrend.BuildTrend | pkg/subject/service.go:297-334 | the period's series and its last minus first value, 0 below two points |
| MasteryTrend.WeekEndsMonth | pkg/subject/service.go:337-352 | the 7-day series is the end of the 30-day one, and its delta the change over that end |
| MasteryTrend.PeriodsSpan | pkg/subject/service.go:337-352 | a week has at most 7 values, a month 30, and all the days since creation; that many exactly when the first day has a value of its own |
| Quota.QuotaTable.CheckQuota | pkg/aipipeline/quota.go:49-68 | decides on today's entry of the caller, or on zeros when there is none, which it then creates; refuses naming the bucket exactly when its counter has reached the limit or the pages would pass theirs; changes no entry |
| Quota.QuotaTable.DebitQuota | pkg/aipipeline/quota.go:125-170 | adds to the feature's counter, and for PDF to the pages, in the caller's row of today only, starting from zeros when there is none; fails exactly for calls of a feature without a counter |
| QuotaRuns.CountersTallyDebits | pkg/aipipeline/quota.go:140-170 | in every run each counter holds exactly the calls debited to its feature since midnight |
| QuotaRuns.TableHoldsTheCounters | pkg/aipipeline/quota.go:49-170 | after any run the table's entry for the user and day is the row of counters of that run, or absent and all zeros; no other user's entry is touched |
| QuotaRuns.OverrunIsBounded | pkg/aipipeline/quota.go:73-98 | in every run, across midnights: used + in flight <= limit - 1 + overlap; one at a time, used never exceeds the limit |
| QuotaOverruns.OverrunIsReached | pkg/aipipeline/service_check.go:68-93 | for checks and plans some run uses exactly limit - 1 + overlap, even when calls are admitted and settled one at a time |
| QuotaRuns.GenerationOverrunIsBounded | pkg/aipipeline/service_generation.go:33-93 | however many prompt or PDF calls are asked for, their running rows never exceed the calls being admitted at once, and used + in flight <= limit - 1 + the lesser of the overlap and 2 x admitting + closing |
| QuotaOverruns.GenerationOverrunIsReached | pkg/aipipeline/service_generation.go:229-241 | that bound is exact for every limit and every overlap: the quota check is passed before the running-generation check, and a row is closed before its call is debited |
| QuotaRuns.PagesAreNeverDebited | pkg/aipipeline/service_generation.go:236-239 | in every run the page limit is compared with the request's own pages only |

## Left out

- Admission's entitlement and subject-access reads: single-branch checks before the quota check, which `QuotaRuns` starts from.
- Database statements that fail for reasons other than the modelled constraints: the run ignores such failures when it records a result or debits a call.
- Concurrent claims that skip each other's locked rows: each statement is one step here.
- The backfill insert at start-up: an enqueue at the lowest priority for every flashcard without an in-flight row.
- A debit that straddles midnight between creating the row and updating it.
- Liveness: a send that nobody receives blocks for ever, and nothing here says that a run ends.
- What makes an object well formed: `json.Unmarshal` is a parameter of the run.
- Raw bytes inside a JSON string are taken as they are: that they are UTF-8 is not checked, and a half of a surrogate pair stands for the replacement character, as Go decodes it.
- Token counts and cents of a run, which the code never sets.
- Text encoding: keywords and queries are sequences of characters with a byte width each; invalid UTF-8 is not modelled.
- Storing keywords for a flashcard deleted during its run is covered by the broken-store case, without the foreign key.
- The idle delay of the poller, the rate limiter's pace, and cron timing.
- Session history that runs backwards in time: the streak results ask for days in order.
- HTTP handlers, middleware, billing, email, file storage, PDF handling, prompts, SQL ranking and the CRUD services: input and output or single-branch checks.
