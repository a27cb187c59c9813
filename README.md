# QuiVer query service: a Dafny model

This project models the query layer of the QuiVer MongoDB service. The service stores
three kinds of document in one collection:

- ground-truth workspaces (`gt_workspace`);
- OCR workflows (`steps`);
- evaluation runs (`eval_workflow_id`, with a `metadata` block carrying a `timestamp`).

It answers lookups with filter-then-normalise compositions. The model proves what these
compositions return.

- **Normaliser** (`Commons`): `remove_mongodb_id_from_result`. It copies each record and
  deletes `_id`, and for the result type `"gt"` it unwraps `gt_workspace`. It is a `for`
  loop proved against `Normalised`, which is built on `Results.MapAll`.
- **Store** (`Store`): the collection is a class. It holds `docs: seq<JVal>` and
  `nextOid`, plus the constant `acknowledged`.
  - `find` is the order-preserving filter `Select`.
  - `insert_one` appends the document behind a fresh `_id`.
  - Filters are `Exists`, `Regex` and `And` over dotted paths.
- **Ground truths and workflows** (`Gt`, `Workflows`): `get_all_*`, `get_*` and
  `post_new_*`.
- **Run dates** (`Temporal`):
  - Timestamps are cut at the first `'T'` and parsed as `'%Y-%m-%d'`.
  - The date closest to the clock comes from `min` by absolute distance; on ties the
    first one in list order wins.
  - The result is formatted back as `YYYY-MM-DD`.
  - The inclusive date-range filter has two steps.
- **Run queries** (`Runs`):
  - all runs, and runs by ground truth (with or without a workflow), each with the "both
    bounds present" gate;
  - the latest runs, found by querying again with the closest date;
  - `extract_ids`;
  - the ground-truth × workflow nested loop of `get_all_latest_runs`;
  - `post_new_result`.
- **Supporting modules**:
  - `Json` holds documents as ordered key/value lists. Lookup takes the first entry of
    a key, which is the dict lookup on documents whose keys are unique, as every
    decoded document's are; the model relies on that convention.
  - `Dates` holds calendar dates, with the day ordinal of `date.toordinal` and the
    `'%Y-%m-%d'` text form.
  - `Models` holds the inbound payloads and their `model_dump()`.
  - `Seqs` holds the subsequence and substring relations.

Each Python operation that loops or touches the collection is a method. Its `ensures`
ties its result (or the new state) to a specification function. The lemmas prove what
the source promises about those functions.

The clock `datetime.today()` is the parameter `nowMicros`. It counts microseconds on the
same time line as the parsed dates: midnight of ordinal day `n` is
`n * Dates.MicrosPerDay`. Distances therefore follow `datetime` subtraction at
microsecond resolution, not whole days.

Behaviour of the code worth knowing, as modelled:

- The normaliser prunes no null-valued fields. It only deletes `_id` (and unwraps for
  `"gt"`). Normalising its own output again fails with `KeyError('_id')`, so it is not
  idempotent (`Commons.NormaliseTwiceFails`).
- `get_all_latest_runs` has no entry for a (ground truth, workflow) pair without runs.
  Such a pair makes `min` raise inside `get_latest_runs`, and the whole call fails
  (`Runs.PairWithoutRunsFailsAll`).
- In `find_results_within_date_range`, `if wf_regex:` tests a compiled `Pattern`, which
  is always truthy. The workflow filter therefore applies exactly when a workflow id was
  passed (`Runs.ResultsWithinRange`).
- The date-range branch is taken only when both bounds are non-empty strings
  (`Runs.Truthy`). Otherwise any bound given is ignored.

## Model

| member | source | states |
|---|---|---|
| Commons.NormaliseRecord | src/commons.py:12-15 | one record fails iff it is no object, lacks `_id`, or lacks `gt_workspace` under "gt"; outside "gt" the output has no `_id` and every other key unchanged; under "gt" it is the `gt_workspace` value |
| Commons.RemoveMongoIdFromResult | src/commons.py:5-17 | the loop returns exactly `Normalised(json_data, result_type)`, including the error of the first bad record |
| Commons.NormalisedOneToOne | src/commons.py:10-17 | the call succeeds iff every record normalises; then one output per record, in order, output i being record i normalised |
| Commons.RecordWithoutId | src/commons.py:12-14 | outside "gt" an output is its record minus `_id`: `_id` is gone and every other key keeps its value |
| Commons.RecordUnwrapped | src/commons.py:14-15 | for "gt" an output is exactly the record's `gt_workspace` value, and the record had both `_id` and `gt_workspace` |
| Commons.RecordErrors | src/commons.py:12-15 | a non-object is a TypeError; a record without `_id` is KeyError('_id'); with `_id`, a record fails iff the type is "gt" and `gt_workspace` is missing |
| Commons.NormalisedFirstError | src/commons.py:11-15 | a failing call reports the error of its first failing record, all earlier records being fine |
| Commons.NormalisedIdentified | src/commons.py:11-15 | records that all carry `_id` (and `gt_workspace` for "gt") normalise without error |
| Commons.NormaliseTwiceFails | src/commons.py:13 | normalising the (non-empty) output again fails with KeyError('_id') |
| Commons.NormalisedSubseq | src/commons.py:10-17 | a subsequence of records normalises to a subsequence of the outputs |
| Commons.NormalisedAppend | src/commons.py:16 | one more record appends exactly its own output |
| Commons.NormalisedStripsIds | src/commons.py:12-13 | identified records under a non-"gt" type come out one for one as `JObj(Delete(fields, "_id"))` |
| Commons.StoredNormalises | src/commons.py:12-15 | a freshly inserted document normalises back to the inserted payload (its `gt_workspace` for "gt") |
| Store.SelectFilters | src/gt.py:17 | the selection is a subsequence of the store; `x` is selected iff it is stored and satisfies the filter, and then as many times as it is stored |
| Store.Collection.Find | src/gt.py:17 | `coll.find(filter)` on the collection's documents: the same subsequence, membership and multiplicity statement |
| Store.SelectNarrower | src/gt.py:17-29 | a filter implied by another selects a superset subsequence of it |
| Store.SelectAppend | src/gt.py:44 | appending a document appends it to a selection exactly when it satisfies the filter |
| Store.SelectNone | src/gt.py:29-32 | a filter no document satisfies selects nothing |
| Store.Collection.constructor | src/gt.py:12 | an empty, valid collection with the given acknowledgement |
| Store.Collection.InsertOne | src/gt.py:44 | the store gains the payload behind a fresh `_id` at the end, all other documents unchanged, ids stay distinct; answers `acknowledged` |
| Store.ValidIdentified | src/commons.py:13 | every document of a valid collection carries `_id` |
| Store.SelectIdentified | src/commons.py:13 | every document found in an identified store carries `_id` |
| Gt.GetAllGt | src/gt.py:12-20 | returns `Normalised(Select(docs, gt_workspace exists), "gt")` |
| Gt.GetGt | src/gt.py:23-32 | returns `Normalised(Select(docs, gt_workspace.id ~ gt_id), "gt")` |
| Gt.PostNewGt | src/gt.py:35-45 | appends the dumped model under a fresh `_id`, changes nothing else, answers `str(acknowledged)` |
| Gt.HasGtWorkspaceMeans | src/gt.py:17 | the existence filter holds iff the document has a `gt_workspace` key |
| Gt.GtIdPathReads | src/gt.py:29 | the id filter reads `gt_workspace`, then its `id` |
| Gt.GtIdFilterNarrower | src/gt.py:17-29 | a document matched by id has a `gt_workspace` |
| Gt.AllGtUnwraps | src/gt.py:17-20 | in an identified store: success, one output per document with `gt_workspace`, in order, each exactly that `gt_workspace` value |
| Gt.GtMatchingUnwraps | src/gt.py:28-32 | in an identified store: success, one output per document whose `gt_workspace.id` matches, in order, each exactly that document's `gt_workspace` value |
| Gt.GtMatchingWithinAllGt | src/gt.py:17-32 | `get_gt(x)` is an order-preserving subsequence of `get_all_gt()` |
| Gt.GtNoMatch | src/gt.py:29-32 | a fragment matching nothing gives an empty list, not an error |
| Gt.FragmentFacts | src/gt.py:28-29 | "abc-123" contains "123" and not "xyz" |
| Gt.GtMatchingByFragment | src/gt.py:28-32 | on a stored "abc-123", `get_gt("123")` returns that `gt_workspace` and `get_gt("xyz")` returns nothing |
| Gt.StoredGt | src/gt.py:44 | for an id without regex metacharacters, the stored ground truth is listed, found by its own id, and normalises to its `gt_workspace` |
| Gt.PostThenGetGt | src/gt.py:17-45 | for an id without regex metacharacters, after an insert, `get_all_gt` and `get_gt(id)` both gain exactly the inserted `gt_workspace` at the end |
| Workflows.GetAllWorkflows | src/workflows.py:12-20 | returns `Normalised(Select(docs, steps exists), "workflows")` |
| Workflows.GetWorkflows | src/workflows.py:22-31 | returns `Normalised(Select(docs, id ~ wf_id), "workflows")` |
| Workflows.PostNewWorkflow | src/workflows.py:34-44 | appends the dumped model under a fresh `_id`, changes nothing else, answers `str(acknowledged)` |
| Workflows.AllWorkflowsStripIds | src/workflows.py:17-20 | in an identified store: one output per document with `steps`, in order, each the document minus `_id` (no unwrapping) |
| Workflows.WorkflowsMatchingStripIds | src/workflows.py:27-31 | the outputs of `get_workflows` are the matched documents minus `_id`, in order |
| Workflows.WorkflowsNoMatch | src/workflows.py:28-31 | a fragment matching nothing gives an empty list |
| Workflows.WorkflowIdFilterIgnoresSteps | src/workflows.py:17-28 | a document with an `id` and no `steps` is found by `get_workflows` and not listed by `get_all_workflows` |
| Workflows.StoredWorkflow | src/workflows.py:43 | for an id without regex metacharacters, the stored workflow is listed, found by its own id, and normalises to the dumped model |
| Workflows.PostThenGetWorkflow | src/workflows.py:17-44 | for an id without regex metacharacters, after an insert, `get_all_workflows` and `get_workflows(id)` both gain exactly the dumped model at the end |
| Models.GtDumpCarriesNoStoreId | src/model.py:138-139 | the ground-truth dump is an object without `_id` |
| Models.WorkflowDumpCarriesNoStoreId | src/model.py:141-145 | the workflow dump is an object without `_id` |
| Models.RunDumpCarriesNoStoreId | src/model.py:132-136 | the run dump is an object without `_id` |
| Json.Delete | src/commons.py:13 | `del d['_id']`: the key is gone and every other lookup is unchanged |
| Json.GetItem | src/commons.py:15 | `v[key]`: the value of the key, KeyError when it is missing, TypeError when `v` is no object |
| Temporal.TimestampText | src/runs.py:177 | `entry['metadata']['timestamp']` succeeds iff both keys exist and the value is a string, which is then the value at the store path `metadata.timestamp` |
| Temporal.DatePart | src/runs.py:177 | `split('T')[0]`: the longest prefix free of 'T', followed by 'T' or the end of the text |
| Temporal.EntryDate | src/runs.py:177-178 | an unreadable timestamp is its lookup error; a parsed date is valid and formats back to the text before 'T'; a rejected text is the ValueError of that text |
| Temporal.GetTimestamps | src/runs.py:170-180 | the loop returns exactly `Timestamps(run_json)`, including the first error |
| Temporal.TimestampsOneToOne | src/runs.py:175-180 | one valid date per entry, in order; date i parses entry i's text before 'T', and formatting it gives that text back |
| Temporal.TimestampsFirstError | src/runs.py:176-178 | a failure is the error of the first entry whose date cannot be read |
| Temporal.Distance | src/runs.py:166 | the `key` of `min`: the absolute difference between the date's midnight and the clock, in microseconds |
| Temporal.ClosestIndex | src/runs.py:166 | the index `min` picks: no date is closer, every earlier date is strictly farther |
| Temporal.FindTimestampClosestToToday | src/runs.py:158-167 | returns exactly `ClosestTimestamp(run_json, now)` |
| Temporal.ClosestTimestampChoice | src/runs.py:163-167 | the answer is the formatted date of some entry k; no date is closer, earlier ones are strictly farther; it equals k's timestamp before 'T' |
| Temporal.ClosestTimestampErrors | src/runs.py:163-166 | the selection fails iff a timestamp cannot be read (with that error) or there are no entries (ValueError) |
| Temporal.ClosestTieKeepsFirst | src/runs.py:166 | two dates equally far from noon: the first in list order wins, in either order |
| Temporal.ClosestMayLieAhead | src/runs.py:166 | distance is absolute: a later date can be chosen over an earlier one |
| Temporal.FindDatesWithinRange | src/runs.py:182-196 | the loop returns exactly `DatesWithin(timestamps, start, end)` |
| Temporal.DatesWithinSpec | src/runs.py:192-196 | order-preserving subsequence; `d` kept iff present and `start <= d <= end`, and then as often as it occurs; nothing kept when `end < start` |
| Temporal.RangeBoundsInclusive | src/runs.py:194 | both bounds are kept and a day past the end is not |
| Temporal.GetResultsWithinDateRange | src/runs.py:198-208 | the loop returns exactly `ResultsWithDates(entries, relevant)` |
| Temporal.ResultsWithDatesStopsAt | src/runs.py:203-205 | an unreadable timestamp fails the filter with that entry's error |
| Temporal.EntriesInRangeSpec | src/runs.py:198-208 | the reference keeps exactly the entries whose date is in range, in order, each as often as it occurs |
| Temporal.ResultsWithDatesInRange | src/runs.py:202-208 | filtering by membership in a list that holds exactly the in-range dates keeps exactly the in-range entries |
| Temporal.RangeFilterAgrees | src/runs.py:228-232 | dates-in-range then entries-with-those-dates equals the reference filter |
| Dates.OrdinalOrder | src/runs.py:194 | day ordinals order valid dates as `datetime` comparison does, and equal ordinals mean equal dates |
| Dates.YearEnds | src/runs.py:166 | the ordinal runs on without a gap from Dec 31 to Jan 1 |
| Dates.ParseDate | src/runs.py:178 | a parsed date is a valid calendar date; a rejected text is a ValueError (the model's error records the text; Python's message does not always name it) |
| Dates.FormatDate | src/runs.py:167 | the `'%Y-%m-%d'` form is ten characters long |
| Dates.ParseFormat | src/runs.py:167-178 | formatting a valid date and parsing the text gives the date back |
| Dates.FormatParse | src/runs.py:167-178 | text the parser accepts is exactly the formatted form of its date |
| Runs.GetAllRuns | src/runs.py:16-24 | returns `Normalised(Select(docs, eval_workflow_id exists), "run")` |
| Runs.FindResultsWithinDateRange | src/runs.py:210-232 | returns exactly `ResultsWithinRange`: bounds parsed start first, query narrowed by workflow when given, then filtered by date |
| Runs.RangeBoundErrors | src/runs.py:219-220 | a malformed start bound is its ValueError; a malformed end bound (after a good start) is its own |
| Runs.RangeQuerySpec | src/runs.py:219-232 | subsequence of the unfiltered query; `x` kept iff stored, matching and dated in `[start, end]`, and then as often as it is stored; empty when `end < start` |
| Runs.Truthy | src/runs.py:68 | an optional bound in a boolean context: false exactly for None and "" |
| Runs.GetAllRunsByGt | src/runs.py:56-74 | returns exactly `RunsByGt(docs, gt_id, start, end)` |
| Runs.GetAllRunsByGtAndWf | src/runs.py:77-98 | returns exactly `RunsByGtAndWf(docs, wf_id, gt_id, start, end)` |
| Runs.DateRangeGate | src/runs.py:68-72 | without two non-empty bounds the answer is the normalised unfiltered query (as with no bounds); with both it is the normalised date-range query |
| Runs.DateRangeNarrows | src/runs.py:68-72 | in an identified store the date-restricted answer is a subsequence of the unrestricted one |
| Runs.GetLatestRuns | src/runs.py:101-122 | returns exactly `LatestRuns(docs, wf_id, gt_id, now)` |
| Runs.GetLatestRunsPerGt | src/runs.py:125-141 | returns exactly `LatestRunsPerGt(docs, gt_id, now)` |
| Runs.ChosenRunMatches | src/runs.py:118-120 | the run the closest date came from matches the repeated query |
| Runs.LatestAmongEmpty | src/runs.py:114-117 | no matching run gives ValueError from `min` |
| Runs.RequerySpec | src/runs.py:118-120 | the repeated query keeps, in order, the first query's runs whose timestamp contains the date text |
| Runs.LatestAmongNonEmpty | src/runs.py:114-122 | with readable timestamps and a match, success with one output per re-queried run, and at least one |
| Runs.LatestAmongOutputs | src/runs.py:114-122 | every output is a run without `_id` matching the query whose timestamp contains the closest date; the answer is non-empty |
| Runs.LatestRunsSpec | src/runs.py:112-122 | `get_latest_runs`: ValueError when nothing matches both patterns, else only runs matching both with the closest date, at least one |
| Runs.LatestRunsPerGtSpec | src/runs.py:134-141 | the same for `get_latest_runs_per_gt` with the ground-truth pattern alone |
| Runs.NormalisedKeepsPaths | src/commons.py:13 | deleting `_id` changes no filter that does not start at `_id` |
| Runs.ExtractIds | src/runs.py:45-54 | the loop returns exactly `IdsOf(objects)` |
| Runs.IdsOfOneToOne | src/runs.py:50-53 | success iff every object has an `id`; then one id per object, in order |
| Runs.PatternText | src/runs.py:41 | `compile` of an extracted id succeeds exactly on a string, giving that string; anything else is a TypeError |
| Runs.LatestFor | src/runs.py:41 | one inner-loop call: a TypeError when either id is no string, else exactly `get_latest_runs(coll, wf, gt)` |
| Runs.GetAllLatestRuns | src/runs.py:26-42 | the nested loop returns exactly `AllLatestRuns(docs, now)`, stopping at the first failing call |
| Runs.AllLatestRunsShape | src/runs.py:31-42 | the answer is the nested loop over the ids of `get_all_gt` and `get_all_workflows`, one id per record, with |gt ids| * |wf ids| entries |
| Runs.PairWithoutRunsFailsAll | src/runs.py:39-41 | one pair of string ids without runs makes the whole call fail |
| Runs.PostNewResult | src/runs.py:144-155 | appends the dumped run under a fresh `_id`, changes nothing else, answers `str(acknowledged)` |
| Runs.PostThenAllRuns | src/runs.py:16-24 | after an insert, `get_all_runs` gains exactly the dumped run at the end |
| Results.MapAllOneToOne | src/runs.py:50-53 | an append-`f(x)` loop succeeds iff every element does, with one output per element, in order |
| Results.MapAllStopsAt | src/runs.py:176-179 | the loop that fails at element i reports that element's error |
| Results.MapAllSubseq | src/commons.py:11-16 | mapping a subsequence gives a subsequence of the outputs |
| Results.GridOk | src/runs.py:39-41 | the nested loop succeeds iff every (gt, workflow) pair does |
| Results.GridLayout | src/runs.py:38-42 | a successful nested loop has |gt| * |wf| entries, gt major, pair (i, j) at index i * |wf| + j |
| Results.GridStopsAt | src/runs.py:39-41 | a failing pair ends both loops with its error |
| Results.FlatMapAllUniform | src/runs.py:38-42 | rows of equal length m lay out so that element j of row i sits at index i * m + j |
| Seqs.SubseqMembers | src/runs.py:192-196 | a subsequence is no longer and its elements all occur in the whole |
| Seqs.ContainsAt | src/gt.py:29 | an occurrence at any position is a match of the unanchored pattern |
| Seqs.ContainsWitness | src/gt.py:29 | a match has an occurrence at some position |

## Left out

- Store.Matches: `compile(id)` becomes a `$regex` filter, and the model reads it literally as
  substring containment. This is exact for ids and dates without regex metacharacters
  (`Store.Plain`), and the lemmas that search for an inserted id require it.
  Metacharacters, anchors and `re.error` for an invalid pattern are not modelled.
- Dates.ParseDate: accepts only zero-padded ASCII `YYYY-MM-DD`. `strptime` also accepts
  unpadded fields (`2024-6-1`), space-padded ones (`2024-01- 1`) and non-ASCII digits;
  that leniency is not modelled, and the model's ValueError carries the rejected text
  where Python's message may instead say "day is out of range for month". One
  consequence: for a stored timestamp `2024-6-1T...` the source parses the date,
  queries again with `2024-06-01`, misses the run it chose and can answer `[]`, where
  the model answers a ValueError.
- Runs.LatestRunsSpec: its "at least one run" holds in the program only for zero-padded
  timestamps (see Dates.ParseDate above).
- Runs.LatestRunsPerGtSpec: the same limit on "at least one run".
- Runs.LatestAmongNonEmpty: the same limit on "at least one run".
- Runs.LatestAmongOutputs: the same limit on "the answer is non-empty".
- Dates.FormatDate: always writes four year digits. For years below 1000 the platform
  `strftime('%Y')` may not pad.
- Temporal.Distance: the clock `datetime.today()` becomes the parameter `nowMicros`, a
  microsecond count on the parsed dates' time line. Time zones are not modelled.
- Runs.GetAllLatestRuns: one clock reading `nowMicros` serves every (ground truth,
  workflow) pair. The source reads `datetime.today()` again in each `get_latest_runs`
  call, so a loop that runs across a tie point (noon between two candidate days) can
  give later pairs a different closest date than the model does. `Runs.AllLatestRuns`,
  `Runs.LatestGrid` and `Runs.AllLatestRunsShape` share this single reading.
- Store.Collection.InsertOne: acknowledgement is a constant of the collection. Write
  concerns, store errors and duplicate-key errors are not modelled. The payload
  `model_dump()` never holds `_id`.
- `json.loads(json_util.dumps(cursor))` is taken as the identity on document lists.
  ObjectIds stay the value `JOid`.
- Store paths reach only through nested objects. MongoDB's matching inside arrays along
  a dotted path is not modelled.
- Commons.NormaliseRecord: `dict(obj)` of a non-dict (for example a list of pairs) is
  treated as a TypeError. Every record the store returns is a dict.
- src/model.py: pydantic validation is not modelled. Payloads are datatypes with the
  fields the queries read. Metrics, document metadata and release descriptors are opaque
  JSON values.
- src/api.py (HTTP routing, CORS, client construction and credentials) and
  src/releases.py (`distinct` over release tags) are not part of this model.
