/** Run queries and insertion (src/runs.py): all runs, runs by ground truth and
    workflow with an optional date range, the latest runs, and their cross product. */
module Runs {
  import opened Results
  import opened Seqs
  import opened Json
  import opened Dates
  import opened Store
  import opened Commons
  import opened Models
  import opened Gt
  import opened Workflows
  import opened Temporal

  const RunResultType := "run"

  /** `metadata.gt_workspace.id`: the ground-truth id path below a run's `metadata`. */
  const RunGtIdPath: seq<string> := ["metadata"] + GtIdPath
  const WorkflowIdPath: seq<string> := ["metadata", "ocr_workflow", "id"]
  const TimestampPath: seq<string> := ["metadata", "timestamp"]

  /** `{'eval_workflow_id': {'$exists': True}}` */
  const IsRun: Filter := Exists(["eval_workflow_id"])

  /** `{'metadata.gt_workspace.id': gt_regex}` */
  function ByGt(gtId: string): Filter {
    Regex(RunGtIdPath, gtId)
  }

  /** `{'$and': [{'metadata.gt_workspace.id': gt_regex}, {'metadata.ocr_workflow.id': wf_regex}]}` */
  function ByGtAndWf(gtId: string, wfId: string): Filter {
    And(ByGt(gtId), Regex(WorkflowIdPath, wfId))
  }

  // ---- get_all_runs ----

  function AllRuns(docs: seq<JVal>): Result<seq<JVal>> {
    Normalised(Select(docs, IsRun), RunResultType)
  }

  method GetAllRuns(coll: Collection) returns (r: Result<seq<JVal>>)
    ensures r == AllRuns(coll.docs)
  {
    var cursor := coll.Find(IsRun);
    r := RemoveMongoIdFromResult(cursor, RunResultType);
  }

  // ---- The date-range query ----

  /** `find_results_within_date_range(coll, gt_regex, start_date, end_date, wf_regex)`:
      both bounds are parsed first (start, then end); a workflow pattern, when given,
      narrows the query; the raw results whose date lies in the range are kept. */
  function ResultsWithinRange(docs: seq<JVal>, gtId: string, wfId: Option<string>,
                              startDate: string, endDate: string): Result<seq<JVal>>
  {
    var start :- ParseDate(startDate);
    var end :- ParseDate(endDate);
    var tmp := Select(docs, if wfId.Some? then ByGtAndWf(gtId, wfId.value) else ByGt(gtId));
    var ds :- Timestamps(tmp);
    ResultsWithDates(tmp, DatesWithin(ds, start, end))
  }

  method FindResultsWithinDateRange(coll: Collection, gtId: string, startDate: string,
                                    endDate: string, wfId: Option<string>)
    returns (r: Result<seq<JVal>>)
    ensures r == ResultsWithinRange(coll.docs, gtId, wfId, startDate, endDate)
  {
    var startDatetime := ParseDate(startDate);
    if startDatetime.Err? {
      return Err(startDatetime.error);
    }
    var endDatetime := ParseDate(endDate);
    if endDatetime.Err? {
      return Err(endDatetime.error);
    }
    var cursor;
    if wfId.Some? {
      cursor := coll.Find(ByGtAndWf(gtId, wfId.value));
    } else {
      cursor := coll.Find(ByGt(gtId));
    }
    var timestampsDates := GetTimestamps(cursor);
    if timestampsDates.Err? {
      return Err(timestampsDates.error);
    }
    var relevantDates := FindDatesWithinRange(timestampsDates.value, startDatetime.value, endDatetime.value);
    r := GetResultsWithinDateRange(cursor, relevantDates);
  }

  /** A malformed bound is a ValueError, the start bound being checked first. */
  lemma RangeBoundErrors(docs: seq<JVal>, gtId: string, wfId: Option<string>, startDate: string, endDate: string)
    ensures ParseDate(startDate).Err? ==>
      ResultsWithinRange(docs, gtId, wfId, startDate, endDate) == Err(DateFormatError(startDate))
    ensures ParseDate(startDate).Ok? && ParseDate(endDate).Err? ==>
      ResultsWithinRange(docs, gtId, wfId, startDate, endDate) == Err(DateFormatError(endDate))
  {
  }

  /** With well-formed bounds and readable timestamps, the range query keeps exactly the
      matching runs whose date lies in `[start, end]`, in store order, as a subsequence
      of the unfiltered query; with `end` before `start` it keeps none. */
  lemma RangeQuerySpec(docs: seq<JVal>, gtId: string, wfId: Option<string>, startDate: string, endDate: string)
    requires ParseDate(startDate).Ok? && ParseDate(endDate).Ok?
    requires Timestamps(Select(docs, if wfId.Some? then ByGtAndWf(gtId, wfId.value) else ByGt(gtId))).Ok?
    ensures var f := if wfId.Some? then ByGtAndWf(gtId, wfId.value) else ByGt(gtId);
      var start, end := ParseDate(startDate).value, ParseDate(endDate).value;
      var r := ResultsWithinRange(docs, gtId, wfId, startDate, endDate);
      r.Ok? &&
      Subseq(r.value, Select(docs, f)) &&
      (forall x :: x in r.value <==>
        x in docs && Satisfies(x, f) && EntryDate(x).Ok? && InRange(EntryDate(x).value, start, end)) &&
      (forall x ::
         multiset(r.value)[x] ==
         if Satisfies(x, f) && EntryDate(x).Ok? && InRange(EntryDate(x).value, start, end)
         then multiset(docs)[x] else 0) &&
      (!NotAfter(start, end) ==> r.value == [])
  {
    var f := if wfId.Some? then ByGtAndWf(gtId, wfId.value) else ByGt(gtId);
    var start, end := ParseDate(startDate).value, ParseDate(endDate).value;
    var tmp := Select(docs, f);
    RangeFilterAgrees(tmp, start, end);
    EntriesInRangeSpec(tmp, start, end);
    SelectFilters(docs, f);
    if !NotAfter(start, end) {
      var r := EntriesInRange(tmp, start, end);
      if r != [] {
        assert r[0] in r;
        NotAfterTransitive(start, EntryDate(r[0]).value, end);
      }
    }
  }

  // ---- get_all_runs_by_gt and get_all_runs_by_gt_and_wf ----

  /** An optional string in a Python boolean context: only None and "" are false. */
  function Truthy(s: Option<string>): (b: bool)
    ensures !b <==> s == None || s == Some("")
  {
    s.Some? && s.value != ""
  }

  function RunsByGt(docs: seq<JVal>, gtId: string, startDate: Option<string>, endDate: Option<string>)
    : Result<seq<JVal>>
  {
    var jsonData :-
      if Truthy(startDate) && Truthy(endDate)
      then ResultsWithinRange(docs, gtId, None, startDate.value, endDate.value)
      else Ok(Select(docs, ByGt(gtId)));
    Normalised(jsonData, RunResultType)
  }

  method GetAllRunsByGt(coll: Collection, gtId: string, startDate: Option<string>, endDate: Option<string>)
    returns (r: Result<seq<JVal>>)
    ensures r == RunsByGt(coll.docs, gtId, startDate, endDate)
  {
    var jsonData;
    if Truthy(startDate) && Truthy(endDate) {
      jsonData := FindResultsWithinDateRange(coll, gtId, startDate.value, endDate.value, None);
    } else {
      jsonData := Ok(coll.Find(ByGt(gtId)));
    }
    if jsonData.Err? {
      return Err(jsonData.error);
    }
    r := RemoveMongoIdFromResult(jsonData.value, RunResultType);
  }

  function RunsByGtAndWf(docs: seq<JVal>, workflowId: string, gtId: string,
                         startDate: Option<string>, endDate: Option<string>): Result<seq<JVal>>
  {
    var jsonData :-
      if Truthy(startDate) && Truthy(endDate)
      then ResultsWithinRange(docs, gtId, Some(workflowId), startDate.value, endDate.value)
      else Ok(Select(docs, ByGtAndWf(gtId, workflowId)));
    Normalised(jsonData, RunResultType)
  }

  method GetAllRunsByGtAndWf(coll: Collection, workflowId: string, gtId: string,
                             startDate: Option<string>, endDate: Option<string>)
    returns (r: Result<seq<JVal>>)
    ensures r == RunsByGtAndWf(coll.docs, workflowId, gtId, startDate, endDate)
  {
    var jsonData;
    if Truthy(startDate) && Truthy(endDate) {
      jsonData := FindResultsWithinDateRange(coll, gtId, startDate.value, endDate.value, Some(workflowId));
    } else {
      jsonData := Ok(coll.Find(ByGtAndWf(gtId, workflowId)));
    }
    if jsonData.Err? {
      return Err(jsonData.error);
    }
    r := RemoveMongoIdFromResult(jsonData.value, RunResultType);
  }

  /** Unless both bounds are present and non-empty, the date range plays no part: the
      answer is the normalised unfiltered query. */
  lemma DateRangeGate(docs: seq<JVal>, workflowId: string, gtId: string,
                      startDate: Option<string>, endDate: Option<string>)
    ensures !(Truthy(startDate) && Truthy(endDate)) ==>
      RunsByGt(docs, gtId, startDate, endDate) == RunsByGt(docs, gtId, None, None) &&
      RunsByGt(docs, gtId, None, None) == Normalised(Select(docs, ByGt(gtId)), RunResultType) &&
      RunsByGtAndWf(docs, workflowId, gtId, startDate, endDate) == RunsByGtAndWf(docs, workflowId, gtId, None, None) &&
      RunsByGtAndWf(docs, workflowId, gtId, None, None) ==
        Normalised(Select(docs, ByGtAndWf(gtId, workflowId)), RunResultType)
    ensures Truthy(startDate) && Truthy(endDate) ==>
      RunsByGt(docs, gtId, startDate, endDate) ==
        (match ResultsWithinRange(docs, gtId, None, startDate.value, endDate.value)
         case Err(e) => Err(e)
         case Ok(data) => Normalised(data, RunResultType)) &&
      RunsByGtAndWf(docs, workflowId, gtId, startDate, endDate) ==
        (match ResultsWithinRange(docs, gtId, Some(workflowId), startDate.value, endDate.value)
         case Err(e) => Err(e)
         case Ok(data) => Normalised(data, RunResultType))
  {
  }

  /** In an identified store, a date-restricted answer is an order-preserving
      subsequence of the answer without dates. */
  lemma DateRangeNarrows(docs: seq<JVal>, workflowId: string, gtId: string, startDate: string, endDate: string)
    requires AllIdentified(docs)
    requires RunsByGt(docs, gtId, Some(startDate), Some(endDate)).Ok?
    requires RunsByGtAndWf(docs, workflowId, gtId, Some(startDate), Some(endDate)).Ok?
    ensures RunsByGt(docs, gtId, None, None).Ok? && RunsByGtAndWf(docs, workflowId, gtId, None, None).Ok?
    ensures Subseq(RunsByGt(docs, gtId, Some(startDate), Some(endDate)).value, RunsByGt(docs, gtId, None, None).value)
    ensures Subseq(RunsByGtAndWf(docs, workflowId, gtId, Some(startDate), Some(endDate)).value,
                   RunsByGtAndWf(docs, workflowId, gtId, None, None).value)
  {
    SelectIdentified(docs, ByGt(gtId));
    SelectIdentified(docs, ByGtAndWf(gtId, workflowId));
    NormalisedIdentified(Select(docs, ByGt(gtId)), RunResultType);
    NormalisedIdentified(Select(docs, ByGtAndWf(gtId, workflowId)), RunResultType);
    if startDate != "" && endDate != "" {
      RangeQuerySpec(docs, gtId, None, startDate, endDate);
      RangeQuerySpec(docs, gtId, Some(workflowId), startDate, endDate);
      NormalisedSubseq(ResultsWithinRange(docs, gtId, None, startDate, endDate).value,
                       Select(docs, ByGt(gtId)), RunResultType);
      NormalisedSubseq(ResultsWithinRange(docs, gtId, Some(workflowId), startDate, endDate).value,
                       Select(docs, ByGtAndWf(gtId, workflowId)), RunResultType);
    } else {
      SubseqRefl(RunsByGt(docs, gtId, None, None).value);
      SubseqRefl(RunsByGtAndWf(docs, workflowId, gtId, None, None).value);
    }
  }

  // ---- get_latest_runs and get_latest_runs_per_gt ----

  /** The runs of a query dated on the closest date: the query is repeated with the
      closest `'%Y-%m-%d'` text as a pattern on `metadata.timestamp`. */
  function LatestAmong(docs: seq<JVal>, f: Filter, nowMicros: int): Result<seq<JVal>> {
    var closest :- ClosestTimestamp(Select(docs, f), nowMicros);
    Normalised(Select(docs, And(f, Regex(TimestampPath, closest))), RunResultType)
  }

  /** `get_latest_runs(coll, workflow_id, gt_id)` with the clock reading `nowMicros`. */
  function LatestRuns(docs: seq<JVal>, workflowId: string, gtId: string, nowMicros: int): Result<seq<JVal>> {
    LatestAmong(docs, ByGtAndWf(gtId, workflowId), nowMicros)
  }

  /** `get_latest_runs_per_gt(coll, gt_id)` with the clock reading `nowMicros`. */
  function LatestRunsPerGt(docs: seq<JVal>, gtId: string, nowMicros: int): Result<seq<JVal>> {
    LatestAmong(docs, ByGt(gtId), nowMicros)
  }

  method GetLatestRuns(coll: Collection, workflowId: string, gtId: string, nowMicros: int)
    returns (r: Result<seq<JVal>>)
    ensures r == LatestRuns(coll.docs, workflowId, gtId, nowMicros)
  {
    var allRuns := coll.Find(ByGtAndWf(gtId, workflowId));
    var closestTimestamp := FindTimestampClosestToToday(allRuns, nowMicros);
    if closestTimestamp.Err? {
      return Err(closestTimestamp.error);
    }
    var latestRun := coll.Find(And(ByGtAndWf(gtId, workflowId), Regex(TimestampPath, closestTimestamp.value)));
    r := RemoveMongoIdFromResult(latestRun, RunResultType);
  }

  method GetLatestRunsPerGt(coll: Collection, gtId: string, nowMicros: int)
    returns (r: Result<seq<JVal>>)
    ensures r == LatestRunsPerGt(coll.docs, gtId, nowMicros)
  {
    var allRuns := coll.Find(ByGt(gtId));
    var closestTimestamp := FindTimestampClosestToToday(allRuns, nowMicros);
    if closestTimestamp.Err? {
      return Err(closestTimestamp.error);
    }
    var latestRun := coll.Find(And(ByGt(gtId), Regex(TimestampPath, closestTimestamp.value)));
    r := RemoveMongoIdFromResult(latestRun, RunResultType);
  }

  /** A run's timestamp contains the text it starts with, so the run whose date was
      chosen is found again by the second query. */
  lemma ChosenRunMatches(doc: JVal, f: Filter)
    requires Satisfies(doc, f) && TimestampText(doc).Ok?
    ensures Satisfies(doc, And(f, Regex(TimestampPath, DatePart(TimestampText(doc).value))))
  {
    var stamp := TimestampText(doc).value;
    ContainsPrefix(stamp, DatePart(stamp));
  }

  /** No matching run at all makes the latest-run query a ValueError. */
  lemma LatestAmongEmpty(docs: seq<JVal>, f: Filter, nowMicros: int)
    requires Select(docs, f) == []
    ensures LatestAmong(docs, f, nowMicros) == Err(EmptySequence)
  {
    ClosestTimestampErrors([], nowMicros);
  }

  /** The repeated query keeps, in store order, the runs of the first query whose
      timestamp contains the given date text. */
  lemma RequerySpec(docs: seq<JVal>, f: Filter, closest: string)
    ensures var chosen := Select(docs, And(f, Regex(TimestampPath, closest)));
      Subseq(chosen, Select(docs, f)) &&
      forall x :: x in chosen <==> x in docs && Satisfies(x, f) && Satisfies(x, Regex(TimestampPath, closest))
  {
    var g := And(f, Regex(TimestampPath, closest));
    SelectFilters(docs, g);
    forall i | 0 <= i < |docs| && Satisfies(docs[i], g)
      ensures Satisfies(docs[i], f)
    {
    }
    SelectNarrower(docs, g, f);
  }

  /** In an identified store with readable timestamps and at least one matching run, the
      latest-run query succeeds with one output per run of the repeated query, and there
      is at least one: the run the closest date was read from. */
  lemma LatestAmongNonEmpty(docs: seq<JVal>, f: Filter, nowMicros: int)
    requires AllIdentified(docs) && Timestamps(Select(docs, f)).Ok? && Select(docs, f) != []
    ensures ClosestTimestamp(Select(docs, f), nowMicros).Ok?
    ensures var chosen := Select(docs, And(f, Regex(TimestampPath, ClosestTimestamp(Select(docs, f), nowMicros).value)));
      LatestAmong(docs, f, nowMicros) == Normalised(chosen, RunResultType) &&
      LatestAmong(docs, f, nowMicros).Ok? &&
      |LatestAmong(docs, f, nowMicros).value| == |chosen| > 0
  {
    var cand := Select(docs, f);
    ClosestTimestampErrors(cand, nowMicros);
    var closest := ClosestTimestamp(cand, nowMicros).value;
    var g := And(f, Regex(TimestampPath, closest));
    var chosen := Select(docs, g);
    var k := ClosestTimestampChoice(cand, nowMicros);
    SelectFilters(docs, f);
    SelectFilters(docs, g);
    assert cand[k] in cand;
    ChosenRunMatches(cand[k], f);
    assert cand[k] in chosen;
    SelectIdentified(docs, g);
    NormalisedIdentified(chosen, RunResultType);
    NormalisedOneToOne(chosen, RunResultType);
  }

  /** A successful latest-run answer in an identified store is non-empty, and each of its
      outputs is a run without `_id` that matches the query and whose timestamp contains
      the closest date. */
  lemma LatestAmongOutputs(docs: seq<JVal>, f: Filter, nowMicros: int)
    requires AllIdentified(docs) && NoIdPath(f) && LatestAmong(docs, f, nowMicros).Ok?
    ensures ClosestTimestamp(Select(docs, f), nowMicros).Ok?
    ensures var closest := ClosestTimestamp(Select(docs, f), nowMicros).value;
      var out := LatestAmong(docs, f, nowMicros).value;
      out != [] &&
      forall i :: 0 <= i < |out| ==>
        out[i].JObj? && !HasKey(out[i].fields, IdKey) &&
        Satisfies(out[i], f) && Satisfies(out[i], Regex(TimestampPath, closest))
  {
    var cand := Select(docs, f);
    ClosestTimestampErrors(cand, nowMicros);
    LatestAmongNonEmpty(docs, f, nowMicros);
    var closest := ClosestTimestamp(cand, nowMicros).value;
    var g := And(f, Regex(TimestampPath, closest));
    var chosen := Select(docs, g);
    var out := LatestAmong(docs, f, nowMicros).value;
    SelectFilters(docs, g);
    NormalisedOneToOne(chosen, RunResultType);
    forall i | 0 <= i < |out|
      ensures out[i].JObj? && !HasKey(out[i].fields, IdKey)
      ensures Satisfies(out[i], f) && Satisfies(out[i], Regex(TimestampPath, closest))
    {
      assert chosen[i] in chosen;
      RecordWithoutId(chosen[i], RunResultType);
      NormalisedKeepsPaths(chosen[i], g);
    }
  }

  /** `get_latest_runs` fails when no run matches both patterns; otherwise it answers
      only runs matching both the ground-truth and the workflow pattern whose timestamp
      contains the closest date, and at least one. */
  lemma LatestRunsSpec(docs: seq<JVal>, workflowId: string, gtId: string, nowMicros: int)
    ensures Select(docs, ByGtAndWf(gtId, workflowId)) == [] ==>
      LatestRuns(docs, workflowId, gtId, nowMicros) == Err(EmptySequence)
    ensures AllIdentified(docs) && LatestRuns(docs, workflowId, gtId, nowMicros).Ok? ==>
      var closest := ClosestTimestamp(Select(docs, ByGtAndWf(gtId, workflowId)), nowMicros).value;
      var out := LatestRuns(docs, workflowId, gtId, nowMicros).value;
      out != [] &&
      forall i :: 0 <= i < |out| ==>
        out[i].JObj? && !HasKey(out[i].fields, IdKey) &&
        Satisfies(out[i], ByGtAndWf(gtId, workflowId)) &&
        Satisfies(out[i], Regex(TimestampPath, closest))
  {
    var f := ByGtAndWf(gtId, workflowId);
    if Select(docs, f) == [] {
      LatestAmongEmpty(docs, f, nowMicros);
    }
    if AllIdentified(docs) && LatestRuns(docs, workflowId, gtId, nowMicros).Ok? {
      LatestAmongOutputs(docs, f, nowMicros);
    }
  }

  /** The same for `get_latest_runs_per_gt`, with the ground-truth pattern alone. */
  lemma LatestRunsPerGtSpec(docs: seq<JVal>, gtId: string, nowMicros: int)
    ensures Select(docs, ByGt(gtId)) == [] ==>
      LatestRunsPerGt(docs, gtId, nowMicros) == Err(EmptySequence)
    ensures AllIdentified(docs) && LatestRunsPerGt(docs, gtId, nowMicros).Ok? ==>
      var closest := ClosestTimestamp(Select(docs, ByGt(gtId)), nowMicros).value;
      var out := LatestRunsPerGt(docs, gtId, nowMicros).value;
      out != [] &&
      forall i :: 0 <= i < |out| ==>
        out[i].JObj? && !HasKey(out[i].fields, IdKey) &&
        Satisfies(out[i], ByGt(gtId)) && Satisfies(out[i], Regex(TimestampPath, closest))
  {
    var f := ByGt(gtId);
    if Select(docs, f) == [] {
      LatestAmongEmpty(docs, f, nowMicros);
    }
    if AllIdentified(docs) && LatestRunsPerGt(docs, gtId, nowMicros).Ok? {
      LatestAmongOutputs(docs, f, nowMicros);
    }
  }

  /** Removing `_id` keeps every filter the service builds (none of them looks at `_id`). */
  lemma NormalisedKeepsPaths(obj: JVal, f: Filter)
    requires obj.JObj? && NoIdPath(f)
    ensures Satisfies(JObj(Delete(obj.fields, IdKey)), f) == Satisfies(obj, f)
  {
    match f
    case Exists(path) =>
    case Regex(path, pattern) =>
    case And(l, r) =>
      NormalisedKeepsPaths(obj, l);
      NormalisedKeepsPaths(obj, r);
  }

  /** The filter never starts a path at `_id`, and every path is non-empty. */
  predicate NoIdPath(f: Filter) {
    match f
    case Exists(path) => path != [] && path[0] != IdKey
    case Regex(path, _) => path != [] && path[0] != IdKey
    case And(l, r) => NoIdPath(l) && NoIdPath(r)
  }

  // ---- extract_ids and get_all_latest_runs ----

  /** `obj['id']` */
  function IdOf(obj: JVal): Result<JVal> {
    GetItem(obj, "id")
  }

  /** `extract_ids(objects)` */
  function IdsOf(objects: seq<JVal>): Result<seq<JVal>> {
    MapAll(objects, IdOf)
  }

  method ExtractIds(objects: seq<JVal>) returns (r: Result<seq<JVal>>)
    ensures r == IdsOf(objects)
  {
    var result: seq<JVal> := [];
    for i := 0 to |objects|
      invariant IdsOf(objects[..i]) == Ok(result)
    {
      MapAllSnoc(objects[..i], IdOf, objects[i]);
      assert objects[..i + 1] == objects[..i] + [objects[i]];
      var id := GetItem(objects[i], "id");
      if id.Err? {
        MapAllStopsAt(objects, IdOf, i);
        return Err(id.error);
      }
      result := result + [id.value];
    }
    assert objects[..|objects|] == objects;
    return Ok(result);
  }

  /** One id per object, in order, each the object's `id` entry; the call fails exactly
      when some object has none. */
  lemma IdsOfOneToOne(objects: seq<JVal>)
    ensures IdsOf(objects).Ok? <==>
      forall i :: 0 <= i < |objects| ==> objects[i].JObj? && HasKey(objects[i].fields, "id")
    ensures IdsOf(objects).Ok? ==>
      |IdsOf(objects).value| == |objects| &&
      forall i :: 0 <= i < |objects| ==> Some(IdsOf(objects).value[i]) == Lookup(objects[i].fields, "id")
  {
    MapAllOneToOne(objects, IdOf);
  }

  /** `compile(v)`: a pattern from a string; any other value is a TypeError. */
  function PatternText(v: JVal): (r: Result<string>)
    ensures r.Ok? <==> v.JStr?
    ensures r.Ok? ==> v == JStr(r.value)
    ensures r.Err? ==> r.error == WrongType
  {
    if v.JStr? then Ok(v.s) else Err(WrongType)
  }

  /** `get_latest_runs(coll, wf, gt)` on two extracted ids; the workflow id is compiled
      first. */
  function LatestFor(docs: seq<JVal>, nowMicros: int, gtV: JVal, wfV: JVal): (r: Result<seq<JVal>>)
    ensures !wfV.JStr? || !gtV.JStr? ==> r == Err(WrongType)
    ensures wfV.JStr? && gtV.JStr? ==> r == LatestRuns(docs, wfV.s, gtV.s, nowMicros)
  {
    var wf :- PatternText(wfV);
    var gt :- PatternText(gtV);
    LatestRuns(docs, wf, gt, nowMicros)
  }

  function LatestPair(docs: seq<JVal>, nowMicros: int): (JVal, JVal) -> Result<seq<JVal>> {
    (gtV, wfV) => LatestFor(docs, nowMicros, gtV, wfV)
  }

  /** Both loops of `get_all_latest_runs`: ground-truth ids outside, workflow ids inside. */
  function LatestGrid(docs: seq<JVal>, nowMicros: int, gtIds: seq<JVal>, wfIds: seq<JVal>)
    : Result<seq<seq<JVal>>>
  {
    Grid(gtIds, wfIds, LatestPair(docs, nowMicros))
  }

  /** `get_all_latest_runs(coll)` with the clock reading `nowMicros`. */
  function AllLatestRuns(docs: seq<JVal>, nowMicros: int): Result<seq<seq<JVal>>> {
    var allGts :- AllGt(docs);
    var allGtIds :- IdsOf(allGts);
    var allWorkflows :- AllWorkflows(docs);
    var allWorkflowIds :- IdsOf(allWorkflows);
    LatestGrid(docs, nowMicros, allGtIds, allWorkflowIds)
  }

  method GetAllLatestRuns(coll: Collection, nowMicros: int) returns (r: Result<seq<seq<JVal>>>)
    ensures r == AllLatestRuns(coll.docs, nowMicros)
  {
    var allGts := GetAllGt(coll);
    if allGts.Err? { return Err(allGts.error); }
    var allGtIds := ExtractIds(allGts.value);
    if allGtIds.Err? { return Err(allGtIds.error); }
    var allWorkflows := GetAllWorkflows(coll);
    if allWorkflows.Err? { return Err(allWorkflows.error); }
    var allWorkflowIds := ExtractIds(allWorkflows.value);
    if allWorkflowIds.Err? { return Err(allWorkflowIds.error); }
    var gtIds, wfIds := allGtIds.value, allWorkflowIds.value;
    var latestRuns: seq<seq<JVal>> := [];
    ghost var pair := LatestPair(coll.docs, nowMicros);
    for i := 0 to |gtIds|
      invariant Grid(gtIds[..i], wfIds, pair) == Ok(latestRuns)
    {
      ghost var before := latestRuns;
      ghost var row: seq<seq<JVal>> := [];
      for j := 0 to |wfIds|
        invariant latestRuns == before + row
        invariant MapAll(wfIds[..j], PairWith(pair, gtIds[i])) == Ok(row)
      {
        var wf := PatternText(wfIds[j]);
        if wf.Err? {
          GridStopsAt(gtIds, wfIds, pair, i, j);
          return Err(wf.error);
        }
        var gt := PatternText(gtIds[i]);
        if gt.Err? {
          GridStopsAt(gtIds, wfIds, pair, i, j);
          return Err(gt.error);
        }
        var latest := GetLatestRuns(coll, wf.value, gt.value, nowMicros);
        if latest.Err? {
          GridStopsAt(gtIds, wfIds, pair, i, j);
          return Err(latest.error);
        }
        RowStep(wfIds, pair, gtIds[i], j, row, latest.value);
        latestRuns := latestRuns + [latest.value];
        row := row + [latest.value];
      }
      assert wfIds[..|wfIds|] == wfIds;
      GridStep(gtIds, wfIds, pair, i, before, row);
    }
    assert gtIds[..|gtIds|] == gtIds;
    return Ok(latestRuns);
  }

  /** `get_all_latest_runs` is that nested loop over the ids of `get_all_gt` and of
      `get_all_workflows`, one id per record. */
  lemma AllLatestRunsShape(docs: seq<JVal>, nowMicros: int)
    requires AllLatestRuns(docs, nowMicros).Ok?
    ensures AllGt(docs).Ok? && IdsOf(AllGt(docs).value).Ok?
    ensures AllWorkflows(docs).Ok? && IdsOf(AllWorkflows(docs).value).Ok?
    ensures var gtIds, wfIds := IdsOf(AllGt(docs).value).value, IdsOf(AllWorkflows(docs).value).value;
      |gtIds| == |AllGt(docs).value| && |wfIds| == |AllWorkflows(docs).value| &&
      AllLatestRuns(docs, nowMicros) == LatestGrid(docs, nowMicros, gtIds, wfIds) &&
      |AllLatestRuns(docs, nowMicros).value| == |gtIds| * |wfIds|
  {
    IdsOfOneToOne(AllGt(docs).value);
    IdsOfOneToOne(AllWorkflows(docs).value);
    var gtIds, wfIds := IdsOf(AllGt(docs).value).value, IdsOf(AllWorkflows(docs).value).value;
    GridLength(gtIds, wfIds, LatestPair(docs, nowMicros));
  }

  /** A single (ground truth, workflow) pair without any run makes the whole of
      `get_all_latest_runs` fail: no entry is produced for the other pairs. */
  lemma PairWithoutRunsFailsAll(docs: seq<JVal>, nowMicros: int, i: nat, j: nat)
    requires AllGt(docs).Ok? && IdsOf(AllGt(docs).value).Ok?
    requires AllWorkflows(docs).Ok? && IdsOf(AllWorkflows(docs).value).Ok?
    requires i < |IdsOf(AllGt(docs).value).value| && j < |IdsOf(AllWorkflows(docs).value).value|
    requires IdsOf(AllGt(docs).value).value[i].JStr? && IdsOf(AllWorkflows(docs).value).value[j].JStr?
    requires Select(docs, ByGtAndWf(IdsOf(AllGt(docs).value).value[i].s,
                                    IdsOf(AllWorkflows(docs).value).value[j].s)) == []
    ensures AllLatestRuns(docs, nowMicros).Err?
  {
    var gtIds, wfIds := IdsOf(AllGt(docs).value).value, IdsOf(AllWorkflows(docs).value).value;
    GridOk(gtIds, wfIds, LatestPair(docs, nowMicros));
    LatestAmongEmpty(docs, ByGtAndWf(gtIds[i].s, wfIds[j].s), nowMicros);
  }

  // ---- post_new_result ----

  /** `post_new_result(coll, data)`: stores the dumped run and answers `str(acknowledged)`. */
  method PostNewResult(coll: Collection, data: RunModel) returns (answer: string)
    requires coll.Valid()
    modifies coll
    ensures coll.Valid()
    ensures coll.docs == old(coll.docs) + [Stored(RunDump(data), old(coll.nextOid))]
    ensures answer == BoolText(coll.acknowledged)
  {
    RunDumpCarriesNoStoreId(data);
    var ack := coll.InsertOne(RunDump(data));
    answer := BoolText(ack);
  }

  /** After `post_new_result`, `get_all_runs` gains exactly the dumped run, at the end. */
  lemma PostThenAllRuns(docs: seq<JVal>, data: RunModel, oid: nat)
    requires AllIdentified(docs)
    ensures var after := docs + [Stored(RunDump(data), oid)];
      AllRuns(docs).Ok? && AllRuns(after) == Ok(AllRuns(docs).value + [RunDump(data)])
  {
    var dump := RunDump(data);
    var doc := Stored(dump, oid);
    RunDumpCarriesNoStoreId(data);
    StoredNormalises(dump, oid, RunResultType);
    LookupCons(IdKey, JOid(oid), dump.fields, "eval_workflow_id");
    PathOne(doc, "eval_workflow_id");
    assert Satisfies(doc, IsRun);
    SelectIdentified(docs, IsRun);
    NormalisedIdentified(Select(docs, IsRun), RunResultType);
    SelectAppend(docs, doc, IsRun);
    NormalisedAppend(Select(docs, IsRun), doc, RunResultType);
  }
}
