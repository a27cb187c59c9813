/** Workflow lookup and insertion (src/workflows.py). */
module Workflows {
  import opened Results
  import opened Seqs
  import opened Json
  import opened Store
  import opened Commons
  import opened Models

  /** The result type passed to the normaliser; it is not "gt", so nothing is unwrapped. */
  const WorkflowsResultType := "workflows"

  /** `{'steps': {'$exists': True}}` */
  const HasSteps: Filter := Exists(["steps"])

  /** `{'id': compile(wf_id)}` */
  function WorkflowIdFilter(wfId: string): Filter {
    Regex(["id"], wfId)
  }

  function AllWorkflows(docs: seq<JVal>): Result<seq<JVal>> {
    Normalised(Select(docs, HasSteps), WorkflowsResultType)
  }

  function WorkflowsMatching(docs: seq<JVal>, wfId: string): Result<seq<JVal>> {
    Normalised(Select(docs, WorkflowIdFilter(wfId)), WorkflowsResultType)
  }

  /** `get_all_workflows(coll)` */
  method GetAllWorkflows(coll: Collection) returns (r: Result<seq<JVal>>)
    ensures r == AllWorkflows(coll.docs)
  {
    var cursor := coll.Find(HasSteps);
    r := RemoveMongoIdFromResult(cursor, WorkflowsResultType);
  }

  /** `get_workflows(coll, wf_id)` */
  method GetWorkflows(coll: Collection, wfId: string) returns (r: Result<seq<JVal>>)
    ensures r == WorkflowsMatching(coll.docs, wfId)
  {
    var cursor := coll.Find(WorkflowIdFilter(wfId));
    r := RemoveMongoIdFromResult(cursor, WorkflowsResultType);
  }

  /** `post_new_workflow(coll, wf)`: stores the dumped model and answers `str(acknowledged)`. */
  method PostNewWorkflow(coll: Collection, wf: WorkflowModel) returns (answer: string)
    requires coll.Valid()
    modifies coll
    ensures coll.Valid()
    ensures coll.docs == old(coll.docs) + [Stored(WorkflowDump(wf), old(coll.nextOid))]
    ensures answer == BoolText(coll.acknowledged)
  {
    WorkflowDumpCarriesNoStoreId(wf);
    var ack := coll.InsertOne(WorkflowDump(wf));
    answer := BoolText(ack);
  }

  /** In a store whose documents carry `_id`, `get_all_workflows` succeeds with one output
      per document that has `steps`, in store order, each the document without `_id`. */
  lemma AllWorkflowsStripIds(docs: seq<JVal>)
    requires AllIdentified(docs)
    ensures AllWorkflows(docs).Ok?
    ensures var sel := Select(docs, HasSteps);
      |AllWorkflows(docs).value| == |sel| &&
      forall i :: 0 <= i < |sel| ==>
        Satisfies(sel[i], HasSteps) && AllWorkflows(docs).value[i] == JObj(Delete(sel[i].fields, IdKey))
  {
    var sel := Select(docs, HasSteps);
    SelectIdentified(docs, HasSteps);
    SelectFilters(docs, HasSteps);
    assert forall i :: 0 <= i < |sel| ==> sel[i] in sel;
    NormalisedStripsIds(sel, WorkflowsResultType);
  }

  /** `get_workflows(x)` returns the documents whose top-level `id` contains `x`, in store
      order, without `_id`. */
  lemma WorkflowsMatchingStripIds(docs: seq<JVal>, wfId: string)
    requires AllIdentified(docs)
    ensures WorkflowsMatching(docs, wfId).Ok?
    ensures var sel := Select(docs, WorkflowIdFilter(wfId));
      |WorkflowsMatching(docs, wfId).value| == |sel| &&
      forall i :: 0 <= i < |sel| ==>
        Satisfies(sel[i], WorkflowIdFilter(wfId)) &&
        WorkflowsMatching(docs, wfId).value[i] == JObj(Delete(sel[i].fields, IdKey))
  {
    var sel := Select(docs, WorkflowIdFilter(wfId));
    SelectIdentified(docs, WorkflowIdFilter(wfId));
    SelectFilters(docs, WorkflowIdFilter(wfId));
    assert forall i :: 0 <= i < |sel| ==> sel[i] in sel;
    NormalisedStripsIds(sel, WorkflowsResultType);
  }

  /** A fragment that matches no workflow id yields an empty list, not an error. */
  lemma WorkflowsNoMatch(docs: seq<JVal>, wfId: string)
    requires forall i :: 0 <= i < |docs| ==> !Satisfies(docs[i], WorkflowIdFilter(wfId))
    ensures WorkflowsMatching(docs, wfId) == Ok([])
  {
    SelectNone(docs, WorkflowIdFilter(wfId));
  }

  function StepLessDoc(): JVal {
    JObj([(IdKey, JOid(3))] + [("id", JStr("wf-1"))])
  }

  /** The id filter does not ask for `steps`: a document with an `id` and no `steps` is
      found by `get_workflows` but not listed by `get_all_workflows`. */
  lemma WorkflowIdFilterIgnoresSteps()
    ensures WorkflowsMatching([StepLessDoc()], "wf-1") == Ok([JObj([("id", JStr("wf-1"))])])
    ensures AllWorkflows([StepLessDoc()]) == Ok([])
  {
    var doc := StepLessDoc();
    var rest := [("id", JStr("wf-1"))];
    LookupCons(IdKey, JOid(3), rest, "id");
    LookupCons(IdKey, JOid(3), rest, "steps");
    assert rest[1..] == [];
    assert Lookup(rest, "steps") == None;
    PathOne(doc, "id");
    PathOne(doc, "steps");
    ContainsPrefix("wf-1", "wf-1");
    assert [doc][..0] == [];
    assert Select([doc], WorkflowIdFilter("wf-1")) == [doc];
    assert Select([doc], HasSteps) == [];
    StoredNormalises(JObj(rest), 3, WorkflowsResultType);
    var none: seq<JVal> := [];
    assert none + [doc] == [doc];
    NormalisedAppend(none, doc, WorkflowsResultType);
    assert Normalised(none, WorkflowsResultType) == Ok([]);
    assert [] + [JObj(rest)] == [JObj(rest)];
  }

  /** The document `post_new_workflow` stores is listed, and is found by its own id. */
  lemma StoredWorkflow(wf: WorkflowModel, oid: nat)
    requires Plain(wf.id)
    ensures var doc := Stored(WorkflowDump(wf), oid);
      Satisfies(doc, HasSteps) && Satisfies(doc, WorkflowIdFilter(wf.id)) &&
      NormaliseRecord(doc, WorkflowsResultType) == Ok(WorkflowDump(wf))
  {
    var dump := WorkflowDump(wf);
    var doc := Stored(dump, oid);
    WorkflowDumpCarriesNoStoreId(wf);
    StoredNormalises(dump, oid, WorkflowsResultType);
    LookupCons(IdKey, JOid(oid), dump.fields, "id");
    LookupCons(IdKey, JOid(oid), dump.fields, "steps");
    assert "steps" != "id" && "steps" != "label";
    var w := dump.fields;
    assert Lookup(w[2..], "steps") == Some(JArr(StepsJson(wf.steps)));
    assert Lookup(w[1..], "steps") == Some(JArr(StepsJson(wf.steps))) by { assert w[1..][1..] == w[2..]; }
    PathOne(doc, "id");
    PathOne(doc, "steps");
    ContainsPrefix(wf.id, wf.id);
  }

  /** After `post_new_workflow`, `get_all_workflows` gains exactly the dumped model (minus
      the `_id` the store added), at the end, and `get_workflows` on the inserted id finds
      it after whatever it found before. */
  lemma PostThenGetWorkflow(docs: seq<JVal>, wf: WorkflowModel, oid: nat)
    requires AllIdentified(docs) && Plain(wf.id)
    ensures var after := docs + [Stored(WorkflowDump(wf), oid)];
      AllWorkflows(docs).Ok? && WorkflowsMatching(docs, wf.id).Ok? &&
      AllWorkflows(after) == Ok(AllWorkflows(docs).value + [WorkflowDump(wf)]) &&
      WorkflowsMatching(after, wf.id) == Ok(WorkflowsMatching(docs, wf.id).value + [WorkflowDump(wf)])
  {
    var doc := Stored(WorkflowDump(wf), oid);
    AllWorkflowsStripIds(docs);
    WorkflowsMatchingStripIds(docs, wf.id);
    StoredWorkflow(wf, oid);
    SelectAppend(docs, doc, HasSteps);
    SelectAppend(docs, doc, WorkflowIdFilter(wf.id));
    NormalisedAppend(Select(docs, HasSteps), doc, WorkflowsResultType);
    NormalisedAppend(Select(docs, WorkflowIdFilter(wf.id)), doc, WorkflowsResultType);
  }
}
