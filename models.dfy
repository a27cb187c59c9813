/** The inbound payloads the insert operations accept, and the document
    `model_dump()` produces for each (src/model.py).  Field names with an `@id`
    alias are dumped as `id`.  Metric values, document metadata and release
    descriptors are carried as opaque JSON values. */
module Models {
  import opened Results
  import opened Json

  datatype Ref = Ref(id: string, labelText: string)

  datatype WorkflowStep = WorkflowStep(id: string, params: JVal)

  datatype GtWorkspace = GtWorkspace(id: string, labelText: string, metadata: seq<(string, JVal)>)

  datatype GtModel = GtModel(gtWorkspace: GtWorkspace)

  datatype WorkflowModel = WorkflowModel(id: string, labelText: string, steps: seq<WorkflowStep>, model: string)

  datatype Metadata = Metadata(
    ocrWorkflow: Ref, evalWorkflow: Ref, gtWorkspace: Ref, ocrWorkspace: Ref, evalWorkspace: Ref,
    workflowSteps: seq<WorkflowStep>, workflowModel: string, evalTool: string,
    documentMetadata: JVal, timestamp: string, releaseInfo: JVal)

  datatype RunModel = RunModel(evalWorkflowId: string, labelText: string, metadata: Metadata, evaluationResults: JVal)

  function RefJson(r: Ref): JVal {
    JObj([("id", JStr(r.id)), ("label", JStr(r.labelText))])
  }

  function StepsJson(steps: seq<WorkflowStep>): seq<JVal>
    decreases |steps|
  {
    if steps == [] then []
    else [JObj([("id", JStr(steps[0].id)), ("params", steps[0].params)])] + StepsJson(steps[1..])
  }

  function GtWorkspaceJson(w: GtWorkspace): JVal {
    JObj([("id", JStr(w.id)), ("label", JStr(w.labelText)), ("metadata", JObj(w.metadata))])
  }

  function GtDump(gt: GtModel): JVal {
    JObj([("gt_workspace", GtWorkspaceJson(gt.gtWorkspace))])
  }

  function WorkflowDump(wf: WorkflowModel): JVal {
    JObj([("id", JStr(wf.id)), ("label", JStr(wf.labelText)),
          ("steps", JArr(StepsJson(wf.steps))), ("model", JStr(wf.model))])
  }

  function MetadataJson(m: Metadata): JVal {
    JObj([("ocr_workflow", RefJson(m.ocrWorkflow)), ("eval_workflow", RefJson(m.evalWorkflow)),
          ("gt_workspace", RefJson(m.gtWorkspace)), ("ocr_workspace", RefJson(m.ocrWorkspace)),
          ("eval_workspace", RefJson(m.evalWorkspace)),
          ("workflow_steps", JArr(StepsJson(m.workflowSteps))),
          ("workflow_model", JStr(m.workflowModel)), ("eval_tool", JStr(m.evalTool)),
          ("document_metadata", m.documentMetadata), ("timestamp", JStr(m.timestamp)),
          ("release_info", m.releaseInfo)])
  }

  function RunDump(run: RunModel): JVal {
    JObj([("eval_workflow_id", JStr(run.evalWorkflowId)), ("label", JStr(run.labelText)),
          ("metadata", MetadataJson(run.metadata)), ("evaluation_results", run.evaluationResults)])
  }

  /** `model_dump()` never emits `_id`, so the store assigns one to every insert. */
  lemma GtDumpCarriesNoStoreId(gt: GtModel)
    ensures GtDump(gt).JObj? && !HasKey(GtDump(gt).fields, IdKey)
  {
    assert "gt_workspace" != IdKey;
    var g := GtDump(gt).fields;
    assert Lookup(g[1..], IdKey) == None;
  }

  lemma WorkflowDumpCarriesNoStoreId(wf: WorkflowModel)
    ensures WorkflowDump(wf).JObj? && !HasKey(WorkflowDump(wf).fields, IdKey)
  {
    assert "id" != IdKey && "label" != IdKey && "steps" != IdKey && "model" != IdKey;
    var w := WorkflowDump(wf).fields;
    assert Lookup(w[3..], IdKey) == None by { assert w[3..][1..] == []; }
    assert Lookup(w[2..], IdKey) == None by { assert w[2..][1..] == w[3..]; }
    assert Lookup(w[1..], IdKey) == None by { assert w[1..][1..] == w[2..]; }
  }

  lemma RunDumpCarriesNoStoreId(run: RunModel)
    ensures RunDump(run).JObj? && !HasKey(RunDump(run).fields, IdKey)
  {
    assert "eval_workflow_id" != IdKey && "label" != IdKey;
    assert "metadata" != IdKey && "evaluation_results" != IdKey;
    var r := RunDump(run).fields;
    assert Lookup(r[3..], IdKey) == None by { assert r[3..][1..] == []; }
    assert Lookup(r[2..], IdKey) == None by { assert r[2..][1..] == r[3..]; }
    assert Lookup(r[1..], IdKey) == None by { assert r[1..][1..] == r[2..]; }
  }
}
