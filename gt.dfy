/** Ground-truth lookup and insertion (src/gt.py). */
module Gt {
  import opened Results
  import opened Seqs
  import opened Json
  import opened Store
  import opened Commons
  import opened Models

  /** `{'gt_workspace': {'$exists': True}}` */
  const HasGtWorkspace: Filter := Exists([GtWorkspaceKey])

  /** The store path `gt_workspace.id`. */
  const GtIdPath: seq<string> := [GtWorkspaceKey, "id"]

  /** `{'gt_workspace.id': compile(gt_id)}` */
  function GtIdFilter(gtId: string): Filter {
    Regex(GtIdPath, gtId)
  }

  function AllGt(docs: seq<JVal>): Result<seq<JVal>> {
    Normalised(Select(docs, HasGtWorkspace), GtResultType)
  }

  function GtMatching(docs: seq<JVal>, gtId: string): Result<seq<JVal>> {
    Normalised(Select(docs, GtIdFilter(gtId)), GtResultType)
  }

  /** `get_all_gt(coll)` */
  method GetAllGt(coll: Collection) returns (r: Result<seq<JVal>>)
    ensures r == AllGt(coll.docs)
  {
    var cursor := coll.Find(HasGtWorkspace);
    r := RemoveMongoIdFromResult(cursor, GtResultType);
  }

  /** `get_gt(coll, gt_id)` */
  method GetGt(coll: Collection, gtId: string) returns (r: Result<seq<JVal>>)
    ensures r == GtMatching(coll.docs, gtId)
  {
    var cursor := coll.Find(GtIdFilter(gtId));
    r := RemoveMongoIdFromResult(cursor, GtResultType);
  }

  /** `post_new_gt(coll, gt)`: stores the dumped model and answers `str(acknowledged)`. */
  method PostNewGt(coll: Collection, gt: GtModel) returns (answer: string)
    requires coll.Valid()
    modifies coll
    ensures coll.Valid()
    ensures coll.docs == old(coll.docs) + [Stored(GtDump(gt), old(coll.nextOid))]
    ensures answer == BoolText(coll.acknowledged)
  {
    GtDumpCarriesNoStoreId(gt);
    var ack := coll.InsertOne(GtDump(gt));
    answer := BoolText(ack);
  }

  lemma HasGtWorkspaceMeans(doc: JVal)
    ensures Satisfies(doc, HasGtWorkspace) <==> doc.JObj? && HasKey(doc.fields, GtWorkspaceKey)
  {
    PathOne(doc, GtWorkspaceKey);
  }

  /** The ground-truth id filter looks at the `id` entry of the `gt_workspace` object. */
  lemma GtIdPathReads(doc: JVal)
    ensures PathValue(doc, GtIdPath) ==
      if doc.JObj? && Lookup(doc.fields, GtWorkspaceKey).Some? then PathValue(Lookup(doc.fields, GtWorkspaceKey).value, ["id"])
      else None
  {
    assert GtIdPath == [GtWorkspaceKey] + ["id"];
    PathCons(doc, GtWorkspaceKey, ["id"]);
  }

  /** Every document matched by a ground-truth id has a `gt_workspace` entry. */
  lemma GtIdFilterNarrower(doc: JVal, gtId: string)
    requires Satisfies(doc, GtIdFilter(gtId))
    ensures Satisfies(doc, HasGtWorkspace)
  {
    HasGtWorkspaceMeans(doc);
  }

  /** In a store whose documents carry `_id`, `get_all_gt` succeeds with one output per
      document that has `gt_workspace`, in store order, each exactly that document's
      `gt_workspace` value. */
  lemma AllGtUnwraps(docs: seq<JVal>)
    requires AllIdentified(docs)
    ensures AllGt(docs).Ok?
    ensures var sel := Select(docs, HasGtWorkspace);
      |AllGt(docs).value| == |sel| &&
      forall i :: 0 <= i < |sel| ==>
        sel[i].JObj? && Some(AllGt(docs).value[i]) == Lookup(sel[i].fields, GtWorkspaceKey)
  {
    var sel := Select(docs, HasGtWorkspace);
    SelectIdentified(docs, HasGtWorkspace);
    SelectFilters(docs, HasGtWorkspace);
    forall i | 0 <= i < |sel|
      ensures HasKey(sel[i].fields, GtWorkspaceKey)
    {
      assert sel[i] in sel;
      HasGtWorkspaceMeans(sel[i]);
    }
    NormalisedIdentified(sel, GtResultType);
    NormalisedOneToOne(sel, GtResultType);
    forall i | 0 <= i < |sel|
      ensures Some(AllGt(docs).value[i]) == Lookup(sel[i].fields, GtWorkspaceKey)
    {
      RecordUnwrapped(sel[i]);
    }
  }

  /** In a store whose documents carry `_id`, `get_gt` succeeds with one output per
      document whose `gt_workspace.id` matches, in store order, each exactly that
      document's `gt_workspace` value. */
  lemma GtMatchingUnwraps(docs: seq<JVal>, gtId: string)
    requires AllIdentified(docs)
    ensures GtMatching(docs, gtId).Ok?
    ensures var sel := Select(docs, GtIdFilter(gtId));
      |GtMatching(docs, gtId).value| == |sel| &&
      forall i :: 0 <= i < |sel| ==>
        sel[i].JObj? && Satisfies(sel[i], GtIdFilter(gtId)) &&
        Some(GtMatching(docs, gtId).value[i]) == Lookup(sel[i].fields, GtWorkspaceKey)
  {
    var sel := Select(docs, GtIdFilter(gtId));
    SelectIdentified(docs, GtIdFilter(gtId));
    SelectFilters(docs, GtIdFilter(gtId));
    forall i | 0 <= i < |sel|
      ensures Satisfies(sel[i], GtIdFilter(gtId)) && HasKey(sel[i].fields, GtWorkspaceKey)
    {
      assert sel[i] in sel;
      GtIdFilterNarrower(sel[i], gtId);
      HasGtWorkspaceMeans(sel[i]);
    }
    NormalisedIdentified(sel, GtResultType);
    NormalisedOneToOne(sel, GtResultType);
    forall i | 0 <= i < |sel|
      ensures Some(GtMatching(docs, gtId).value[i]) == Lookup(sel[i].fields, GtWorkspaceKey)
    {
      RecordUnwrapped(sel[i]);
    }
  }

  /** `get_gt(x)` is an order-preserving subsequence of `get_all_gt()`. */
  lemma GtMatchingWithinAllGt(docs: seq<JVal>, gtId: string)
    requires AllIdentified(docs)
    ensures AllGt(docs).Ok? && GtMatching(docs, gtId).Ok?
    ensures Subseq(GtMatching(docs, gtId).value, AllGt(docs).value)
  {
    AllGtUnwraps(docs);
    forall i | 0 <= i < |docs| && Satisfies(docs[i], GtIdFilter(gtId))
      ensures Satisfies(docs[i], HasGtWorkspace)
    {
      GtIdFilterNarrower(docs[i], gtId);
    }
    SelectNarrower(docs, GtIdFilter(gtId), HasGtWorkspace);
    NormalisedSubseq(Select(docs, GtIdFilter(gtId)), Select(docs, HasGtWorkspace), GtResultType);
  }

  /** A fragment that matches no ground-truth id yields an empty list, not an error. */
  lemma GtNoMatch(docs: seq<JVal>, gtId: string)
    requires forall i :: 0 <= i < |docs| ==> !Satisfies(docs[i], GtIdFilter(gtId))
    ensures GtMatching(docs, gtId) == Ok([])
  {
    SelectNone(docs, GtIdFilter(gtId));
  }

  lemma FragmentFacts()
    ensures Contains("abc-123", "123") && !Contains("abc-123", "xyz")
  {
    assert "abc-123"[4..7] == "123";
    ContainsAt("abc-123", "123", 4);
    ContainsFirstChar("abc-123", "xyz");
    assert 'x' !in "abc-123";
  }

  function SampleWorkspace(): JVal {
    JObj([("id", JStr("abc-123")), ("label", JStr("sample"))])
  }

  function SampleGtDoc(): JVal {
    JObj([(IdKey, JOid(7))] + [(GtWorkspaceKey, SampleWorkspace())])
  }

  lemma SampleGtDocFacts()
    ensures Satisfies(SampleGtDoc(), GtIdFilter("123"))
    ensures !Satisfies(SampleGtDoc(), GtIdFilter("xyz"))
    ensures NormaliseRecord(SampleGtDoc(), GtResultType) == Ok(SampleWorkspace())
  {
    var doc, w := SampleGtDoc(), SampleWorkspace();
    LookupCons(IdKey, JOid(7), [(GtWorkspaceKey, w)], GtWorkspaceKey);
    GtIdPathReads(doc);
    PathOne(w, "id");
    assert PathValue(doc, GtIdPath) == Some(JStr("abc-123"));
    FragmentFacts();
  }

  /** The id "abc-123" is found by the fragment "123" and not by "xyz". */
  lemma GtMatchingByFragment()
    ensures GtMatching([SampleGtDoc()], "123") == Ok([SampleWorkspace()])
    ensures GtMatching([SampleGtDoc()], "xyz") == Ok([])
  {
    var doc := SampleGtDoc();
    SampleGtDocFacts();
    assert [doc][..0] == [];
    assert Select([doc], GtIdFilter("123")) == [doc];
    assert Select([doc], GtIdFilter("xyz")) == [];
    var none: seq<JVal> := [];
    assert none + [doc] == [doc];
    NormalisedAppend(none, doc, GtResultType);
    assert Normalised(none, GtResultType) == Ok([]);
    assert [] + [SampleWorkspace()] == [SampleWorkspace()];
  }

  /** The document `post_new_gt` stores. */
  lemma StoredGt(gt: GtModel, oid: nat)
    requires Plain(gt.gtWorkspace.id)
    ensures var doc := Stored(GtDump(gt), oid);
      Satisfies(doc, HasGtWorkspace) && Satisfies(doc, GtIdFilter(gt.gtWorkspace.id)) &&
      NormaliseRecord(doc, GtResultType) == Ok(GtWorkspaceJson(gt.gtWorkspace))
  {
    var doc := Stored(GtDump(gt), oid);
    var id := gt.gtWorkspace.id;
    HasGtWorkspaceMeans(doc);
    GtIdPathReads(doc);
    LookupCons(IdKey, JOid(oid), GtDump(gt).fields, GtWorkspaceKey);
    PathOne(GtWorkspaceJson(gt.gtWorkspace), "id");
    assert PathValue(doc, GtIdFilter(id).path) == Some(JStr(id));
    ContainsPrefix(id, id);
  }

  /** After `post_new_gt`, `get_all_gt` gains exactly the inserted `gt_workspace`, at the
      end, and `get_gt` on the inserted id finds it after whatever it found before. */
  lemma PostThenGetGt(docs: seq<JVal>, gt: GtModel, oid: nat)
    requires AllIdentified(docs) && Plain(gt.gtWorkspace.id)
    ensures var after := docs + [Stored(GtDump(gt), oid)];
      AllGt(docs).Ok? && GtMatching(docs, gt.gtWorkspace.id).Ok? &&
      AllGt(after) == Ok(AllGt(docs).value + [GtWorkspaceJson(gt.gtWorkspace)]) &&
      GtMatching(after, gt.gtWorkspace.id) ==
        Ok(GtMatching(docs, gt.gtWorkspace.id).value + [GtWorkspaceJson(gt.gtWorkspace)])
  {
    var doc := Stored(GtDump(gt), oid);
    var id := gt.gtWorkspace.id;
    GtMatchingWithinAllGt(docs, id);
    StoredGt(gt, oid);
    SelectAppend(docs, doc, HasGtWorkspace);
    SelectAppend(docs, doc, GtIdFilter(id));
    NormalisedAppend(Select(docs, HasGtWorkspace), doc, GtResultType);
    NormalisedAppend(Select(docs, GtIdFilter(id)), doc, GtResultType);
  }
}
