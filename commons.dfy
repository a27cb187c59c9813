/** The result normaliser shared by the ground-truth, workflow and run queries
    (src/commons.py). */
module Commons {
  import opened Results
  import opened Seqs
  import opened Json
  import opened Store

  /** The result type whose records are unwrapped to their `gt_workspace` value. */
  const GtResultType := "gt"
  const GtWorkspaceKey := "gt_workspace"

  /** One record: copy it, delete `_id`, and for the result type "gt" replace the copy
      by its `gt_workspace` value. */
  function NormaliseRecord(obj: JVal, resultType: string): (r: Result<JVal>)
    ensures r.Err? <==>
      !obj.JObj? || !HasKey(obj.fields, IdKey) ||
      (resultType == GtResultType && !HasKey(obj.fields, GtWorkspaceKey))
    ensures r.Ok? && resultType != GtResultType ==>
      r.value.JObj? && !HasKey(r.value.fields, IdKey) &&
      forall k :: k != IdKey ==> Lookup(r.value.fields, k) == Lookup(obj.fields, k)
    ensures r.Ok? && resultType == GtResultType ==> Lookup(obj.fields, GtWorkspaceKey) == Some(r.value)
  {
    if !obj.JObj? then Err(WrongType)
    else if !HasKey(obj.fields, IdKey) then Err(KeyError(IdKey))
    else
      var d := JObj(Delete(obj.fields, IdKey));
      if resultType == GtResultType then GetItem(d, GtWorkspaceKey) else Ok(d)
  }

  function Normaliser(resultType: string): JVal -> Result<JVal> {
    obj => NormaliseRecord(obj, resultType)
  }

  /** `remove_mongodb_id_from_result(json_data, result_type)`. */
  function Normalised(records: seq<JVal>, resultType: string): Result<seq<JVal>> {
    MapAll(records, Normaliser(resultType))
  }

  method RemoveMongoIdFromResult(jsonData: seq<JVal>, resultType: string)
    returns (r: Result<seq<JVal>>)
    ensures r == Normalised(jsonData, resultType)
  {
    var purgedList: seq<JVal> := [];
    for i := 0 to |jsonData|
      invariant Normalised(jsonData[..i], resultType) == Ok(purgedList)
    {
      MapAllSnoc(jsonData[..i], Normaliser(resultType), jsonData[i]);
      assert jsonData[..i + 1] == jsonData[..i] + [jsonData[i]];
      var obj := jsonData[i];
      if !obj.JObj? {
        MapAllStopsAt(jsonData, Normaliser(resultType), i);
        return Err(WrongType);
      }
      var d := obj.fields;  // dict(obj): the caller's record is never touched
      if !HasKey(d, IdKey) {
        MapAllStopsAt(jsonData, Normaliser(resultType), i);
        return Err(KeyError(IdKey));
      }
      d := Delete(d, IdKey);
      var out := JObj(d);
      if resultType == GtResultType {
        var w := Lookup(d, GtWorkspaceKey);
        if w.None? {
          MapAllStopsAt(jsonData, Normaliser(resultType), i);
          return Err(KeyError(GtWorkspaceKey));
        }
        out := w.value;
      }
      purgedList := purgedList + [out];
    }
    assert jsonData[..|jsonData|] == jsonData;
    return Ok(purgedList);
  }

  /** One output per record, in order, each the normalised record; the call fails exactly
      when some record cannot be normalised. */
  lemma NormalisedOneToOne(records: seq<JVal>, resultType: string)
    ensures Normalised(records, resultType).Ok? <==>
      forall i :: 0 <= i < |records| ==> NormaliseRecord(records[i], resultType).Ok?
    ensures Normalised(records, resultType).Ok? ==>
      var out := Normalised(records, resultType).value;
      |out| == |records| &&
      forall i :: 0 <= i < |records| ==> NormaliseRecord(records[i], resultType) == Ok(out[i])
  {
    MapAllOneToOne(records, Normaliser(resultType));
  }

  /** Outside the "gt" result type, an output is its record with only `_id` removed: no
      other entry changes and none is added. */
  lemma RecordWithoutId(obj: JVal, resultType: string)
    requires resultType != GtResultType && NormaliseRecord(obj, resultType).Ok?
    ensures obj.JObj? && HasKey(obj.fields, IdKey)
    ensures NormaliseRecord(obj, resultType) == Ok(JObj(Delete(obj.fields, IdKey)))
    ensures var out := NormaliseRecord(obj, resultType).value.fields;
      !HasKey(out, IdKey) && forall k :: k != IdKey ==> Lookup(out, k) == Lookup(obj.fields, k)
  {
  }

  /** For the "gt" result type, an output is exactly the record's `gt_workspace` value. */
  lemma RecordUnwrapped(obj: JVal)
    requires NormaliseRecord(obj, GtResultType).Ok?
    ensures obj.JObj? && HasKey(obj.fields, IdKey) && HasKey(obj.fields, GtWorkspaceKey)
    ensures Some(NormaliseRecord(obj, GtResultType).value) == Lookup(obj.fields, GtWorkspaceKey)
  {
  }

  /** Which records fail, and with which exception: a non-object with a TypeError, a
      record without `_id` with KeyError('_id'), and, for "gt" only, a record without
      `gt_workspace` with KeyError('gt_workspace'). */
  lemma RecordErrors(obj: JVal, resultType: string)
    ensures !obj.JObj? ==> NormaliseRecord(obj, resultType) == Err(WrongType)
    ensures obj.JObj? && !HasKey(obj.fields, IdKey) ==>
      NormaliseRecord(obj, resultType) == Err(KeyError(IdKey))
    ensures obj.JObj? && HasKey(obj.fields, IdKey) ==>
      (NormaliseRecord(obj, resultType).Err? <==>
       resultType == GtResultType && !HasKey(obj.fields, GtWorkspaceKey))
  {
  }

  /** The whole call fails with the exception of the first record that cannot be
      normalised; a record without `_id` therefore always makes the call fail. */
  lemma NormalisedFirstError(records: seq<JVal>, resultType: string) returns (k: nat)
    requires Normalised(records, resultType).Err?
    ensures k < |records|
    ensures NormaliseRecord(records[k], resultType) == Err(Normalised(records, resultType).error)
    ensures forall j :: 0 <= j < k ==> NormaliseRecord(records[j], resultType).Ok?
  {
    k := MapAllFirstError(records, Normaliser(resultType));
  }

  /** Records that all carry `_id` are normalised without error unless the result type is
      "gt"; then they also need a `gt_workspace` entry. */
  lemma NormalisedIdentified(records: seq<JVal>, resultType: string)
    requires forall i :: 0 <= i < |records| ==> records[i].JObj? && HasKey(records[i].fields, IdKey)
    requires resultType == GtResultType ==>
      forall i :: 0 <= i < |records| ==> HasKey(records[i].fields, GtWorkspaceKey)
    ensures Normalised(records, resultType).Ok?
  {
    NormalisedOneToOne(records, resultType);
  }

  /** Normalising is not idempotent: the outputs have no `_id`, so normalising them again
      fails with KeyError('_id') (for any result type other than "gt"). */
  lemma NormaliseTwiceFails(records: seq<JVal>, resultType: string)
    requires resultType != GtResultType && records != []
    requires Normalised(records, resultType).Ok?
    ensures Normalised(Normalised(records, resultType).value, resultType) == Err(KeyError(IdKey))
  {
    var out := Normalised(records, resultType).value;
    NormalisedOneToOne(records, resultType);
    RecordWithoutId(records[0], resultType);
    assert NormaliseRecord(out[0], resultType) == Err(KeyError(IdKey));
    assert out[..0] == [];
    MapAllStopsAt(out, Normaliser(resultType), 0);
  }

  /** Normalising a subsequence of records gives a subsequence of the outputs. */
  lemma NormalisedSubseq(a: seq<JVal>, b: seq<JVal>, resultType: string)
    requires Subseq(a, b) && Normalised(b, resultType).Ok?
    ensures Normalised(a, resultType).Ok?
    ensures Subseq(Normalised(a, resultType).value, Normalised(b, resultType).value)
  {
    MapAllSubseq(a, b, Normaliser(resultType));
  }

  /** Normalising a list with one more record appends that record's output. */
  lemma NormalisedAppend(records: seq<JVal>, obj: JVal, resultType: string)
    requires Normalised(records, resultType).Ok? && NormaliseRecord(obj, resultType).Ok?
    ensures Normalised(records + [obj], resultType) ==
      Ok(Normalised(records, resultType).value + [NormaliseRecord(obj, resultType).value])
  {
    MapAllSnoc(records, Normaliser(resultType), obj);
  }

  /** Records that all carry `_id`, normalised under a result type other than "gt",
      come out one for one as the records without `_id`. */
  lemma NormalisedStripsIds(records: seq<JVal>, resultType: string)
    requires AllIdentified(records) && resultType != GtResultType
    ensures Normalised(records, resultType).Ok?
    ensures var out := Normalised(records, resultType).value;
      |out| == |records| &&
      forall i :: 0 <= i < |records| ==> out[i] == JObj(Delete(records[i].fields, IdKey))
  {
    NormalisedIdentified(records, resultType);
    NormalisedOneToOne(records, resultType);
  }

  /** A freshly inserted document normalises back to what was inserted (or, for "gt",
      to its `gt_workspace` value). */
  lemma StoredNormalises(doc: JVal, oid: nat, resultType: string)
    requires doc.JObj? && !HasKey(doc.fields, IdKey)
    ensures NormaliseRecord(Stored(doc, oid), resultType) ==
      if resultType == GtResultType then GetItem(doc, GtWorkspaceKey) else Ok(doc)
  {
    var fields := [(IdKey, JOid(oid))] + doc.fields;
    assert fields[1..] == doc.fields;
    assert Delete(fields, IdKey) == doc.fields;
    LookupCons(IdKey, JOid(oid), doc.fields, IdKey);
  }
}
