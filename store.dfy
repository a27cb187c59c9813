/** The document store the service queries: one collection of documents kept in
    insertion order, `find` with a filter document, and `insert_one`. */
module Store {
  import opened Results
  import opened Seqs
  import opened Json

  /** The filter documents the service builds: `{path: {'$exists': True}}`,
      `{path: compile(pattern)}` and `{'$and': [l, r]}`. */
  datatype Filter =
    | Exists(path: seq<string>)
    | Regex(path: seq<string>, pattern: string)
    | And(left: Filter, right: Filter)

  /** An unanchored pattern search, read literally: the pattern occurs in the text. */
  predicate Matches(pattern: string, text: string) {
    Contains(text, pattern)
  }

  /** A pattern without regular-expression metacharacters, for which the literal reading
      of `Matches` is what `re` does. */
  predicate Plain(pattern: string) {
    forall i :: 0 <= i < |pattern| ==> pattern[i] !in ".^$*+?{}[]\\|()"
  }

  predicate Satisfies(doc: JVal, f: Filter) {
    match f
    case Exists(path) => PathValue(doc, path).Some?
    case Regex(path, pattern) =>
      (match PathValue(doc, path)
       case Some(JStr(s)) => Matches(pattern, s)
       case _ => false)
    case And(l, r) => Satisfies(doc, l) && Satisfies(doc, r)
  }

  /** `find(filter)`: the documents that satisfy the filter, in store order. */
  function Select(docs: seq<JVal>, f: Filter): seq<JVal>
    decreases |docs|
  {
    if docs == [] then []
    else
      var init := Select(docs[..|docs| - 1], f);
      if Satisfies(docs[|docs| - 1], f) then init + [docs[|docs| - 1]] else init
  }

  /** `find` is an order-preserving filter: the documents kept are exactly the ones
      satisfying the filter, each as often as it is stored. */
  lemma {:induction false} SelectFilters(docs: seq<JVal>, f: Filter)
    ensures Subseq(Select(docs, f), docs)
    ensures forall x :: x in Select(docs, f) <==> x in docs && Satisfies(x, f)
    ensures forall x :: multiset(Select(docs, f))[x] == if Satisfies(x, f) then multiset(docs)[x] else 0
    decreases |docs|
  {
    if docs != [] {
      var init, last := docs[..|docs| - 1], docs[|docs| - 1];
      SelectFilters(init, f);
      assert docs == init + [last];
      assert multiset(docs) == multiset(init) + multiset{last};
      if Satisfies(last, f) {
        assert multiset(Select(docs, f)) == multiset(Select(init, f)) + multiset{last};
        SubseqBothSnoc(Select(init, f), init, last);
      } else {
        SubseqSnoc(Select(init, f), init, last);
      }
    }
  }

  /** A filter that every selected document of `f` also satisfies selects a larger
      subsequence. */
  lemma {:induction false} SelectNarrower(docs: seq<JVal>, f: Filter, g: Filter)
    requires forall i :: 0 <= i < |docs| && Satisfies(docs[i], f) ==> Satisfies(docs[i], g)
    ensures Subseq(Select(docs, f), Select(docs, g))
    decreases |docs|
  {
    if docs != [] {
      var init, last := docs[..|docs| - 1], docs[|docs| - 1];
      assert forall i :: 0 <= i < |init| ==> init[i] == docs[i];
      SelectNarrower(init, f, g);
      if Satisfies(last, f) {
        SubseqBothSnoc(Select(init, f), Select(init, g), last);
      } else if Satisfies(last, g) {
        SubseqSnoc(Select(init, f), Select(init, g), last);
      }
    }
  }

  /** A document appended to the store is found last by every filter it satisfies. */
  lemma SelectAppend(docs: seq<JVal>, d: JVal, f: Filter)
    ensures Select(docs + [d], f) == Select(docs, f) + (if Satisfies(d, f) then [d] else [])
  {
    assert (docs + [d])[..|docs|] == docs;
  }

  /** A filter nobody satisfies finds nothing. */
  lemma {:induction false} SelectNone(docs: seq<JVal>, f: Filter)
    requires forall i :: 0 <= i < |docs| ==> !Satisfies(docs[i], f)
    ensures Select(docs, f) == []
    decreases |docs|
  {
    if docs != [] {
      var init := docs[..|docs| - 1];
      assert forall i :: 0 <= i < |init| ==> init[i] == docs[i];
      SelectNone(init, f);
    }
  }

  /** The ObjectId under `_id`, when a document has one. */
  function StoreId(doc: JVal): Option<nat> {
    if doc.JObj? then
      match Lookup(doc.fields, IdKey)
      case Some(JOid(n)) => Some(n)
      case _ => None
    else None
  }

  /** Every document is an object carrying `_id`, as every document the store returns is. */
  predicate AllIdentified(docs: seq<JVal>) {
    forall i :: 0 <= i < |docs| ==> docs[i].JObj? && HasKey(docs[i].fields, IdKey)
  }

  /** The document `insert_one` stores for `doc`: `doc` with an `_id` entry in front. */
  function Stored(doc: JVal, oid: nat): JVal
    requires doc.JObj?
  {
    JObj([(IdKey, JOid(oid))] + doc.fields)
  }

  /** A collection; `acknowledged` is the write concern's verdict, fixed per collection. */
  class Collection {
    var docs: seq<JVal>
    var nextOid: nat
    const acknowledged: bool

    /** Every document has its own ObjectId, below the next one to be handed out. */
    ghost predicate Valid()
      reads this
    {
      (forall i :: 0 <= i < |docs| ==> StoreId(docs[i]).Some? && StoreId(docs[i]).value < nextOid) &&
      (forall i, j :: 0 <= i < j < |docs| ==> StoreId(docs[i]) != StoreId(docs[j]))
    }

    constructor (acknowledged: bool)
      ensures Valid() && docs == [] && this.acknowledged == acknowledged
    {
      docs := [];
      nextOid := 0;
      this.acknowledged := acknowledged;
    }

    /** `find(filter)`: the stored documents that satisfy the filter, in store order,
        each as often as it is stored. */
    function Find(f: Filter): (r: seq<JVal>)
      reads this
      ensures Subseq(r, docs)
      ensures forall x :: x in r <==> x in docs && Satisfies(x, f)
      ensures forall x :: multiset(r)[x] == if Satisfies(x, f) then multiset(docs)[x] else 0
    {
      SelectFilters(docs, f);
      Select(docs, f)
    }

    /** `insert_one(doc)`: appends `doc` under a fresh `_id` and leaves the other documents
        as they were. */
    method InsertOne(doc: JVal) returns (ack: bool)
      requires Valid() && doc.JObj? && !HasKey(doc.fields, IdKey)
      modifies this
      ensures Valid()
      ensures docs == old(docs) + [Stored(doc, old(nextOid))]
      ensures forall i :: 0 <= i < |old(docs)| ==> StoreId(docs[i]) != StoreId(docs[|old(docs)|])
      ensures ack == acknowledged
    {
      var stored := Stored(doc, nextOid);
      assert StoreId(stored) == Some(nextOid);
      docs := docs + [stored];
      nextOid := nextOid + 1;
      ack := acknowledged;
    }
  }

  /** The ObjectIds of a valid collection make every document identified. */
  lemma ValidIdentified(c: Collection)
    requires c.Valid()
    ensures AllIdentified(c.docs)
  {
    forall i | 0 <= i < |c.docs|
      ensures c.docs[i].JObj? && HasKey(c.docs[i].fields, IdKey)
    {
      assert StoreId(c.docs[i]).Some?;
    }
  }

  /** Documents found in an identified store are identified. */
  lemma SelectIdentified(docs: seq<JVal>, f: Filter)
    requires AllIdentified(docs)
    ensures AllIdentified(Select(docs, f))
  {
    SelectFilters(docs, f);
    forall i | 0 <= i < |Select(docs, f)|
      ensures Select(docs, f)[i].JObj? && HasKey(Select(docs, f)[i].fields, IdKey)
    {
      assert Select(docs, f)[i] in docs;
    }
  }
}
