/** JSON-like documents as the service sees them after `json.loads`: objects keep
    their key order, and the store's ObjectId values stay a value of their own. */
module Json {
  import opened Results

  datatype JVal =
    | JNull
    | JBool(b: bool)
    | JInt(i: int)
    | JStr(s: string)
    | JArr(items: seq<JVal>)
    | JObj(fields: seq<(string, JVal)>)
    | JOid(oid: nat)  // an ObjectId assigned by the store

  /** The key under which the store keeps a document's identifier. */
  const IdKey := "_id"

  /** The value of the first entry named `key`.  A Python dict holds each key once; on
      such documents this is the dict lookup, and the model reads no other kind. */
  function Lookup(fields: seq<(string, JVal)>, key: string): Option<JVal>
    decreases |fields|
  {
    if fields == [] then None
    else if fields[0].0 == key then Some(fields[0].1)
    else Lookup(fields[1..], key)
  }

  predicate HasKey(fields: seq<(string, JVal)>, key: string) {
    Lookup(fields, key).Some?
  }

  /** `del d[key]` on a present key: the key is gone and every other entry stays, in order. */
  function Delete(fields: seq<(string, JVal)>, key: string): (r: seq<(string, JVal)>)
    ensures !HasKey(r, key)
    ensures forall k :: k != key ==> Lookup(r, k) == Lookup(fields, k)
    ensures !HasKey(fields, key) ==> r == fields
    decreases |fields|
  {
    if fields == [] then []
    else if fields[0].0 == key then Delete(fields[1..], key)
    else [fields[0]] + Delete(fields[1..], key)
  }

  /** `v[key]` in Python: a KeyError when an object lacks the key, a TypeError when `v`
      is not an object. */
  function GetItem(v: JVal, key: string): (r: Result<JVal>)
    ensures r.Ok? <==> v.JObj? && HasKey(v.fields, key)
    ensures r.Ok? ==> Some(r.value) == Lookup(v.fields, key)
    ensures r.Err? ==> r.error == (if v.JObj? then KeyError(key) else WrongType)
  {
    match v
    case JObj(fields) =>
      (match Lookup(fields, key)
       case Some(x) => Ok(x)
       case None => Err(KeyError(key)))
    case _ => Err(WrongType)
  }

  /** The value a dotted store path such as `metadata.gt_workspace.id` reaches through
      nested objects, if any. */
  function PathValue(v: JVal, path: seq<string>): Option<JVal>
    decreases |path|
  {
    if path == [] then Some(v)
    else if !v.JObj? then None
    else
      match Lookup(v.fields, path[0])
      case None => None
      case Some(child) => PathValue(child, path[1..])
  }

  lemma LookupCons(k: string, v: JVal, rest: seq<(string, JVal)>, key: string)
    ensures Lookup([(k, v)] + rest, key) == if k == key then Some(v) else Lookup(rest, key)
  {
    assert ([(k, v)] + rest)[1..] == rest;
  }

  /** A path step goes through the entry of its first key. */
  lemma PathCons(v: JVal, key: string, rest: seq<string>)
    ensures PathValue(v, [key] + rest) ==
      if v.JObj? && Lookup(v.fields, key).Some? then PathValue(Lookup(v.fields, key).value, rest) else None
  {
    assert ([key] + rest)[1..] == rest;
  }

  lemma PathOne(v: JVal, key: string)
    ensures PathValue(v, [key]) == if v.JObj? then Lookup(v.fields, key) else None
  {
    assert [key] == [key] + [];
    PathCons(v, key, []);
  }

  /** `str(b)` for a Python bool. */
  function BoolText(b: bool): string {
    if b then "True" else "False"
  }
}
