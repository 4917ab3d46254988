/**
  The value view of a JSON-Lite object: a map from keys to values, each value
  either a string or a nested object. `MyJSON` objects on the heap are tied to
  this view by their invariant; the parser's specification produces it directly.
 */
module JsonValues {

  datatype Option<T> = None | Some(value: T)

  /** One object: its key -> value entries (a key occurs at most once). */
  datatype JsonTree = JsonTree(entries: map<string, TreeValue>)

  /** A value is exactly one of a string or a nested object. */
  datatype TreeValue = TStr(str: string) | TObj(tree: JsonTree)

  /** The empty object. */
  function Empty(): (t: JsonTree)
    ensures t.entries.Keys == {}
  {
    JsonTree(map[])
  }

  /** `getString`: the value of `k` when it is a string, otherwise nothing. */
  function StringOf(t: JsonTree, k: string): (r: Option<string>)
    ensures r.Some? <==> k in t.entries && t.entries[k].TStr?
    ensures r.Some? ==> t.entries[k] == TStr(r.value)
  {
    if k in t.entries && t.entries[k].TStr? then Some(t.entries[k].str) else None
  }

  /** `getObject`: the value of `k` when it is an object, otherwise nothing. */
  function ObjectOf(t: JsonTree, k: string): (r: Option<JsonTree>)
    ensures r.Some? <==> k in t.entries && t.entries[k].TObj?
    ensures r.Some? ==> t.entries[k] == TObj(r.value)
  {
    if k in t.entries && t.entries[k].TObj? then Some(t.entries[k].tree) else None
  }

  /** The keys holding string values. */
  function StringKeys(entries: map<string, TreeValue>): (ks: set<string>)
    ensures forall k :: k in ks <==> k in entries && entries[k].TStr?
  {
    set k | k in entries && entries[k].TStr?
  }

  /** The keys holding object values. */
  function ObjectKeys(entries: map<string, TreeValue>): (ks: set<string>)
    ensures forall k :: k in ks <==> k in entries && entries[k].TObj?
  {
    set k | k in entries && entries[k].TObj?
  }

  /** The number of object-valued entries. */
  function ObjectCount(entries: map<string, TreeValue>): (n: nat)
    ensures n == 0 <==> forall k :: k in entries ==> entries[k].TStr?
  {
    |ObjectKeys(entries)|
  }

  /** Every key is a string key or an object key, never both; the empty object has neither. */
  lemma KeysPartition(entries: map<string, TreeValue>)
    ensures StringKeys(entries) !! ObjectKeys(entries)
    ensures StringKeys(entries) + ObjectKeys(entries) == entries.Keys
    ensures entries == map[] ==> StringKeys(entries) == {} && ObjectKeys(entries) == {}
  {
  }

  /** Writing a string under `k` changes the view of `k` only. */
  lemma SetStringView(t: JsonTree, k: string, v: string, k': string)
    ensures StringOf(JsonTree(t.entries[k := TStr(v)]), k') == if k' == k then Some(v) else StringOf(t, k')
    ensures ObjectOf(JsonTree(t.entries[k := TStr(v)]), k') == if k' == k then None else ObjectOf(t, k')
  {
  }

  /** Writing an object under `k` changes the view of `k` only. */
  lemma SetObjectView(t: JsonTree, k: string, v: JsonTree, k': string)
    ensures ObjectOf(JsonTree(t.entries[k := TObj(v)]), k') == if k' == k then Some(v) else ObjectOf(t, k')
    ensures StringOf(JsonTree(t.entries[k := TObj(v)]), k') == if k' == k then None else StringOf(t, k')
  {
  }
}
