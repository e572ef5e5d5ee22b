/** The study-facts record shared by every mode of the application: an open
    bag of named fields whose values are strings, booleans or string lists
    (types.ts declares the known fields and an index signature for the rest). */
module StudyFacts {
  import opened Wrappers

  datatype Value = Str(s: string) | Bool(b: bool) | List(items: seq<string>)

  type Facts = map<string, Value>

  /** JavaScript truthiness of a stored value: the empty string and `false`
      are falsy, every array (even an empty one) is truthy. */
  predicate Truthy(v: Value) {
    match v
    case Str(s) => s != ""
    case Bool(b) => b
    case List(_) => true
  }

  /** `facts[k]`, where a missing key reads as `undefined`. */
  function Get(f: Facts, k: string): Option<Value> {
    if k in f then Some(f[k]) else None
  }

  /** `!!facts[k]`. */
  predicate FactTruthy(f: Facts, k: string) {
    k in f && Truthy(f[k])
  }

  /** A text-typed fact as a string; a missing or non-string value reads as
      the empty string. */
  function TextOf(f: Facts, k: string): (r: string)
    ensures r != "" <==> k in f && f[k].Str? && f[k].s != ""
  {
    if k in f && f[k].Str? then f[k].s else ""
  }

  /** An array-typed fact, `(facts[k] || [])`; a missing or non-array value
      reads as the empty list. */
  function ListOf(f: Facts, k: string): (r: seq<string>)
    ensures r != [] ==> k in f && f[k] == List(r)
    ensures k in f && f[k].List? ==> r == f[k].items
  {
    if k in f && f[k].List? then f[k].items else []
  }

  /** `{ ...prev, ...upd }`: every key of the update is overwritten with the
      update's value, every other key keeps its old value, nothing is
      dropped. */
  function Merge(prev: Facts, upd: Facts): (r: Facts)
    ensures r.Keys == prev.Keys + upd.Keys
    ensures forall k | k in upd :: r[k] == upd[k]
    ensures forall k | k in prev && k !in upd :: r[k] == prev[k]
  {
    prev + upd
  }

  /** Applying the same update twice is applying it once. */
  lemma MergeIdempotent(prev: Facts, upd: Facts)
    ensures Merge(Merge(prev, upd), upd) == Merge(prev, upd)
  {
  }

  /** Merging an empty update changes nothing. */
  lemma MergeEmpty(prev: Facts)
    ensures Merge(prev, map[]) == prev
  {
  }

  /** `{ ...prev, [k]: v }`: only key `k` changes. */
  function UpdateFact(f: Facts, k: string, v: Value): (r: Facts)
    ensures r.Keys == f.Keys + {k}
    ensures r[k] == v
    ensures forall j | j in f && j != k :: r[j] == f[j]
  {
    f[k := v]
  }

  /** A single-field update is the shallow merge of a one-entry record. */
  lemma UpdateFactIsMerge(f: Facts, k: string, v: Value)
    ensures UpdateFact(f, k, v) == Merge(f, map[k := v])
  {
  }

  /** The last of two updates to the same key wins. */
  lemma UpdateFactOverwrites(f: Facts, k: string, v: Value, w: Value)
    ensures UpdateFact(UpdateFact(f, k, v), k, w) == UpdateFact(f, k, w)
  {
  }
}
