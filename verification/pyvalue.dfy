/** The dynamic values the program passes around in its configuration and
    option dictionaries (JSON-shaped data plus progress-hook references), and
    Python's insertion-ordered dict over string keys: assigning to a key that
    is present keeps its position, a new key goes to the end. */
module PyValue {
  import opened Common

  datatype Value =
    | VNone
    | VBool(b: bool)
    | VInt(i: int)
    | VStr(s: string)
    | VList(items: seq<Value>)
    | VDict(entries: seq<Entry>)
    | VHook(owner: nat)  // a bound progress-hook method, compared by its owner

  datatype Entry = Entry(key: string, val: Value)

  predicate UniqueKeys(d: seq<Entry>) {
    forall i, j :: 0 <= i < j < |d| ==> d[i].key != d[j].key
  }

  /** A Python dict with string keys, in insertion order. */
  type Dict = d: seq<Entry> | UniqueKeys(d) witness []

  /** Python truthiness: None, False, 0, "", [] and {} are false. */
  predicate Truthy(v: Value) {
    match v
    case VNone => false
    case VBool(b) => b
    case VInt(i) => i != 0
    case VStr(s) => s != ""
    case VList(xs) => xs != []
    case VDict(es) => es != []
    case VHook(_) => true
  }

  predicate IsScalar(v: Value) {
    v.VNone? || v.VBool? || v.VInt? || v.VStr?
  }

  /** str(v) for a scalar value. */
  function Str(v: Value): string
    requires IsScalar(v)
  {
    match v
    case VNone => "None"
    case VBool(b) => if b then "True" else "False"
    case VInt(i) => IntToString(i)
    case VStr(s) => s
  }

  /** Position of the last entry with key k (the only one in a Dict). */
  function KeyIndex(d: seq<Entry>, k: string): (r: Option<nat>)
    ensures r.Some? ==> r.value < |d| && d[r.value].key == k
    ensures r.Some? ==> forall j :: r.value < j < |d| ==> d[j].key != k
    ensures r.None? ==> forall j :: 0 <= j < |d| ==> d[j].key != k
    decreases |d|
  {
    if d == [] then None
    else if d[|d| - 1].key == k then Some(|d| - 1)
    else KeyIndex(d[..|d| - 1], k)
  }

  /** d.get(k), with None standing for an absent key. */
  function Get(d: seq<Entry>, k: string): Option<Value> {
    match KeyIndex(d, k)
    case Some(i) => Some(d[i].val)
    case None => None
  }

  predicate Has(d: seq<Entry>, k: string) {
    KeyIndex(d, k).Some?
  }

  /** d.get(k, default). */
  function GetOr(d: seq<Entry>, k: string, default: Value): Value {
    Get(d, k).GetOr(default)
  }

  function Keys(d: seq<Entry>): (r: seq<string>)
    ensures |r| == |d| && forall i :: 0 <= i < |d| ==> r[i] == d[i].key
  {
    seq(|d|, i requires 0 <= i < |d| => d[i].key)
  }

  lemma {:induction false} KeyIndexSameKeys(d: seq<Entry>, e: seq<Entry>, k: string)
    requires Keys(d) == Keys(e)
    ensures KeyIndex(d, k) == KeyIndex(e, k)
    decreases |d|
  {
    if d != [] {
      assert Keys(d[..|d| - 1]) == Keys(e[..|e| - 1]);
      KeyIndexSameKeys(d[..|d| - 1], e[..|e| - 1], k);
    }
  }

  lemma KeyIndexUnique(d: Dict, i: nat)
    requires i < |d|
    ensures KeyIndex(d, d[i].key) == Some(i)
  {
  }

  lemma GetAppend(d: seq<Entry>, e: Entry, k: string)
    ensures Get(d + [e], k) == if e.key == k then Some(e.val) else Get(d, k)
  {
    assert (d + [e])[..|d|] == d;
  }

  /** d[k] = v. */
  function Set(d: Dict, k: string, v: Value): (r: Dict)
    ensures forall j :: Get(r, j) == if j == k then Some(v) else Get(d, j)
  {
    match KeyIndex(d, k)
    case Some(i) =>
      var r := d[i := Entry(k, v)];
      assert Keys(r) == Keys(d);
      forall j ensures Get(r, j) == if j == k then Some(v) else Get(d, j) {
        KeyIndexSameKeys(d, r, j);
      }
      r
    case None =>
      var r := d + [Entry(k, v)];
      forall j ensures Get(r, j) == if j == k then Some(v) else Get(d, j) {
        GetAppend(d, Entry(k, v), j);
      }
      r
  }

  /** Assigning a present key keeps the order of the keys; a new key goes
      last. */
  lemma SetKeys(d: Dict, k: string, v: Value)
    ensures Keys(Set(d, k, v)) == if Has(d, k) then Keys(d) else Keys(d) + [k]
  {
    var r := Set(d, k, v);
    if Has(d, k) {
      assert Keys(r) == Keys(d);
    } else {
      assert Keys(r) == Keys(d) + [k];
    }
  }

  /** d.update(e) and {**d, **e}: every entry of e assigned in order. */
  function Update(d: Dict, e: seq<Entry>): (r: Dict)
    ensures forall k :: Get(r, k) == if Get(e, k).Some? then Get(e, k) else Get(d, k)
    decreases |e|
  {
    if e == [] then d
    else
      var last := e[|e| - 1];
      var r := Set(Update(d, e[..|e| - 1]), last.key, last.val);
      assert e == e[..|e| - 1] + [last];
      forall k ensures Get(r, k) == if Get(e, k).Some? then Get(e, k) else Get(d, k) {
        GetAppend(e[..|e| - 1], last, k);
      }
      r
  }

  /** Assigning a key that is absent appends it. */
  lemma SetFresh(d: Dict, k: string, v: Value)
    requires !Has(d, k)
    ensures Set(d, k, v) == d + [Entry(k, v)]
  {
  }

  /** Assigning a key the value it already holds changes nothing. */
  lemma SetSame(d: Dict, k: string, v: Value)
    requires Get(d, k) == Some(v)
    ensures Set(d, k, v) == d
  {
    var i := KeyIndex(d, k).value;
    assert d[i] == Entry(k, v);
    assert d[i := Entry(k, v)] == d;
  }

  /** A Dict rebuilt by assigning its own entries one by one from empty is
      the same Dict, order included. */
  lemma {:induction false} UpdateEmpty(d: Dict)
    ensures Update([], d) == d
    decreases |d|
  {
    if d != [] {
      var p := d[..|d| - 1];
      UpdateEmpty(p);
      assert !Has(p, d[|d| - 1].key);
      SetFresh(p, d[|d| - 1].key, d[|d| - 1].val);
    }
  }
}
