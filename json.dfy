/** JSON-like values as the pipeline reads and writes them (YAML configuration, metadata.json,
    metrics.json, the canonical payload), with the Python operations the core applies to them.
    A Python dict keeps insertion order, so an object is a sequence of entries. JSON arrays do
    not occur in the artifacts the core handles and are not modelled. */
module Json {
  import opened Wrappers
  import Text

  datatype Json =
    | Null
    | Bool(b: bool)
    | Int(i: int)
    | Real(r: real)
    | Str(s: string)
    | Obj(entries: seq<(string, Json)>)

  /** A Python dict with string keys, in insertion order. */
  type Dict = seq<(string, Json)>

  function Keys(d: Dict): (ks: seq<string>)
    ensures |ks| == |d| && forall i :: 0 <= i < |d| ==> ks[i] == d[i].0
  {
    seq(|d|, i requires 0 <= i < |d| => d[i].0)
  }

  /** Every key occurs once, as in any Python dict. */
  predicate DistinctKeys(d: Dict) {
    forall i, j :: 0 <= i < j < |d| ==> d[i].0 != d[j].0
  }

  /** The position of key `k` in `d`, if it is there (the first one). */
  function IndexOf(d: Dict, k: string): (r: Option<nat>)
    ensures r.Some? ==> r.value < |d| && d[r.value].0 == k && forall j :: 0 <= j < r.value ==> d[j].0 != k
    ensures r.None? ==> forall j :: 0 <= j < |d| ==> d[j].0 != k
    decreases |d|
  {
    if d == [] then None
    else if d[0].0 == k then Some(0)
    else match IndexOf(d[1..], k)
      case None => None
      case Some(i) => Some(i + 1)
  }

  /** `d[k]` when `k in d`. */
  function Lookup(d: Dict, k: string): Option<Json> {
    match IndexOf(d, k)
    case Some(i) => Some(d[i].1)
    case None => None
  }

  /** With distinct keys, the value stored under a key is the one of its entry. */
  lemma LookupEntry(d: Dict, i: int)
    requires DistinctKeys(d) && 0 <= i < |d|
    ensures Lookup(d, d[i].0) == Some(d[i].1)
  {
  }

  /** The first entry with a key is the one a lookup finds. */
  lemma LookupFirst(d: Dict, i: int)
    requires 0 <= i < |d| && forall j :: 0 <= j < i ==> d[j].0 != d[i].0
    ensures Lookup(d, d[i].0) == Some(d[i].1)
  {
    var r := IndexOf(d, d[i].0);
    assert r.Some?;
  }

  /** `d.get(k, default)`. */
  function Get(d: Dict, k: string, default: Json): Json {
    match Lookup(d, k)
    case Some(v) => v
    case None => default
  }

  /** `d[k] = v`: an existing entry keeps its place, a new key goes last. */
  function Set(d: Dict, k: string, v: Json): (r: Dict)
    ensures IndexOf(d, k).Some? ==> r == d[IndexOf(d, k).value := (k, v)]
    ensures IndexOf(d, k).None? ==> r == d + [(k, v)]
  {
    match IndexOf(d, k)
    case Some(i) => d[i := (k, v)]
    case None => d + [(k, v)]
  }

  /** After `d[k] = v`, `k` maps to `v`, every other key to what it mapped to before, and
      no key is repeated that was not repeated before. */
  lemma SetLookup(d: Dict, k: string, v: Json)
    ensures Lookup(Set(d, k, v), k) == Some(v)
    ensures forall k' :: k' != k ==> Lookup(Set(d, k, v), k') == Lookup(d, k')
    ensures DistinctKeys(d) ==> DistinctKeys(Set(d, k, v))
  {
    var r := Set(d, k, v);
    forall k' | k' != k ensures Lookup(r, k') == Lookup(d, k') {
      match IndexOf(d, k')
      case None =>
        assert IndexOf(r, k').None?;
      case Some(j) =>
        assert r[j] == d[j];
        assert IndexOf(r, k') == Some(j) by {
          var rj := IndexOf(r, k');
          assert rj.Some?;
        }
    }
    match IndexOf(d, k)
    case None =>
      assert r[|d|] == (k, v);
      assert forall j :: 0 <= j < |d| ==> r[j] == d[j];
    case Some(i) =>
      assert r[i] == (k, v);
      assert forall j :: 0 <= j < |d| && j != i ==> r[j] == d[j];
  }

  // ---------------------------------------------------------------------------
  // Python conversions

  /** The conversions of text to numbers that `float(s)` and `int(s)` perform; they are
      supplied, not modelled (`None` stands for the ValueError). */
  datatype Parsers = Parsers(parseFloat: string -> Option<real>, parseInt: string -> Option<int>)

  /** The numeric value of a Python number (bool, int or float). */
  function Number(v: Json): Option<real> {
    match v
    case Bool(b) => Some(if b then 1.0 else 0.0)
    case Int(i) => Some(i as real)
    case Real(r) => Some(r)
    case _ => None
  }

  /** `int(x)` for a float: truncation toward zero. */
  function Trunc(x: real): (n: int)
    ensures 0.0 <= x ==> 0 <= n && n as real <= x < n as real + 1.0
    ensures x < 0.0 ==> n <= 0 && n as real - 1.0 < x <= n as real
  {
    if x >= 0.0 then x.Floor else -((-x).Floor)
  }

  /** `float(v)`; `None` stands for the TypeError or ValueError it raises. */
  function ToFloat(v: Json, p: Parsers): (r: Option<real>)
    ensures Number(v).Some? ==> r == Number(v)
    ensures r.Some? <==> Number(v).Some? || (v.Str? && p.parseFloat(v.s).Some?)
  {
    match v
    case Str(s) => p.parseFloat(s)
    case _ => Number(v)
  }

  /** `int(v)`; `None` stands for the TypeError or ValueError it raises. */
  function ToInt(v: Json, p: Parsers): (r: Option<int>)
    ensures v.Int? ==> r == Some(v.i)
    ensures v.Real? ==> r.Some? && -1.0 < v.r - r.value as real < 1.0 && r.value as real * v.r >= 0.0
    ensures r.Some? <==> Number(v).Some? || (v.Str? && p.parseInt(v.s).Some?)
  {
    match v
    case Bool(b) => Some(if b then 1 else 0)
    case Int(i) => Some(i)
    case Real(r) => Some(Trunc(r))
    case Str(s) => p.parseInt(s)
    case _ => None
  }

  /** `float(v)` as a Python call: the value, or the ValueError of a string that is not a
      number, or the TypeError of anything else that is not a number. */
  function FloatOf(v: Json, p: Parsers): (r: Result<real, Exception>)
    ensures r.Success? <==> ToFloat(v, p).Some?
    ensures r.Success? ==> r.value == ToFloat(v, p).value
    ensures r.Failure? ==> r.error == (if v.Str? then ValueError else TypeError)
  {
    match ToFloat(v, p)
    case Some(x) => Success(x)
    case None => Failure(if v.Str? then ValueError else TypeError)
  }

  /** `int(v)` as a Python call, with the same two errors. */
  function IntOf(v: Json, p: Parsers): (r: Result<int, Exception>)
    ensures r.Success? <==> ToInt(v, p).Some?
    ensures r.Success? ==> r.value == ToInt(v, p).value
    ensures r.Failure? ==> r.error == (if v.Str? then ValueError else TypeError)
  {
    match ToInt(v, p)
    case Some(n) => Success(n)
    case None => Failure(if v.Str? then ValueError else TypeError)
  }

  /** Python truthiness (`if v:`). */
  predicate Truthy(v: Json) {
    match v
    case Null => false
    case Bool(b) => b
    case Int(i) => i != 0
    case Real(r) => r != 0.0
    case Str(s) => s != []
    case Obj(es) => es != []
  }

  /** `a < b`: numbers compare by value, strings by code points, anything else raises
      TypeError (`None`). */
  function Less(a: Json, b: Json): (r: Option<bool>)
    ensures Number(a).Some? && Number(b).Some? ==> r == Some(Number(a).value < Number(b).value)
    ensures (a.Null? || b.Null? || a.Obj? || b.Obj?) ==> r.None?
    ensures r.Some? ==> (Number(a).Some? && Number(b).Some?) || (a.Str? && b.Str?)
  {
    if Number(a).Some? && Number(b).Some? then Some(Number(a).value < Number(b).value)
    else if a.Str? && b.Str? then Some(Text.LexLess(a.s, b.s))
    else None
  }

  /** `str(v)`. Text and integers print as themselves; the rendering of floats and dicts
      (`repr`) is supplied. */
  function ToStr(v: Json, show: Json -> string): string {
    match v
    case Null => "None"
    case Bool(b) => if b then "True" else "False"
    case Int(i) => Text.IntToString(i)
    case Str(s) => s
    case _ => show(v)
  }
}
