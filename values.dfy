/** Values the Python code passes around: optional values, results that
    carry an exception's message, insertion-ordered dictionaries and the
    JSON-like records the processors return. */
module Values {

  datatype Option<+T> = None | Some(value: T) {
    function GetOr(default: T): T
    {
      match this
      case Some(v) => v
      case None => default
    }
  }

  /** A computation that either returns a value or raises; `msg` is the
      text `str(e)` of the exception. */
  datatype Result<+T> = Ok(value: T) | Err(msg: string)

  /** A Python `dict` with string keys, in insertion order. */
  type Dict<V> = seq<(string, V)>

  function Keys<V>(d: Dict<V>): (ks: seq<string>)
    ensures |ks| == |d|
    ensures forall i :: 0 <= i < |d| ==> ks[i] == d[i].0
  {
    if |d| == 0 then [] else [d[0].0] + Keys(d[1..])
  }

  predicate UniqueKeys<V>(d: Dict<V>)
  {
    forall i, j :: 0 <= i < j < |d| ==> d[i].0 != d[j].0
  }

  predicate HasKey<V>(d: Dict<V>, k: string)
  {
    exists i :: 0 <= i < |d| && d[i].0 == k
  }

  /** Position of `k` in `d` (its first occurrence). */
  function Position<V>(d: Dict<V>, k: string): (i: nat)
    requires HasKey(d, k)
    ensures i < |d| && d[i].0 == k
    ensures forall j :: 0 <= j < i ==> d[j].0 != k
  {
    if d[0].0 == k then 0
    else
      assert HasKey(d[1..], k) by {
        var i :| 0 <= i < |d| && d[i].0 == k;
        assert d[1..][i - 1].0 == k;
      }
      1 + Position(d[1..], k)
  }

  /** The first position holding `k` is its position. */
  lemma PositionOf<V>(d: Dict<V>, k: string, p: nat)
    requires p < |d| && d[p].0 == k && forall j :: 0 <= j < p ==> d[j].0 != k
    ensures HasKey(d, k) && Position(d, k) == p
  {
    var i := Position(d, k);
    assert !(i < p) && !(p < i);
  }

  /** `d.get(k)`. */
  function Get<V>(d: Dict<V>, k: string): (r: Option<V>)
    ensures r.Some? <==> HasKey(d, k)
  {
    if HasKey(d, k) then Some(d[Position(d, k)].1) else None
  }

  /** `d[k] = v`: an existing key keeps its place and takes the new value,
      a new key goes to the end. */
  function Set<V>(d: Dict<V>, k: string, v: V): (r: Dict<V>)
    ensures Get(r, k) == Some(v)
    ensures forall k' :: k' != k ==> Get(r, k') == Get(d, k')
    ensures |r| == if HasKey(d, k) then |d| else |d| + 1
    ensures !HasKey(d, k) ==> r == d + [(k, v)]
    ensures UniqueKeys(d) ==> UniqueKeys(r)
    ensures forall k' :: HasKey(r, k') <==> HasKey(d, k') || k' == k
  {
    if HasKey(d, k) then
      var i := Position(d, k);
      var r := d[i := (k, v)];
      assert forall j :: 0 <= j < |d| ==> r[j].0 == d[j].0;
      assert r[i].0 == k;
      assert Position(r, k) == i;
      assert forall k' :: HasKey(r, k') <==> HasKey(d, k');
      forall k' | k' != k && HasKey(d, k') ensures Position(r, k') == Position(d, k') {
        PositionOf(r, k', Position(d, k'));
      }
      r
    else
      var r := d + [(k, v)];
      assert forall m :: 0 <= m < |d| ==> r[m] == d[m];
      forall k' | HasKey(d, k') ensures HasKey(r, k') && Position(r, k') == Position(d, k') {
        assert r[Position(d, k')].0 == k';
      }
      assert r[|d|].0 == k;
      assert Position(r, k) == |d|;
      r
  }

  /** The JSON-like values of the processors' responses. */
  datatype Value =
    | Str(s: string)
    | Int(n: int)
    | Bool(b: bool)
    | StrList(items: seq<string>)
    | StrSet(elems: set<string>)
    | Obj(fields: Dict<Value>)
}
