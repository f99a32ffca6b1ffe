/** Failure-carrying wrappers shared by every module of the model. */
module Base {

  /** A value that may be absent: Python's `None`, a missing JSON key, a JavaScript `null`. */
  datatype Option<+T> = None | Some(value: T)
  {
    function GetOr(default: T): T
    {
      match this
      case Some(v) => v
      case None => default
    }
  }

  /** The outcome of an operation that can fail with an error of type `E`. */
  datatype Result<+R, +E> = Ok(value: R) | Err(error: E)

  /** A scalar JSON value as a request or a cookie carries it. */
  datatype Json = JNull | JBool(b: bool) | JInt(i: int) | JText(s: string)

  /** Python truthiness of a scalar: `None`, `False`, `0` and `''` are false. */
  predicate Truthy(v: Json)
  {
    match v
    case JNull => false
    case JBool(b) => b
    case JInt(i) => i != 0
    case JText(s) => s != []
  }

  /** The keys of an insertion-ordered dictionary, in order. */
  function Keys<K, V>(d: seq<(K, V)>): (ks: seq<K>)
    ensures |ks| == |d| && forall i | 0 <= i < |d| :: ks[i] == d[i].0
  {
    seq(|d|, i requires 0 <= i < |d| => d[i].0)
  }

  /** No key occurs twice. */
  predicate UniqueKeys<K(==), V>(d: seq<(K, V)>)
  {
    forall i, j | 0 <= i < j < |d| :: d[i].0 != d[j].0
  }

  /**
   * `d[k] = v` on a Python dict (or a JavaScript object) kept as its entries
   * in insertion order: an existing key keeps its place and takes the new
   * value, a new key goes last.
   */
  function Put<K(==), V>(d: seq<(K, V)>, k: K, v: V): (r: seq<(K, V)>)
    ensures k in Keys(d) ==> |r| == |d|
    ensures k !in Keys(d) ==> r == d + [(k, v)]
    ensures forall i | 0 <= i < |d| :: r[i] == (if d[i].0 == k then (k, v) else d[i])
    ensures (k, v) in r
  {
    if k in Keys(d) then seq(|d|, i requires 0 <= i < |d| => if d[i].0 == k then (k, v) else d[i])
    else d + [(k, v)]
  }

  /** Writing a key keeps the keys unique and adds exactly that key. */
  lemma PutKeys<K, V>(d: seq<(K, V)>, k: K, v: V)
    requires UniqueKeys(d)
    ensures UniqueKeys(Put(d, k, v))
    ensures forall x :: x in Keys(Put(d, k, v)) <==> x in Keys(d) || x == k
  {
    var r := Put(d, k, v);
    if k in Keys(d) {
      forall x | x in Keys(d) ensures x in Keys(r) {
        var i :| 0 <= i < |d| && d[i].0 == x;
        assert r[i].0 == x;
      }
    } else {
      assert Keys(r) == Keys(d) + [k];
    }
  }

  /** Writing a key keeps every key and adds that one, whether or not the keys are unique. */
  lemma PutKeysGrow<K, V>(d: seq<(K, V)>, k: K, v: V)
    ensures k in Keys(Put(d, k, v))
    ensures forall x | x in Keys(d) :: x in Keys(Put(d, k, v))
  {
    var r := Put(d, k, v);
    forall x | x in Keys(d) ensures x in Keys(r) {
      var i :| 0 <= i < |d| && d[i].0 == x;
      assert r[i].0 == x;
    }
    var j :| 0 <= j < |r| && r[j] == (k, v);
    assert Keys(r)[j] == k;
  }

  /** Every entry after writing a key was there before or carries that key. */
  lemma PutEntries<K, V>(d: seq<(K, V)>, k: K, v: V)
    ensures forall e | e in Put(d, k, v) :: e in d || e.0 == k
  {
    var r := Put(d, k, v);
    forall e | e in r ensures e in d || e.0 == k {
      var j :| 0 <= j < |r| && r[j] == e;
      if j < |d| && d[j].0 != k {
        assert r[j] == d[j];
      }
    }
  }

  /** Writing a key keeps every entry under another key. */
  lemma PutKeepsOthers<K, V>(d: seq<(K, V)>, k: K, v: V)
    ensures forall e | e in d && e.0 != k :: e in Put(d, k, v)
  {
    forall e | e in d && e.0 != k ensures e in Put(d, k, v) {
      var i :| 0 <= i < |d| && d[i] == e;
      assert Put(d, k, v)[i] == e;
    }
  }
}
