/**
 * A JavaScript object whose properties hold string arrays
 * (`Record<string, string[]>`), as an association list in property order.
 *
 * Property order matters: `Object.entries` enumerates string keys in insertion
 * order, and the URL serialisation of the active filters follows it.
 */
module JsObject {
  import opened Wrappers
  import opened Seqs

  datatype Entry = Entry(key: string, values: seq<string>)

  type Record = seq<Entry>

  /** `Object.keys`, in property order. */
  function Keys(r: Record): (ks: seq<string>)
    ensures |ks| == |r|
    ensures forall i :: 0 <= i < |r| ==> ks[i] == r[i].key
  {
    if |r| == 0 then [] else [r[0].key] + Keys(r[1..])
  }

  /** `r[k]`: the values under `k`, or `None` for `undefined`. */
  function Get(r: Record, k: string): Option<seq<string>>
  {
    if |r| == 0 then None
    else if r[0].key == k then Some(r[0].values)
    else Get(r[1..], k)
  }

  /** A key has a value exactly when it is one of the keys. */
  lemma {:induction false} GetKeys(r: Record, k: string)
    ensures Get(r, k).Some? <==> k in Keys(r)
  {
    if |r| > 0 {
      GetKeys(r[1..], k);
      assert Keys(r) == [r[0].key] + Keys(r[1..]);
    }
  }

  /** An object never holds the same key twice: no key recurs further on. */
  predicate WellFormed(r: Record)
  {
    |r| == 0 || (Get(r[1..], r[0].key).None? && WellFormed(r[1..]))
  }

  /** `{ ...r, [k]: vs }`: an existing key keeps its place, a new key goes last. */
  function Put(r: Record, k: string, vs: seq<string>): (r': Record)
    ensures Get(r', k) == Some(vs)
    ensures forall k' :: k' != k ==> Get(r', k') == Get(r, k')
    ensures WellFormed(r) ==> WellFormed(r')
  {
    if |r| == 0 then [Entry(k, vs)]
    else if r[0].key == k then
      var r' := [Entry(k, vs)] + r[1..];
      assert r'[1..] == r[1..];
      r'
    else
      var rest := Put(r[1..], k, vs);
      var r' := [r[0]] + rest;
      assert r'[1..] == rest;
      r'
  }

  /** `delete r[k]`: the other keys keep their order and values. */
  function Delete(r: Record, k: string): (r': Record)
    ensures Get(r', k) == None
    ensures forall k' :: k' != k ==> Get(r', k') == Get(r, k')
    ensures |r'| <= |r|
    ensures WellFormed(r) ==> WellFormed(r')
  {
    if |r| == 0 then []
    else if r[0].key == k then Delete(r[1..], k)
    else
      var rest := Delete(r[1..], k);
      var r' := [r[0]] + rest;
      assert r'[1..] == rest;
      r'
  }

  /** `Put` keeps the property order: an existing key stays where it was and a
      new key comes last. */
  lemma {:induction false} PutKeys(r: Record, k: string, vs: seq<string>)
    ensures Keys(Put(r, k, vs)) == if Get(r, k).Some? then Keys(r) else Keys(r) + [k]
  {
    if |r| > 0 {
      var e, rest := r[0], r[1..];
      assert r == [e] + rest;
      if e.key == k {
        assert Put(r, k, vs) == [Entry(k, vs)] + rest;
        assert Keys(Put(r, k, vs)) == [k] + Keys(rest);
      } else {
        PutKeys(rest, k, vs);
        PutCons(e, rest, k, vs);
        assert Keys([e] + Put(rest, k, vs)) == [e.key] + Keys(Put(rest, k, vs));
      }
    }
  }

  /** Writing back the value a key already holds changes nothing. */
  lemma {:induction false} PutSame(r: Record, k: string)
    requires WellFormed(r)
    requires Get(r, k).Some?
    ensures Put(r, k, Get(r, k).value) == r
  {
    if r[0].key != k {
      PutSame(r[1..], k);
    }
  }

  /** A second write to the same key replaces the first. */
  lemma {:induction false} PutPut(r: Record, k: string, a: seq<string>, b: seq<string>)
    ensures Put(Put(r, k, a), k, b) == Put(r, k, b)
  {
    if |r| > 0 && r[0].key != k {
      PutPut(r[1..], k, a, b);
      assert Put(r, k, a)[1..] == Put(r[1..], k, a);
    }
  }

  lemma PutCons(e: Entry, rest: Record, k: string, vs: seq<string>)
    requires e.key != k
    ensures Put([e] + rest, k, vs) == [e] + Put(rest, k, vs)
  {
    assert ([e] + rest)[1..] == rest;
  }

  lemma DeleteCons(e: Entry, rest: Record, k: string)
    requires e.key != k
    ensures Delete([e] + rest, k) == [e] + Delete(rest, k)
  {
    assert ([e] + rest)[1..] == rest;
  }

  /** Deleting a key that was just added restores the object. */
  lemma {:induction false} DeletePutNew(r: Record, k: string, vs: seq<string>)
    requires Get(r, k).None?
    ensures Delete(Put(r, k, vs), k) == r
  {
    if |r| > 0 {
      var e, rest := r[0], r[1..];
      assert r == [e] + rest;
      DeletePutNew(rest, k, vs);
      PutCons(e, rest, k, vs);
      DeleteCons(e, Put(rest, k, vs), k);
    }
  }

  /** Keys other than `k`. */
  function OtherKey(k: string): string -> bool
  {
    x => x != k
  }

  /** `delete r[k]` removes `k` from the property order and keeps the order of
      the remaining keys. */
  lemma {:induction false} DeleteKeys(r: Record, k: string)
    ensures Keys(Delete(r, k)) == Filter(Keys(r), OtherKey(k))
  {
    if |r| > 0 {
      var e, rest := r[0], r[1..];
      assert r == [e] + rest;
      DeleteKeys(rest, k);
      assert Keys(r) == [e.key] + Keys(rest);
      assert Keys(r)[1..] == Keys(rest);
      if e.key != k {
        DeleteCons(e, rest, k);
        assert Keys([e] + Delete(rest, k)) == [e.key] + Keys(Delete(rest, k));
      }
    }
  }
}
