/** A plain JavaScript object used as a string-keyed dictionary, as the ordered
    list of its entries: `Object.entries` order is insertion order, assigning
    to an existing key keeps that key's position, and `Object.assign` copies
    the source's entries into the target one by one. */
module JsObject {
  import opened Wrappers

  function Keys<V>(m: seq<(string, V)>): (ks: seq<string>)
    ensures |ks| == |m|
    ensures forall i :: 0 <= i < |m| ==> ks[i] == m[i].0
  {
    seq(|m|, i requires 0 <= i < |m| => m[i].0)
  }

  /** No key occurs twice: the shape of every real object's entries. */
  predicate UniqueKeys<V>(m: seq<(string, V)>) {
    forall i, j :: 0 <= i < j < |m| ==> m[i].0 != m[j].0
  }

  /** `obj[k]`: the value stored under `k`, `None` for `undefined`. */
  function Get<V>(m: seq<(string, V)>, k: string): (r: Option<V>)
    ensures r.None? <==> forall i :: 0 <= i < |m| ==> m[i].0 != k
    ensures r.Some? ==> exists i :: 0 <= i < |m| && m[i] == (k, r.value)
  {
    if m == [] then None
    else if m[0].0 == k then Some(m[0].1)
    else
      var r := Get(m[1..], k);
      assert r.Some? ==> exists i :: 0 <= i < |m| - 1 && m[1..][i] == (k, r.value);
      r
  }

  /** With unique keys, reading an entry's key gives that entry's value. */
  lemma GetUnique<V>(m: seq<(string, V)>, j: nat)
    requires UniqueKeys(m) && j < |m|
    ensures Get(m, m[j].0) == Some(m[j].1)
  {
    var i :| 0 <= i < |m| && m[i] == (m[j].0, Get(m, m[j].0).value);
    assert i == j;
  }

  /** `Object.values(obj)`, in entry order. */
  function Values<V>(m: seq<(string, V)>): (vs: seq<V>)
    ensures |vs| == |m|
    ensures forall i :: 0 <= i < |m| ==> vs[i] == m[i].1
  {
    if m == [] then [] else [m[0].1] + Values(m[1..])
  }

  /** `obj[k] = v`. */
  function Put<V>(m: seq<(string, V)>, k: string, v: V): (r: seq<(string, V)>)
    ensures Keys(r) == if k in Keys(m) then Keys(m) else Keys(m) + [k]
  {
    if m == [] then [(k, v)]
    else
      KeysCons(m[0], m[1..]);
      assert [m[0]] + m[1..] == m;
      if m[0].0 == k then
        KeysCons((k, v), m[1..]);
        [(k, v)] + m[1..]
      else
        var rest := Put(m[1..], k, v);
        KeysCons(m[0], rest);
        [m[0]] + rest
  }

  /** The keys of an entry followed by more entries. */
  lemma KeysCons<V>(e: (string, V), m: seq<(string, V)>)
    ensures Keys([e] + m) == [e.0] + Keys(m)
  {
  }

  /** After `obj[k] = v`, reading `k` gives `v` and every other key reads as before. */
  lemma {:induction false} PutGet<V>(m: seq<(string, V)>, k: string, v: V, k': string)
    ensures Get(Put(m, k, v), k') == if k' == k then Some(v) else Get(m, k')
  {
    if m != [] && m[0].0 != k {
      PutGet(m[1..], k, v, k');
    }
  }

  lemma PutUnique<V>(m: seq<(string, V)>, k: string, v: V)
    requires UniqueKeys(m)
    ensures UniqueKeys(Put(m, k, v))
  {
    var r := Put(m, k, v);
    var ks := Keys(r);
    assert forall i :: 0 <= i < |r| ==> ks[i] == r[i].0;
  }

  /** The entries `es` assigned one after the other, the first one first. */
  function PutAll<V>(m: seq<(string, V)>, es: seq<(string, V)>): seq<(string, V)>
  {
    if es == [] then m else Put(PutAll(m, es[..|es| - 1]), es[|es| - 1].0, es[|es| - 1].1)
  }

  /** Applying the entries up to and including `es[i]` is applying those
      before it, then putting `es[i]`. */
  lemma PutAllStep<V>(m: seq<(string, V)>, es: seq<(string, V)>, i: nat)
    requires i < |es|
    ensures PutAll(m, es[..i + 1]) == Put(PutAll(m, es[..i]), es[i].0, es[i].1)
  {
    assert es[..i + 1][..i] == es[..i];
  }

  /** Applying `es` then one more entry is putting that entry last. */
  lemma PutAllSnoc<V>(m: seq<(string, V)>, es: seq<(string, V)>, e: (string, V))
    ensures PutAll(m, es + [e]) == Put(PutAll(m, es), e.0, e.1)
  {
    assert (es + [e])[..|es|] == es;
  }

  /** The value of the last entry of `es` with key `k`. */
  function LastValue<V>(es: seq<(string, V)>, k: string): (r: Option<V>)
    ensures r.None? <==> forall i :: 0 <= i < |es| ==> es[i].0 != k
  {
    if es == [] then None
    else if es[|es| - 1].0 == k then Some(es[|es| - 1].1)
    else LastValue(es[..|es| - 1], k)
  }

  /** `LastValue` is the value of an entry with key `k` after which no entry has key `k`. */
  lemma {:induction false} LastValueIsLast<V>(es: seq<(string, V)>, k: string)
    requires LastValue(es, k).Some?
    ensures exists i :: 0 <= i < |es| && es[i] == (k, LastValue(es, k).value)
                          && forall j :: i < j < |es| ==> es[j].0 != k
  {
    var n := |es| - 1;
    if es[n].0 == k {
      assert es[n] == (k, LastValue(es, k).value);
    } else {
      var init := es[..n];
      LastValueIsLast(init, k);
      var i :| 0 <= i < n && init[i] == (k, LastValue(init, k).value)
                && forall j :: i < j < n ==> init[j].0 != k;
      assert es[i] == init[i];
      assert forall j :: i < j < |es| ==> es[j].0 != k by {
        forall j | i < j < |es| ensures es[j].0 != k {
          if j < n { assert es[j] == init[j]; }
        }
      }
    }
  }

  /** With unique keys, the last entry for a key is its only entry. */
  lemma {:induction false} LastValueUnique<V>(es: seq<(string, V)>, k: string)
    requires UniqueKeys(es)
    ensures LastValue(es, k) == Get(es, k)
  {
    if LastValue(es, k).Some? {
      LastValueIsLast(es, k);
      var i :| 0 <= i < |es| && es[i] == (k, LastValue(es, k).value);
      var j :| 0 <= j < |es| && es[j] == (k, Get(es, k).value);
      assert i == j;
    }
  }

  /** Last write wins: after assigning `es`, a key holds the value of its last
      entry in `es`, and a key `es` does not mention keeps its old value. */
  lemma {:induction false} PutAllGet<V>(m: seq<(string, V)>, es: seq<(string, V)>, k: string)
    ensures Get(PutAll(m, es), k) == match LastValue(es, k)
                                     case Some(v) => Some(v)
                                     case None => Get(m, k)
  {
    if es != [] {
      var init := es[..|es| - 1];
      PutAllGet(m, init, k);
      PutGet(PutAll(m, init), es[|es| - 1].0, es[|es| - 1].1, k);
    }
  }

  /** The last value of `k` in `a + b` comes from `b` when `b` mentions `k`. */
  lemma {:induction false} LastValueAppend<V>(a: seq<(string, V)>, b: seq<(string, V)>, k: string)
    ensures LastValue(a + b, k) == if LastValue(b, k).Some? then LastValue(b, k) else LastValue(a, k)
    decreases |b|
  {
    if b == [] {
      assert a + b == a;
    } else {
      assert (a + b)[..|a + b| - 1] == a + b[..|b| - 1];
      LastValueAppend(a, b[..|b| - 1], k);
    }
  }

  lemma {:induction false} PutAllUnique<V>(m: seq<(string, V)>, es: seq<(string, V)>)
    requires UniqueKeys(m)
    ensures UniqueKeys(PutAll(m, es))
  {
    if es != [] {
      PutAllUnique(m, es[..|es| - 1]);
      PutUnique(PutAll(m, es[..|es| - 1]), es[|es| - 1].0, es[|es| - 1].1);
    }
  }

  /** `Object.assign(target, source)`: the source's entries assigned in order. */
  function Assign<V>(target: seq<(string, V)>, source: seq<(string, V)>): (r: seq<(string, V)>)
    requires UniqueKeys(source)
    ensures forall k :: Get(r, k) == if Get(source, k).Some? then Get(source, k) else Get(target, k)
  {
    var r := PutAll(target, source);
    forall k ensures Get(r, k) == if Get(source, k).Some? then Get(source, k) else Get(target, k) {
      PutAllGet(target, source, k);
      LastValueUnique(source, k);
    }
    r
  }
}
