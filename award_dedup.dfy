/** First-wins deduplication of tagged awards on the key
    `normalizeTitle(title) + "_" + <UTC day of field_date>`. Records without
    a title or a date are dropped; an eligible record whose date does not parse
    makes `toISOString` throw, which aborts the whole aggregation.

    The scan is reasoned about for an arbitrary key function `key` (`None`
    standing for a key whose computation throws) and then used with the
    aggregator's own key, `DedupKey`. */
module AwardDedup {
  import opened Wrappers
  import opened JsText
  import opened AwardData
  import opened AwardTitles
  import opened AwardTagging

  /** `a.title && a.field_date`: only such records are considered. */
  predicate Eligible(a: Award) {
    Truthy(a.title) && Truthy(a.fieldDate)
  }

  /** The deduplication key of an eligible record; `None` when its date is
      invalid and `toISOString` would throw. */
  function KeyOf(a: Award, env: DateEnv): (k: Option<string>)
    requires Eligible(a)
    ensures k.None? <==> env.parse(a.fieldDate.value).None?
  {
    match env.parse(a.fieldDate.value)
    case None => None
    case Some(t) => Some(NormalizeTitle(a.title) + "_" + Split(env.toIso(t), 'T')[0])
  }

  /** `KeyOf` as a total function of the record (ineligible records are never keyed). */
  function DedupKey(env: DateEnv): (Award) -> Option<string> {
    (a: Award) => if Eligible(a) then KeyOf(a, env) else None
  }

  /** The key reads only the title and the date, so restamping the id keeps it. */
  lemma KeyOfIgnoresId(a: Award, id: string, env: DateEnv)
    requires Eligible(a)
    ensures Eligible(a.(id := id)) && KeyOf(a.(id := id), env) == KeyOf(a, env)
  {
  }

  /** Every eligible record among the first `n` has a computable key. */
  predicate ValidBefore(s: seq<Award>, n: nat, key: Award -> Option<string>)
    requires n <= |s|
  {
    forall j :: 0 <= j < n && Eligible(s[j]) ==> key(s[j]).Some?
  }

  /** The record at `i` is eligible and no earlier eligible record has its key. */
  predicate FirstOfKey(s: seq<Award>, i: nat, key: Award -> Option<string>)
    requires i < |s|
  {
    Eligible(s[i]) && forall j :: 0 <= j < i && Eligible(s[j]) ==> key(s[j]) != key(s[i])
  }

  /** The positions below `n` that are first of their key, in increasing order. */
  function FirstIndices(s: seq<Award>, n: nat, key: Award -> Option<string>): (r: seq<nat>)
    requires n <= |s|
    ensures forall k :: 0 <= k < |r| ==> r[k] < n && FirstOfKey(s, r[k], key)
    ensures forall k, l :: 0 <= k < l < |r| ==> r[k] < r[l]
    ensures forall i :: 0 <= i < n && FirstOfKey(s, i, key) ==> i in r
    ensures |r| <= n
  {
    if n == 0 then []
    else FirstIndices(s, n - 1, key) + (if FirstOfKey(s, n - 1, key) then [n - 1] else [])
  }

  /** `{ ...a, id: a.view_node || \`award-${idx}\` }`. */
  function Restamp(a: Award, idx: nat): (r: Award)
    ensures r.(id := a.id) == a
  {
    a.(id := IdFor(a.viewNode, idx))
  }

  /** The records at positions `fi`, each restamped with its position. */
  function Pick(s: seq<Award>, fi: seq<nat>): (r: seq<Award>)
    requires forall k :: 0 <= k < |fi| ==> fi[k] < |s|
    ensures |r| == |fi|
  {
    seq(|fi|, k requires 0 <= k < |fi| => Restamp(s[fi[k]], fi[k]))
  }

  /** The keys of the eligible records among the first `n`. */
  ghost function SeenKeys(s: seq<Award>, n: nat, key: Award -> Option<string>): set<string>
    requires n <= |s|
  {
    set j | 0 <= j < n && Eligible(s[j]) && key(s[j]).Some? :: key(s[j]).value
  }

  /** One step of the scan over record `i`, with the keys before it all
      computable: an eligible record without a key makes the run throw;
      otherwise the record is first of its key exactly when its key is unseen,
      and the seen keys grow by its key. */
  lemma ScanStep(s: seq<Award>, i: nat, key: Award -> Option<string>)
    requires i < |s| && ValidBefore(s, i, key)
    ensures Eligible(s[i]) && key(s[i]).None? ==> !ValidBefore(s, |s|, key)
    ensures !(Eligible(s[i]) && key(s[i]).None?) ==> ValidBefore(s, i + 1, key)
    ensures !Eligible(s[i]) ==> !FirstOfKey(s, i, key) && SeenKeys(s, i + 1, key) == SeenKeys(s, i, key)
    ensures Eligible(s[i]) && key(s[i]).Some? ==>
              (FirstOfKey(s, i, key) <==> key(s[i]).value !in SeenKeys(s, i, key))
              && SeenKeys(s, i + 1, key) == SeenKeys(s, i, key) + {key(s[i]).value}
  {
    assert SeenKeys(s, i + 1, key) ==
           SeenKeys(s, i, key) + (if Eligible(s[i]) && key(s[i]).Some? then {key(s[i]).value} else {});
    if Eligible(s[i]) && key(s[i]).Some? {
      var k := key(s[i]).value;
      if k in SeenKeys(s, i, key) {
        var j :| 0 <= j < i && Eligible(s[j]) && key(s[j]).Some? && key(s[j]).value == k;
        assert key(s[j]) == key(s[i]);
      }
    }
  }

  lemma PickStep(s: seq<Award>, i: nat, key: Award -> Option<string>)
    requires i < |s|
    ensures Pick(s, FirstIndices(s, i + 1, key)) ==
            Pick(s, FirstIndices(s, i, key)) + (if FirstOfKey(s, i, key) then [Restamp(s[i], i)] else [])
  {
    var fi := FirstIndices(s, i, key);
    if FirstOfKey(s, i, key) {
      assert Pick(s, fi + [i]) == Pick(s, fi) + [Restamp(s[i], i)];
    } else {
      assert fi + [] == fi;
    }
  }

  /** Every eligible record has a valid date, so the run does not throw. */
  predicate AllDatesValid(s: seq<Award>, env: DateEnv) {
    ValidBefore(s, |s|, DedupKey(env))
  }

  /** `Array.from(uniqueMap.values())` when the run does not throw: the first
      record of each key, in order of first appearance, restamped. */
  function Deduped(s: seq<Award>, env: DateEnv): (r: seq<Award>)
    ensures |r| <= |s|
    ensures forall k :: 0 <= k < |r| ==>
              exists i :: 0 <= i < |s| && FirstOfKey(s, i, DedupKey(env)) && r[k] == Restamp(s[i], i)
  {
    var fi := FirstIndices(s, |s|, DedupKey(env));
    var r := Pick(s, fi);
    assert forall k :: 0 <= k < |r| ==> r[k] == Restamp(s[fi[k]], fi[k]) && FirstOfKey(s, fi[k], DedupKey(env));
    r
  }

  /** The `forEach` that fills `uniqueMap`, for the key function `key`
      (the aggregator passes `DedupKey(env)`): the first record of each key
      wins, in order of first appearance; an eligible record without a key
      aborts the run with a failure. */
  method Dedup(s: seq<Award>, key: Award -> Option<string>) returns (r: Result<seq<Award>>)
    ensures r.Failure? <==> !ValidBefore(s, |s|, key)
    ensures r.Failure? ==> r.error == "RangeError: Invalid time value"
    ensures r.Success? ==> r.value == Pick(s, FirstIndices(s, |s|, key))
  {
    var seen: set<string> := {};
    var out: seq<Award> := [];
    var i := 0;
    while i < |s|
      invariant 0 <= i <= |s|
      invariant ValidBefore(s, i, key)
      invariant seen == SeenKeys(s, i, key)
      invariant out == Pick(s, FirstIndices(s, i, key))
    {
      var a := s[i];
      ScanStep(s, i, key);
      PickStep(s, i, key);
      if Eligible(a) {
        var k := key(a);
        if k.None? {
          return Failure("RangeError: Invalid time value");
        }
        if k.value !in seen {
          seen := seen + {k.value};
          out := out + [a.(id := IdFor(a.viewNode, i))];
        }
      }
      i := i + 1;
    }
    r := Success(out);
  }

  /** Records lacking a title or a date never reach the output. */
  lemma DedupedEligible(s: seq<Award>, env: DateEnv)
    ensures forall k :: 0 <= k < |Deduped(s, env)| ==> Eligible(Deduped(s, env)[k])
  {
    var fi := FirstIndices(s, |s|, DedupKey(env));
    assert forall k :: 0 <= k < |fi| ==> Eligible(s[fi[k]]);
  }

  /** All records are eligible and no two have the same key. */
  predicate KeysDistinct(d: seq<Award>, env: DateEnv) {
    forall k, l :: 0 <= k < l < |d| ==> Eligible(d[k]) && Eligible(d[l]) && KeyOf(d[k], env) != KeyOf(d[l], env)
  }

  /** At most one output per key. */
  lemma DedupedKeysUnique(s: seq<Award>, env: DateEnv)
    ensures KeysDistinct(Deduped(s, env), env)
  {
    var key := DedupKey(env);
    var fi := FirstIndices(s, |s|, key);
    var d := Deduped(s, env);
    forall k, l | 0 <= k < l < |d|
      ensures Eligible(d[k]) && Eligible(d[l]) && KeyOf(d[k], env) != KeyOf(d[l], env)
    {
      var i, j := fi[k], fi[l];
      assert i < j && FirstOfKey(s, j, key) && Eligible(s[i]);
      assert key(s[i]) != key(s[j]);
      KeyOfIgnoresId(s[i], IdFor(s[i].viewNode, i), env);
      KeyOfIgnoresId(s[j], IdFor(s[j].viewNode, j), env);
      assert d[k] == s[i].(id := IdFor(s[i].viewNode, i));
      assert d[l] == s[j].(id := IdFor(s[j].viewNode, j));
    }
    assert KeysDistinct(d, env);
  }

  /** The first eligible record with the key of record `i`. */
  lemma {:induction false} FirstWithKey(s: seq<Award>, i: nat, key: Award -> Option<string>) returns (j: nat)
    requires i < |s| && Eligible(s[i])
    ensures j <= i && FirstOfKey(s, j, key) && key(s[j]) == key(s[i])
    decreases i
  {
    if FirstOfKey(s, i, key) {
      j := i;
    } else {
      var j' :| 0 <= j' < i && Eligible(s[j']) && key(s[j']) == key(s[i]);
      j := FirstWithKey(s, j', key);
    }
  }

  /** Every eligible record is represented: some output is the first record
      with its key, and carries that key. */
  lemma DedupedComplete(s: seq<Award>, i: nat, env: DateEnv) returns (k: nat)
    requires i < |s| && Eligible(s[i])
    ensures k < |Deduped(s, env)|
    ensures exists j :: 0 <= j <= i && FirstOfKey(s, j, DedupKey(env)) && Deduped(s, env)[k] == Restamp(s[j], j)
    ensures Eligible(Deduped(s, env)[k]) && KeyOf(Deduped(s, env)[k], env) == KeyOf(s[i], env)
  {
    var key := DedupKey(env);
    var j := FirstWithKey(s, i, key);
    var fi := FirstIndices(s, |s|, key);
    assert j in fi;
    k :| 0 <= k < |fi| && fi[k] == j;
    KeyOfIgnoresId(s[j], IdFor(s[j].viewNode, j), env);
  }

  /** On tagged records (whose ids already follow their positions) the restamp
      changes nothing: each output is the input record at a first-of-key position. */
  lemma DedupedAreFirsts(s: seq<Award>, env: DateEnv)
    requires IdsByPosition(s)
    ensures forall k :: 0 <= k < |Deduped(s, env)| ==>
              Deduped(s, env)[k] == s[FirstIndices(s, |s|, DedupKey(env))[k]]
  {
  }
}
