/** The countdown panel: of the awards whose ceremony is still ahead, the one
    with the earliest ceremony date, sorted out of a filtered copy so that the
    caller's list keeps its order. */
module AwardCountdown {
  import opened Wrappers
  import opened AwardData
  import opened StableSort
  import opened AwardsGrid

  /** `awards.filter(upcoming).sort(byDate).slice(0, 1)`. */
  function NextAward(awards: seq<Award>, env: DateEnv, now: int): (r: seq<Award>)
    ensures |r| <= 1
  {
    var sorted := Sort(Upcoming(awards, env, now), ByDate(env));
    if |sorted| <= 1 then sorted else sorted[..1]
  }

  /** At most one award is shown; it is one of the upcoming awards, and one is
      shown exactly when some award is upcoming. */
  lemma NextAwardIsUpcoming(awards: seq<Award>, env: DateEnv, now: int)
    ensures forall a :: a in NextAward(awards, env, now) ==> a in awards && IsUpcoming(a, env, now)
    ensures |NextAward(awards, env, now)| == 1 <==> exists a :: a in awards && IsUpcoming(a, env, now)
  {
    var u := Upcoming(awards, env, now);
    SortPermutes(u, ByDate(env));
    var sorted := Sort(u, ByDate(env));
    forall a | a in NextAward(awards, env, now) ensures a in u {
      assert a in multiset(sorted);
    }
    if a :| a in awards && IsUpcoming(a, env, now) {
      assert a in u;
      assert |sorted| > 0;
    }
    if |NextAward(awards, env, now)| == 1 {
      var a := NextAward(awards, env, now)[0];
      assert a in NextAward(awards, env, now);
      assert a in awards && IsUpcoming(a, env, now);
    }
  }

  /** The award shown has the earliest ceremony among the upcoming awards. */
  lemma NextAwardEarliest(awards: seq<Award>, env: DateEnv, now: int, b: Award)
    requires b in awards && IsUpcoming(b, env, now)
    ensures |NextAward(awards, env, now)| == 1
    ensures TimeKey(env)(NextAward(awards, env, now)[0]) <= TimeKey(env)(b)
  {
    var u := Upcoming(awards, env, now);
    var sorted := Sort(u, ByDate(env));
    NextAwardIsUpcoming(awards, env, now);
    UpcomingAgrees(awards, env, now);
    SortSorted(u, ByDate(env), TimeKey(env));
    SortPermutes(u, ByDate(env));
    assert b in multiset(sorted);
    FirstIsLeast(sorted, TimeKey(env), b);
  }

  /** On the upcoming awards every date parses, so the comparator orders by
      timestamp. */
  lemma UpcomingAgrees(awards: seq<Award>, env: DateEnv, now: int)
    ensures Agrees(ByDate(env), TimeKey(env), Upcoming(awards, env, now))
  {
    var u := Upcoming(awards, env, now);
    assert forall i :: 0 <= i < |u| ==> Timestamp(u[i], env).Some? by {
      forall i | 0 <= i < |u| ensures Timestamp(u[i], env).Some? {
        assert u[i] in u;
      }
    }
    ByDateAgrees(u, env);
  }

  /** The head of a sorted sequence has the least key. */
  lemma FirstIsLeast<T>(s: seq<T>, key: T -> int, x: T)
    requires SortedBy(s, key) && x in s
    ensures key(s[0]) <= key(x)
  {
    var j :| 0 <= j < |s| && s[j] == x;
    if j > 0 {
      assert key(s[0]) <= key(s[j]);
    }
  }

  /** Among upcoming awards that share the earliest date, the one shown is the
      first of them in the input: the sort is stable. */
  lemma NextAwardFirstOfTies(awards: seq<Award>, env: DateEnv, now: int)
    requires NextAward(awards, env, now) != []
    ensures var shown := NextAward(awards, env, now)[0];
            var ties := WithKey(Upcoming(awards, env, now), TimeKey(env), TimeKey(env)(shown));
            ties != [] && shown == ties[0]
  {
    var u := Upcoming(awards, env, now);
    var sorted := Sort(u, ByDate(env));
    var shown := sorted[0];
    var t := TimeKey(env)(shown);
    UpcomingAgrees(awards, env, now);
    SortStable(u, ByDate(env), TimeKey(env), t);
    WithKeyFirst(sorted, TimeKey(env));
  }

  /** The elements with the first element's key start with that element. */
  lemma {:induction false} WithKeyFirst<T>(s: seq<T>, key: T -> int)
    requires s != []
    ensures WithKey(s, key, key(s[0])) != [] && WithKey(s, key, key(s[0]))[0] == s[0]
    decreases |s|
  {
    if |s| > 1 {
      WithKeyFirst(s[..|s| - 1], key);
    }
  }
}
