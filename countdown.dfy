/** The countdown label: once a second it shows the days, hours, minutes and
    seconds left until `target`, and once the target has passed it shows the
    `done` text and stops. The timer itself is not modelled: a run is the
    sequence of differences `target - now` read at each tick. */
module Countdown {
  import opened Wrappers
  import opened JsText
  import opened JsNumber
  import opened AwardData

  const MsPerSecond: int := 1000
  const MsPerMinute: int := 60000
  const MsPerHour: int := 3600000
  const MsPerDay: int := 86400000

  /** The four displayed quantities. */
  datatype Parts = Parts(d: int, h: int, m: int, s: int)

  /** The milliseconds that the displayed quantities account for. */
  function Covered(p: Parts): int {
    p.d * MsPerDay + p.h * MsPerHour + p.m * MsPerMinute + p.s * MsPerSecond
  }

  /** Hours below a day, minutes and seconds below sixty, and the whole
      displayed time within the second below `diff`. */
  predicate Decomposes(p: Parts, diff: int) {
    && p.d >= 0 && 0 <= p.h < 24 && 0 <= p.m < 60 && 0 <= p.s < 60
    && Covered(p) <= diff < Covered(p) + MsPerSecond
  }

  /** `Math.floor(diff / 86400000)`, `Math.floor(diff / 3600000) % 24`,
      `Math.floor(diff / 60000) % 60` and `Math.floor(diff / 1000) % 60` for a
      positive difference (where floor division and JavaScript's `%` agree
      with Dafny's). */
  function PartsOf(diff: int): (p: Parts)
    requires diff > 0
    ensures Decomposes(p, diff)
  {
    var p := Parts(diff / MsPerDay, (diff / MsPerHour) % 24, (diff / MsPerMinute) % 60, (diff / MsPerSecond) % 60);
    PartsCover(diff);
    p
  }

  /** Each coarser unit is the next finer one divided by its ratio. */
  lemma PartsCover(diff: int)
    requires diff > 0
    ensures var p := Parts(diff / MsPerDay, (diff / MsPerHour) % 24, (diff / MsPerMinute) % 60, (diff / MsPerSecond) % 60);
            Covered(p) <= diff < Covered(p) + MsPerSecond
  {
    var secs := diff / 1000;
    var mins := diff / 60000;
    var hours := diff / 3600000;
    var days := diff / 86400000;
    DivDiv(diff);
    assert diff == 1000 * secs + diff % 1000;
    assert secs == 60 * mins + secs % 60;
    assert mins == 60 * hours + mins % 60;
    assert hours == 24 * days + hours % 24;
  }

  /** Dividing by `a` and then by `b` is dividing by `a * b`, for the three
      unit ratios of the label. */
  lemma DivDiv(x: int)
    requires x >= 0
    ensures (x / 1000) / 60 == x / 60000
    ensures (x / 60000) / 60 == x / 3600000
    ensures (x / 3600000) / 24 == x / 86400000
  {
  }

  /** The decomposition is the only one within those bounds: the label shows
      the one reading of `diff` as days, hours, minutes and seconds. */
  lemma DecomposesUnique(p: Parts, diff: int)
    requires diff > 0 && Decomposes(p, diff)
    ensures p == PartsOf(diff)
  {
    var secs := p.d * 86400 + p.h * 3600 + p.m * 60 + p.s;
    assert Covered(p) == 1000 * secs;
    assert diff / 1000 == secs;
    var mins := p.d * 1440 + p.h * 60 + p.m;
    assert secs == 60 * mins + p.s;
    assert secs / 60 == mins && secs % 60 == p.s;
    var hours := p.d * 24 + p.h;
    assert mins == 60 * hours + p.m;
    assert mins / 60 == hours && mins % 60 == p.m;
    assert hours / 24 == p.d && hours % 24 == p.h;
    DivDiv(diff);
  }

  /** One labelled quantity, such as `"12h"`. */
  function Unit(n: int, u: char): string {
    IntToString(n) + [u]
  }

  /** `` `${d}d ${h}h ${m}m ${s}s` ``. */
  function Format(p: Parts): (r: string)
    ensures Join([Unit(p.d, 'd'), Unit(p.h, 'h'), Unit(p.m, 'm'), Unit(p.s, 's')], ' ') == r
  {
    JoinFour(Unit(p.d, 'd'), Unit(p.h, 'h'), Unit(p.m, 'm'), Unit(p.s, 's'));
    Unit(p.d, 'd') + " " + Unit(p.h, 'h') + " " + Unit(p.m, 'm') + " " + Unit(p.s, 's')
  }

  /** The text splits at its spaces into the four labelled quantities. */
  lemma FormatSplits(p: Parts)
    requires p.d >= 0 && p.h >= 0 && p.m >= 0 && p.s >= 0
    ensures Split(Format(p), ' ') == [Unit(p.d, 'd'), Unit(p.h, 'h'), Unit(p.m, 'm'), Unit(p.s, 's')]
  {
    var parts := [Unit(p.d, 'd'), Unit(p.h, 'h'), Unit(p.m, 'm'), Unit(p.s, 's')];
    UnitHasNoSpace(p.d, 'd');
    UnitHasNoSpace(p.h, 'h');
    UnitHasNoSpace(p.m, 'm');
    UnitHasNoSpace(p.s, 's');
    SplitJoin(parts, ' ');
  }

  /** Joining four pieces puts a space between neighbours. */
  lemma JoinFour(a: string, b: string, c: string, d: string)
    ensures Join([a, b, c, d], ' ') == a + " " + b + " " + c + " " + d
  {
    var parts := [a, b, c, d];
    assert parts[1..] == [b, c, d];
    assert parts[1..][1..] == [c, d];
    assert parts[1..][1..][1..] == [d];
    assert Join([c, d], ' ') == c + " " + d;
    assert Join([b, c, d], ' ') == b + " " + (c + " " + d);
  }

  /** The number in a labelled quantity reads back with `Number` as the
      value displayed. */
  lemma UnitReadsBack(n: int, u: char)
    ensures ParseNumber(Unit(n, u)[..|Unit(n, u)| - 1]) == Some(n)
  {
    assert Unit(n, u)[..|Unit(n, u)| - 1] == IntToString(n);
    ParseIntToString(n);
  }

  /** A labelled non-negative quantity holds no space. */
  lemma UnitHasNoSpace(n: int, u: char)
    requires n >= 0 && u != ' '
    ensures ' ' !in Unit(n, u)
  {
    var t := Unit(n, u);
    forall i | 0 <= i < |t| ensures t[i] != ' ' {
      if i < |t| - 1 {
        assert t[i] == IntToString(n)[i];
      }
    }
  }

  /** `useState(done || "")`. */
  function InitialText(done: Option<string>): (t: string)
    ensures Truthy(done) ==> t == done.value
    ensures !Truthy(done) ==> t == ""
  {
    if Truthy(done) then done.value else ""
  }

  /** `new Date(target).getTime() - Date.now()`; `None` is NaN (an invalid target). */
  function DiffOf(target: string, env: DateEnv, now: int): Option<int> {
    match env.parse(target)
    case None => None
    case Some(t) => Some(t - now)
  }

  /** What the label shows after one tick and whether the interval is cleared. */
  datatype Label = Label(text: string, stopped: bool)

  /** One tick: a difference at most zero shows `done || "Ended"` and clears the
      interval; a positive difference shows the formatted parts; NaN passes both
      tests and every quantity prints as `NaN`. */
  function Tick(diff: Option<int>, done: Option<string>): (l: Label)
    ensures diff.Some? && diff.value <= 0 ==> l.stopped && l.text == (if Truthy(done) then done.value else "Ended")
    ensures diff.Some? && diff.value > 0 ==> !l.stopped && l.text == Format(PartsOf(diff.value))
    ensures diff.None? ==> !l.stopped && l.text == "NaNd NaNh NaNm NaNs"
  {
    match diff
    case None => Label("NaNd NaNh NaNm NaNs", false)
    case Some(v) =>
      if v <= 0 then Label(if Truthy(done) then done.value else "Ended", true)
      else Label(Format(PartsOf(v)), false)
  }

  /** The label after the ticks whose differences are `diffs`, oldest first;
      without a target no interval is started at all. */
  function Run(target: Option<string>, done: Option<string>, diffs: seq<Option<int>>): (r: Label)
    ensures r.stopped ==> Truthy(target) && exists i :: 0 <= i < |diffs| && diffs[i].Some? && diffs[i].value <= 0
  {
    if !Truthy(target) || diffs == [] then Label(InitialText(done), false)
    else
      var before := Run(target, done, diffs[..|diffs| - 1]);
      if before.stopped then
        assert forall i :: 0 <= i < |diffs| - 1 ==> diffs[..|diffs| - 1][i] == diffs[i];
        before
      else Tick(diffs[|diffs| - 1], done)
  }

  /** Without a target the label keeps its initial text whatever happens. */
  lemma NoTargetNeverChanges(target: Option<string>, done: Option<string>, diffs: seq<Option<int>>)
    requires !Truthy(target)
    ensures Run(target, done, diffs) == Label(InitialText(done), false)
  {
  }

  /** Once the target has passed, later ticks change nothing. */
  lemma {:induction false} StoppedStays(target: Option<string>, done: Option<string>, a: seq<Option<int>>, b: seq<Option<int>>)
    requires Run(target, done, a).stopped
    ensures Run(target, done, a + b) == Run(target, done, a)
    decreases |b|
  {
    if b == [] {
      assert a + b == a;
    } else {
      assert (a + b)[..|a + b| - 1] == a + b[..|b| - 1];
      StoppedStays(target, done, a, b[..|b| - 1]);
    }
  }

  /** A stopped label shows `done`, or "Ended" without one. */
  lemma {:induction false} StoppedShowsDone(target: Option<string>, done: Option<string>, diffs: seq<Option<int>>)
    requires Run(target, done, diffs).stopped
    ensures Run(target, done, diffs).text == if Truthy(done) then done.value else "Ended"
    decreases |diffs|
  {
    if Truthy(target) && diffs != [] && Run(target, done, diffs[..|diffs| - 1]).stopped {
      StoppedShowsDone(target, done, diffs[..|diffs| - 1]);
    }
  }
}
