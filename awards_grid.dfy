/** The awards table of the dashboard: the awards whose ceremony is still
    ahead, and the text of the submission columns. The current instant `now`
    and the `Date` operations come in as parameters. */
module AwardsGrid {
  import opened Wrappers
  import opened JsText
  import opened AwardData

  /** `new Date(award.field_date) > now`: the ceremony date parses and is later
      than `now` (an invalid date is NaN and compares false). */
  predicate IsUpcoming(a: Award, env: DateEnv, now: int) {
    Timestamp(a, env).Some? && Timestamp(a, env).value > now
  }

  /** `awards.filter(award => new Date(award.field_date) > now)`. */
  function Upcoming(awards: seq<Award>, env: DateEnv, now: int): (r: seq<Award>)
    ensures |r| <= |awards|
    ensures forall a :: a in r ==> a in awards && IsUpcoming(a, env, now)
    ensures forall a :: a in awards && IsUpcoming(a, env, now) ==> a in r
  {
    if awards == [] then []
    else
      var init, last := awards[..|awards| - 1], awards[|awards| - 1];
      assert awards == init + [last];
      Upcoming(init, env, now) + (if IsUpcoming(last, env, now) then [last] else [])
  }

  /** The filter distributes over concatenation: the kept awards stay in input order. */
  lemma {:induction false} UpcomingAppend(a: seq<Award>, b: seq<Award>, env: DateEnv, now: int)
    ensures Upcoming(a + b, env, now) == Upcoming(a, env, now) + Upcoming(b, env, now)
    decreases |b|
  {
    if b == [] {
      assert a + b == a;
    } else {
      var init := b[..|b| - 1];
      assert (a + b)[..|a + b| - 1] == a + init;
      assert b == init + [b[|b| - 1]];
      UpcomingAppend(a, init, env, now);
    }
  }

  /** When every award is upcoming the filter keeps them all, in order. */
  lemma {:induction false} UpcomingAll(awards: seq<Award>, env: DateEnv, now: int)
    requires forall i :: 0 <= i < |awards| ==> IsUpcoming(awards[i], env, now)
    ensures Upcoming(awards, env, now) == awards
    decreases |awards|
  {
    if awards != [] {
      var init := awards[..|awards| - 1];
      UpcomingAll(init, env, now);
      assert awards == init + [awards[|awards| - 1]];
    }
  }

  /** What a submission cell shows: plain text, or a live countdown to `target`
      that shows `done` once the target has passed. */
  datatype Cell = Text(text: string) | CountdownTo(target: string, done: string)

  /** `getSubmissionOpen`: no start date means closed; a start date later than
      now counts down to it, and any other start (past, present or invalid)
      means open. */
  function SubmissionOpen(startDate: Option<string>, env: DateEnv, now: int): (c: Cell)
    ensures !Truthy(startDate) ==> c == Text("Submission Closed")
    ensures Truthy(startDate) && env.parse(startDate.value).Some? && env.parse(startDate.value).value > now
            ==> c == CountdownTo(startDate.value, "Submission Open")
    ensures Truthy(startDate) && !(env.parse(startDate.value).Some? && env.parse(startDate.value).value > now)
            ==> c == Text("Submission Open")
  {
    if !Truthy(startDate) then Text("Submission Closed")
    else
      var start := env.parse(startDate.value);
      if start.Some? && start.value > now then CountdownTo(startDate.value, "Submission Open")
      else Text("Submission Open")
  }

  /** `getSubmissionClose`: no end date means closed; an end date later than
      now counts down to it; any other end means closed. */
  function SubmissionClose(endDate: Option<string>, env: DateEnv, now: int): (c: Cell)
    ensures !Truthy(endDate) ==> c == Text("Submission Closed")
    ensures Truthy(endDate) && env.parse(endDate.value).Some? && env.parse(endDate.value).value > now
            ==> c == CountdownTo(endDate.value, "Submission Closed")
    ensures Truthy(endDate) && !(env.parse(endDate.value).Some? && env.parse(endDate.value).value > now)
            ==> c == Text("Submission Closed")
  {
    if !Truthy(endDate) then Text("Submission Closed")
    else
      var end := env.parse(endDate.value);
      if end.Some? && end.value > now then CountdownTo(endDate.value, "Submission Closed")
      else Text("Submission Closed")
  }

  /** The text a cell settles on once its countdown, if any, has ended. */
  function Settled(c: Cell): string {
    match c
    case Text(t) => t
    case CountdownTo(_, d) => d
  }

  /** The closing column never settles on anything but "Submission Closed",
      and the opening column settles on "Submission Open" exactly when a start
      date is given. */
  lemma SubmissionSettles(startDate: Option<string>, endDate: Option<string>, env: DateEnv, now: int)
    ensures Settled(SubmissionClose(endDate, env, now)) == "Submission Closed"
    ensures Settled(SubmissionOpen(startDate, env, now)) == "Submission Open" <==> Truthy(startDate)
  {
    assert "Submission Closed" != "Submission Open";
  }

  /** `formatDate`: `""` for a missing or empty date, otherwise the locale date
      of `new Date(dateStr)` (`display` receives `None` for an invalid date). */
  function FormatDate(dateStr: Option<string>, env: DateEnv, display: Option<int> -> string): (r: string)
    ensures !Truthy(dateStr) ==> r == ""
  {
    if !Truthy(dateStr) then "" else display(env.parse(dateStr.value))
  }
}
