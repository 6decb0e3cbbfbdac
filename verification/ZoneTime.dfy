/** Wall-clock times and due instants of scheduled tasks (app/scheduled-tasks.js:67-76,
    160-186).

    Instants and local times are milliseconds; a zone is the offset in force at each
    instant; a date is a day number counted from 1970-01-01. */
module ZoneTime {
  import opened Options

  const MINUTE: int := 60000
  const DAY: int := 86400000

  type Zone = int -> int

  /** Offsets are whole minutes of less than a day. */
  ghost predicate Zoned(off: Zone) {
    forall t :: -DAY < off(t) < DAY && off(t) % MINUTE == 0
  }

  function Local(off: Zone, t: int): int {
    t + off(t)
  }

  /** What the clock on the wall shows, without seconds. */
  function Rendered(off: Zone, t: int): int {
    Local(off, t) / MINUTE * MINUTE
  }

  function LocalDay(off: Zone, t: int): int {
    Local(off, t) / DAY
  }

  function Pass(off: Zone, asUtc: int, guess: int): int {
    guess + (asUtc - Rendered(off, guess))
  }

  function InstantFor(off: Zone, asUtc: int): int {
    Pass(off, asUtc, Pass(off, asUtc, asUtc))
  }

  method InstantForLocal(off: Zone, day: int, minute: int) returns (guess: int)
    ensures guess == InstantFor(off, day * DAY + minute * MINUTE)
  {
    var asUtc := day * DAY + minute * MINUTE;
    guess := asUtc;
    for pass := 0 to 2
      invariant guess == if pass == 0 then asUtc else if pass == 1 then Pass(off, asUtc, asUtc) else InstantFor(off, asUtc)
    {
      var rendered := Rendered(off, guess);
      guess := guess + (asUtc - rendered);
    }
  }

  lemma WholeMinutes(a: int, b: int)
    requires a % MINUTE == 0 && b % MINUTE == 0
    ensures (a + b) % MINUTE == 0 && (a - b) % MINUTE == 0 && (a + b) / MINUTE * MINUTE == a + b
  {
  }

  /** On whole minutes a pass subtracts the offset of its guess. */
  lemma PassIs(off: Zone, asUtc: int, guess: int)
    requires Zoned(off) && asUtc % MINUTE == 0 && guess % MINUTE == 0
    ensures Pass(off, asUtc, guess) == asUtc - off(guess) && Pass(off, asUtc, guess) % MINUTE == 0
  {
    WholeMinutes(guess, off(guess));
    WholeMinutes(asUtc, off(guess));
  }

  // ---------------------------------------------------------------- two passes

  /** Within a day of `asUtc` the offset changes at most once, at `change`. */
  ghost predicate OneChangeNear(off: Zone, asUtc: int, change: int, before: int, after: int) {
    forall t :: asUtc - DAY < t < asUtc + DAY ==> off(t) == if t < change then before else after
  }

  ghost predicate Exists(off: Zone, asUtc: int) {
    exists t :: t % MINUTE == 0 && Rendered(off, t) == asUtc
  }

  /** The local times skipped when the clock goes forward. */
  predicate InGap(asUtc: int, change: int, before: int, after: int) {
    change + before <= asUtc < change + after
  }

  lemma ExistsIffNoGap(off: Zone, asUtc: int, change: int, before: int, after: int)
    requires Zoned(off) && asUtc % MINUTE == 0
    requires -DAY < before < DAY && -DAY < after < DAY && before % MINUTE == 0 && after % MINUTE == 0
    requires OneChangeNear(off, asUtc, change, before, after)
    ensures Exists(off, asUtc) <==> !InGap(asUtc, change, before, after)
  {
    if Exists(off, asUtc) {
      var t :| t % MINUTE == 0 && Rendered(off, t) == asUtc;
      WholeMinutes(t, off(t));
      assert t == asUtc - off(t);
    }
    if !InGap(asUtc, change, before, after) {
      var t := if asUtc < change + before then asUtc - before else asUtc - after;
      WholeMinutes(asUtc, before);
      WholeMinutes(asUtc, after);
      WholeMinutes(t, off(t));
      assert Rendered(off, t) == asUtc;
    }
  }

  /** Two passes find an instant at which the clock shows the wanted time whenever there
      is one. */
  lemma TwoPassesFindIt(off: Zone, asUtc: int, change: int, before: int, after: int)
    requires Zoned(off) && asUtc % MINUTE == 0
    requires -DAY < before < DAY && -DAY < after < DAY && before % MINUTE == 0 && after % MINUTE == 0
    requires OneChangeNear(off, asUtc, change, before, after)
    ensures Rendered(off, InstantFor(off, asUtc)) == asUtc <==> Exists(off, asUtc)
  {
    TwoPassesAre(off, asUtc);
    ExistsIffNoGap(off, asUtc, change, before, after);
    var t := InstantFor(off, asUtc);
    WholeMinutes(t, off(t));
    assert Rendered(off, t) == t + off(t);
  }

  /** A third pass changes nothing exactly when the wanted time exists. */
  lemma ThirdPassIff(off: Zone, asUtc: int, change: int, before: int, after: int)
    requires Zoned(off) && asUtc % MINUTE == 0
    requires -DAY < before < DAY && -DAY < after < DAY && before % MINUTE == 0 && after % MINUTE == 0
    requires OneChangeNear(off, asUtc, change, before, after)
    ensures Pass(off, asUtc, InstantFor(off, asUtc)) == InstantFor(off, asUtc) <==> Exists(off, asUtc)
  {
    TwoPassesFindIt(off, asUtc, change, before, after);
  }

  lemma TwoPassesAre(off: Zone, asUtc: int)
    requires Zoned(off) && asUtc % MINUTE == 0
    ensures InstantFor(off, asUtc) == asUtc - off(asUtc - off(asUtc)) && InstantFor(off, asUtc) % MINUTE == 0
  {
    PassIs(off, asUtc, asUtc);
    PassIs(off, asUtc, asUtc - off(asUtc));
  }

  /** Inside the gap the passes never settle: they alternate between the two sides. */
  lemma GapAlternates(off: Zone, asUtc: int, change: int, before: int, after: int)
    requires Zoned(off) && asUtc % MINUTE == 0
    requires -DAY < before < DAY && -DAY < after < DAY && before % MINUTE == 0 && after % MINUTE == 0
    requires OneChangeNear(off, asUtc, change, before, after) && InGap(asUtc, change, before, after)
    ensures Pass(off, asUtc, InstantFor(off, asUtc)) == Pass(off, asUtc, asUtc) != InstantFor(off, asUtc)
  {
    TwoPassesAre(off, asUtc);
    PassIs(off, asUtc, asUtc);
    PassIs(off, asUtc, InstantFor(off, asUtc));
  }

  /** New York, 10 March 2024, 02:30 local, in the hour the clocks skip. */
  lemma ThirdPassMayMove()
    ensures exists off: Zone, asUtc: int :: Zoned(off) && asUtc % MINUTE == 0 && Pass(off, asUtc, InstantFor(off, asUtc)) != InstantFor(off, asUtc)
  {
    var change, before, after := 1710054000000, -300 * MINUTE, -240 * MINUTE;
    var off: Zone := t => if t < change then before else after;
    var asUtc := change - 270 * MINUTE;
    GapAlternates(off, asUtc, change, before, after);
    assert Pass(off, asUtc, InstantFor(off, asUtc)) != InstantFor(off, asUtc);
  }

  /** The two sides of the change a single pass gets wrong: it is right exactly when the
      offset it guessed is the one in force at its answer. */
  lemma OnePassIff(off: Zone, asUtc: int)
    requires Zoned(off) && asUtc % MINUTE == 0
    ensures Rendered(off, Pass(off, asUtc, asUtc)) == asUtc <==> off(asUtc - off(asUtc)) == off(asUtc)
  {
    PassIs(off, asUtc, asUtc);
    WholeMinutes(asUtc - off(asUtc), off(asUtc - off(asUtc)));
  }

  // ---------------------------------------------------------------- due instants

  datatype Schedule = Interval(everyMinutes: nat) | Daily(at: int, weekdaysOnly: bool)

  datatype Task = Task(enabled: bool, schedule: Schedule, lastRun: Option<int>)

  function Due(off: Zone, day: int, at: int): int {
    InstantFor(off, day * DAY + at * MINUTE)
  }

  /** 1970-01-01 was a Thursday; Sunday is 0. */
  function Weekday(day: int): int {
    (day + 4) % 7
  }

  predicate Weekend(day: int) {
    Weekday(day) == 0 || Weekday(day) == 6
  }

  /** The instant the task is due for, if it is due now. */
  function EvaluateDue(off: Zone, task: Task, now: int): Option<int> {
    if !task.enabled then None
    else
      match task.schedule
      case Interval(every) =>
        if task.lastRun.None? || now - task.lastRun.value >= every * MINUTE then Some(now) else None
      case Daily(at, weekdaysOnly) =>
        var todayDue := Due(off, LocalDay(off, now), at);
        if now < todayDue then None
        else if weekdaysOnly && Weekend(LocalDay(off, todayDue)) then None
        else if task.lastRun.Some? && task.lastRun.value >= todayDue then None
        else Some(todayDue)
  }

  /** One firing: the local date it was for, and what was recorded as `lastRun`. */
  datatype Firing = Firing(day: int, dueAt: int)

  function LastRun(task: Task, fired: seq<Firing>): Option<int> {
    if fired == [] then task.lastRun else Some(fired[|fired| - 1].dueAt)
  }

  /** The task evaluated at a series of instants, in any order; `dueAt` is recorded. */
  function Fired(off: Zone, task: Task, nows: seq<int>): seq<Firing> {
    if nows == [] then []
    else
      var before := Fired(off, task, nows[..|nows| - 1]);
      var now := nows[|nows| - 1];
      var due := EvaluateDue(off, task.(lastRun := LastRun(task, before)), now);
      if due.Some? then before + [Firing(LocalDay(off, now), due.value)] else before
  }

  ghost predicate Increasing(fs: seq<Firing>) {
    forall i, j :: 0 <= i < j < |fs| ==> fs[i].dueAt < fs[j].dueAt
  }

  ghost predicate DueForDay(off: Zone, at: int, fs: seq<Firing>) {
    forall i :: 0 <= i < |fs| ==> fs[i].dueAt == Due(off, fs[i].day, at)
  }

  /** Whatever the clock does, the recorded instants of a daily task strictly increase. */
  lemma {:induction false} DuesIncrease(off: Zone, task: Task, nows: seq<int>)
    requires task.schedule.Daily?
    ensures Increasing(Fired(off, task, nows)) && DueForDay(off, task.schedule.at, Fired(off, task, nows))
  {
    hide Due, LocalDay;
    if nows != [] {
      DuesIncrease(off, task, nows[..|nows| - 1]);
      var before, fs := Fired(off, task, nows[..|nows| - 1]), Fired(off, task, nows);
      forall i, j | 0 <= i < j < |fs| ensures fs[i].dueAt < fs[j].dueAt {
        if j == |before| && i < |before| - 1 { assert before[i].dueAt < before[|before| - 1].dueAt; }
      }
    }
  }

  /** No local date is fired for twice. */
  lemma EachDateOnce(off: Zone, task: Task, nows: seq<int>)
    requires task.schedule.Daily?
    ensures forall i, j :: 0 <= i < j < |Fired(off, task, nows)| ==> Fired(off, task, nows)[i].day != Fired(off, task, nows)[j].day
  {
    hide Fired, Due;
    DuesIncrease(off, task, nows);
  }

  /** The zone's offsets lie within one day of each other (no change of the date line). */
  ghost predicate SameSide(off: Zone) {
    forall s, t :: off(s) - off(t) < DAY
  }

  lemma DueGrows(off: Zone, d: int, e: int, at: int)
    requires Zoned(off) && SameSide(off) && d < e
    ensures Due(off, d, at) < Due(off, e, at)
  {
    var x, y := d * DAY + at * MINUTE, e * DAY + at * MINUTE;
    assert x % MINUTE == 0 && y % MINUTE == 0 by { DayIsMinutes(d, at); DayIsMinutes(e, at); }
    TwoPassesAre(off, x);
    TwoPassesAre(off, y);
    assert off(y - off(y)) - off(x - off(x)) < DAY;
    assert y - x >= DAY;
  }

  lemma DayIsMinutes(d: int, at: int)
    ensures (d * DAY + at * MINUTE) % MINUTE == 0
  {
    assert d * DAY + at * MINUTE == (d * 1440 + at) * MINUTE;
    MultipleOfMinute(d * 1440 + at);
  }

  lemma MultipleOfMinute(k: int)
    ensures (k * MINUTE) % MINUTE == 0
  {
  }

  /** Every firing is for an instant after the one the task was recorded to have run for. */
  lemma {:induction false} FiringsAreNewer(off: Zone, task: Task, nows: seq<int>)
    requires task.schedule.Daily? && task.lastRun.Some?
    ensures forall i :: 0 <= i < |Fired(off, task, nows)| ==> Fired(off, task, nows)[i].dueAt > task.lastRun.value
  {
    hide Due, LocalDay;
    if nows != [] { FiringsAreNewer(off, task, nows[..|nows| - 1]); }
  }

  lemma DailyDue(off: Zone, task: Task, now: int)
    requires task.schedule.Daily?
    ensures var due := InstantFor(off, (now + off(now)) / 86400000 * 86400000 + task.schedule.at * 60000);
            EvaluateDue(off, task, now) ==
              if task.enabled && due <= now && (task.lastRun.Some? ==> task.lastRun.value < due) &&
                 !(task.schedule.weekdaysOnly && ((due + off(due)) / 86400000) % 7 in {2, 3})
              then Some(due) else None
  {
    hide InstantFor;
    var due := InstantFor(off, (now + off(now)) / 86400000 * 86400000 + task.schedule.at * 60000);
    Sevens((due + off(due)) / 86400000);
  }

  lemma Sevens(day: int)
    ensures Weekend(day) <==> day % 7 in {2, 3}
  {
  }

  /** An evaluation of an interval task fires, now, exactly when the task is enabled and
      either nothing is on record or the interval has passed since. */
  lemma IntervalFiresIff(off: Zone, task: Task, nows: seq<int>, now: int)
    requires task.schedule.Interval?
    ensures var fs, more := Fired(off, task, nows), Fired(off, task, nows + [now]);
            var due := task.enabled &&
              if fs != [] then now - fs[|fs| - 1].dueAt >= task.schedule.everyMinutes * 60000
              else task.lastRun.None? || now - task.lastRun.value >= task.schedule.everyMinutes * 60000;
            && (|more| > |fs| <==> due)
            && more == if due then fs + [Firing((now + off(now)) / 86400000, now)] else fs
  {
    hide Fired;
    FiredPush(off, task, nows, now);
  }

  /** What a daily task records renders, in its zone, to its date at its minute, whenever
      there is such an instant and the offset changes at most once around it. */
  lemma DailyRenders(off: Zone, task: Task, nows: seq<int>, i: nat, change: int, before: int, after: int)
    requires Zoned(off) && task.schedule.Daily? && i < |Fired(off, task, nows)|
    requires -DAY < before < DAY && -DAY < after < DAY && before % MINUTE == 0 && after % MINUTE == 0
    requires OneChangeNear(off, Fired(off, task, nows)[i].day * 86400000 + task.schedule.at * 60000, change, before, after)
    ensures var f := Fired(off, task, nows)[i];
            var wanted := f.day * 86400000 + task.schedule.at * 60000;
            (exists t :: t % 60000 == 0 && t + off(t) == wanted) ==> f.dueAt + off(f.dueAt) == wanted
  {
    hide Fired, LocalDay;
    DuesIncrease(off, task, nows);
    var f := Fired(off, task, nows)[i];
    var wanted := f.day * DAY + task.schedule.at * MINUTE;
    DayIsMinutes(f.day, task.schedule.at);
    TwoPassesFindIt(off, wanted, change, before, after);
    TwoPassesAre(off, wanted);
    WholeMinutes(f.dueAt, off(f.dueAt));
    forall t | t % 60000 == 0 && t + off(t) == wanted ensures Exists(off, wanted) {
      WholeMinutes(t, off(t));
      assert Rendered(off, t) == wanted;
    }
  }

  /** The date recorded is that of the evaluation. */
  lemma FiredToday(off: Zone, task: Task, nows: seq<int>, now: int)
    ensures var fs, more := Fired(off, task, nows), Fired(off, task, nows + [now]);
            more == fs || (|more| == |fs| + 1 && more[..|fs|] == fs && more[|fs|].day == (now + off(now)) / 86400000)
  {
    hide Fired;
    FiredPush(off, task, nows, now);
  }

  /** In any zone: once a date's time has come, an evaluation on that date fires unless the
      task is disabled, it is a Saturday or Sunday that is excluded (the day numbered 0 is a
      Thursday), or the record or an earlier firing says it ran for that instant or a later
      one. */
  lemma FiresIffOwed(off: Zone, task: Task, nows: seq<int>, now: int)
    requires task.schedule.Daily?
    ensures var fs := Fired(off, task, nows);
            var due := InstantFor(off, (now + off(now)) / 86400000 * 86400000 + task.schedule.at * 60000);
            |Fired(off, task, nows + [now])| > |fs| <==>
              && task.enabled && due <= now
              && (task.lastRun.Some? ==> task.lastRun.value < due)
              && !(task.schedule.weekdaysOnly && ((due + off(due)) / 86400000) % 7 in {2, 3})
              && (forall i :: 0 <= i < |fs| ==> fs[i].dueAt < due)
  {
    hide Fired, InstantFor, EvaluateDue;
    DailyDue(off, task.(lastRun := LastRun(task, Fired(off, task, nows))), now);
    if task.lastRun.Some? { FiringsAreNewer(off, task, nows); }
    var fs := Fired(off, task, nows);
    DuesIncrease(off, task, nows);
    FiredPush(off, task, nows, now);
    assert forall i :: 0 <= i < |fs| ==> fs[i].dueAt <= fs[|fs| - 1].dueAt;
  }

  /** Unless the zone moves across the date line, firings for earlier instants are those for
      earlier dates: what counts is whether that date or a later one has been fired for. */
  lemma FiredByDate(off: Zone, task: Task, nows: seq<int>, day: int)
    requires Zoned(off) && SameSide(off) && task.schedule.Daily?
    ensures var fs := Fired(off, task, nows);
            forall i :: 0 <= i < |fs| ==> (fs[i].dueAt < Due(off, day, task.schedule.at) <==> fs[i].day < day)
  {
    hide Due, LocalDay, Zoned, SameSide, Fired;
    var fs := Fired(off, task, nows);
    DuesIncrease(off, task, nows);
    forall i | 0 <= i < |fs| ensures fs[i].day < day <==> fs[i].dueAt < Due(off, day, task.schedule.at) {
      if fs[i].day < day { DueGrows(off, fs[i].day, day, task.schedule.at); }
      if fs[i].day > day { DueGrows(off, day, fs[i].day, task.schedule.at); }
    }
  }

  lemma FiredPush(off: Zone, task: Task, nows: seq<int>, now: int)
    ensures Fired(off, task, nows + [now]) ==
            var before := Fired(off, task, nows);
            var due := EvaluateDue(off, task.(lastRun := LastRun(task, before)), now);
            if due.Some? then before + [Firing(LocalDay(off, now), due.value)] else before
  {
    hide EvaluateDue, LocalDay;
    assert (nows + [now])[..|nows|] == nows;
  }

  /** Two firings of an interval task are at least the interval apart. */
  lemma {:induction false} IntervalsApart(off: Zone, task: Task, nows: seq<int>, i: nat)
    requires task.schedule.Interval? && i + 1 < |Fired(off, task, nows)|
    ensures Fired(off, task, nows)[i + 1].dueAt - Fired(off, task, nows)[i].dueAt >= task.schedule.everyMinutes * MINUTE
  {
    hide LocalDay;
    var before := Fired(off, task, nows[..|nows| - 1]);
    if i + 1 < |before| { IntervalsApart(off, task, nows[..|nows| - 1], i); }
  }
}
