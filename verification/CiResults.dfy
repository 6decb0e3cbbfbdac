/** The queue between "GitHub finished a run" and "the session heard" (app/ci-results.js,
    createCiResults).  `receive` awaits its save and `tick` awaits each delivery, so other
    receives and ticks run in between; each function below is one stretch without an await. */
module CiResults {
  import opened Options

  const RETRY_CAP: nat := 3
  const SEEN_LIMIT: nat := 2000

  datatype Conclusion = Failure | TimedOut | StartupFailure | Success

  predicate Failed(c: Conclusion) {
    c != Success
  }

  datatype Lane = Lane(session: string, windowId: string, repo: string, branch: string, workflow: string)

  datatype RunId = RunId(runId: int, attempt: int)

  datatype CiRun = CiRun(lane: Lane, id: RunId, conclusion: Conclusion)

  /** A queued result.  `uid` stands for the identity of the queued object. */
  datatype Item = Item(uid: nat, run: CiRun, streak: nat, receivedAt: int)

  /** `seen` is a JavaScript array whose length may be set: a missing element is None. */
  datatype Ci = Ci(queue: seq<Item>, streaks: map<Lane, nat>, seen: seq<Option<RunId>>, nextUid: nat)

  const EMPTY := Ci([], map[], [], 0)

  // ---------------------------------------------------------------- receive

  /** What a failed save puts back. */
  datatype Before = Before(queue: seq<Item>, streak: Option<nat>, seen: nat)

  function Streak(s: Ci, lane: Lane): nat {
    if lane in s.streaks then s.streaks[lane] else 0
  }

  function WithoutLane(q: seq<Item>, lane: Lane): seq<Item> {
    if q == [] then []
    else if q[0].run.lane == lane then WithoutLane(q[1..], lane)
    else [q[0]] + WithoutLane(q[1..], lane)
  }

  function NewStreak(s: Ci, run: CiRun): nat {
    if Failed(run.conclusion) then Streak(s, run.lane) + 1 else 0
  }

  predicate Over(s: Ci, run: CiRun, cap: nat) {
    Failed(run.conclusion) && NewStreak(s, run) > cap
  }

  function Snapshot(s: Ci, lane: Lane): Before {
    Before(s.queue, if lane in s.streaks then Some(s.streaks[lane]) else None, |s.seen|)
  }

  /** From the acceptance of a result to the save. */
  function Begin(s: Ci, run: CiRun, now: int, cap: nat): Ci {
    var kept := WithoutLane(s.queue, run.lane);
    Ci(if Over(s, run, cap) then kept else kept + [Item(s.nextUid, run, NewStreak(s, run), now)],
       if Failed(run.conclusion) then s.streaks[run.lane := NewStreak(s, run)] else s.streaks - {run.lane},
       s.seen + [Some(run.id)],
       s.nextUid + 1)
  }

  /** Setting an array's length. */
  function Resize(seen: seq<Option<RunId>>, n: nat): seq<Option<RunId>> {
    if n <= |seen| then seen[..n] else seen + seq(n - |seen|, _ => None)
  }

  /** After a failed save. */
  function Undo(s: Ci, lane: Lane, b: Before): Ci {
    s.(queue := b.queue,
       streaks := match b.streak case None => s.streaks - {lane} case Some(n) => s.streaks[lane := n],
       seen := Resize(s.seen, b.seen))
  }

  /** After a successful save. */
  function Commit(s: Ci): Ci {
    if |s.seen| > SEEN_LIMIT then s.(seen := s.seen[|s.seen| - SEEN_LIMIT..]) else s
  }

  // ---------------------------------------------------------------- tick

  function Unhandled(q: seq<Item>, handled: set<nat>): seq<Item> {
    if q == [] then []
    else if q[0].uid in handled then Unhandled(q[1..], handled)
    else [q[0]] + Unhandled(q[1..], handled)
  }

  // ---------------------------------------------------------------- the queue's own conditions

  ghost predicate OnePerLane(q: seq<Item>) {
    forall i, j :: 0 <= i < j < |q| ==> q[i].run.lane != q[j].run.lane
  }

  /** A queued failure is retry 1 to `cap`; a queued success has no streak. */
  ghost predicate WithinCap(q: seq<Item>, cap: nat) {
    forall i :: 0 <= i < |q| ==> if Failed(q[i].run.conclusion) then 1 <= q[i].streak <= cap else q[i].streak == 0
  }

  ghost predicate NoRepeats(seen: seq<Option<RunId>>) {
    forall i, j :: 0 <= i < j < |seen| && seen[i].Some? ==> seen[i] != seen[j]
  }

  ghost predicate Uids(q: seq<Item>, next: nat) {
    && (forall i :: 0 <= i < |q| ==> q[i].uid < next)
    && (forall i, j :: 0 <= i < j < |q| ==> q[i].uid != q[j].uid)
  }

  ghost predicate QueueOk(q: seq<Item>, cap: nat, next: nat) {
    OnePerLane(q) && WithinCap(q, cap) && Uids(q, next)
  }

  lemma {:induction false} WithoutLaneIs(q: seq<Item>, lane: Lane)
    ensures forall x :: x in WithoutLane(q, lane) <==> x in q && x.run.lane != lane
  {
    if q != [] {
      WithoutLaneIs(q[1..], lane);
      assert forall x :: x in q <==> x == q[0] || x in q[1..];
    }
  }

  lemma QueueTail(q: seq<Item>, cap: nat, next: nat)
    requires QueueOk(q, cap, next) && q != []
    ensures QueueOk(q[1..], cap, next) && QueueOk(q[..1], cap, next)
    ensures forall x :: x in q[1..] ==> x.run.lane != q[0].run.lane && x.uid != q[0].uid
  {
    forall x | x in q[1..] ensures x.run.lane != q[0].run.lane && x.uid != q[0].uid {
      var j :| 0 <= j < |q[1..]| && q[1..][j] == x;
      assert q[j + 1] == x;
    }
  }

  lemma QueueCons(x: Item, r: seq<Item>, cap: nat, next: nat)
    requires QueueOk([x], cap, next) && QueueOk(r, cap, next)
    requires forall y :: y in r ==> y.run.lane != x.run.lane && y.uid != x.uid
    ensures QueueOk([x] + r, cap, next)
  {
    assert [x][0] == x;
    var q := [x] + r;
    forall i | 0 < i < |q| ensures q[i].run.lane != x.run.lane && q[i].uid != x.uid { assert q[i] == r[i - 1] && q[i] in r; }
    assert forall i :: 0 < i < |q| ==> q[i] == r[i - 1];
  }

  lemma {:induction false} WithoutLaneKeeps(q: seq<Item>, lane: Lane, cap: nat, next: nat)
    requires QueueOk(q, cap, next)
    ensures QueueOk(WithoutLane(q, lane), cap, next)
  {
    hide QueueOk;
    if q == [] { assert WithoutLane(q, lane) == q; }
    if q != [] {
      QueueTail(q, cap, next);
      WithoutLaneKeeps(q[1..], lane, cap, next);
      WithoutLaneIs(q[1..], lane);
      assert q[..1] == [q[0]];
      QueueCons(q[0], WithoutLane(q[1..], lane), cap, next);
    }
  }

  lemma {:induction false} UnhandledIs(q: seq<Item>, handled: set<nat>)
    ensures forall x :: x in Unhandled(q, handled) <==> x in q && x.uid !in handled
  {
    if q != [] {
      UnhandledIs(q[1..], handled);
      assert forall x :: x in q <==> x == q[0] || x in q[1..];
    }
  }

  lemma {:induction false} UnhandledKeeps(q: seq<Item>, handled: set<nat>, cap: nat, next: nat)
    requires QueueOk(q, cap, next)
    ensures QueueOk(Unhandled(q, handled), cap, next)
  {
    hide QueueOk;
    if q == [] { assert Unhandled(q, handled) == q; }
    if q != [] {
      QueueTail(q, cap, next);
      UnhandledKeeps(q[1..], handled, cap, next);
      UnhandledIs(q[1..], handled);
      assert q[..1] == [q[0]];
      QueueCons(q[0], Unhandled(q[1..], handled), cap, next);
    }
  }

  lemma BeginKeepsQueue(s: Ci, run: CiRun, now: int, cap: nat)
    requires QueueOk(s.queue, cap, s.nextUid)
    ensures QueueOk(Begin(s, run, now, cap).queue, cap, s.nextUid + 1)
    ensures Over(s, run, cap) ==> forall x :: x in Begin(s, run, now, cap).queue ==> x.run.lane != run.lane
  {
    var kept := WithoutLane(s.queue, run.lane);
    WithoutLaneKeeps(s.queue, run.lane, cap, s.nextUid);
    WithoutLaneIs(s.queue, run.lane);
    forall i | 0 <= i < |kept| ensures kept[i].run.lane != run.lane { assert kept[i] in kept; }
  }

  /** Undoing a receive that nothing interleaved with restores everything. */
  lemma UndoRestores(s: Ci, run: CiRun, now: int, cap: nat)
    ensures Undo(Begin(s, run, now, cap), run.lane, Snapshot(s, run.lane)) == s.(nextUid := s.nextUid + 1)
  {
    var s1 := Begin(s, run, now, cap);
    var s2 := Undo(s1, run.lane, Snapshot(s, run.lane));
    assert s1.seen[..|s.seen|] == s.seen;
    assert s2.streaks == s.streaks;
  }

  // ---------------------------------------------------------------- all accepted results

  /** The number of failures at the end of a lane's results. */
  function FailSuffix(h: seq<CiRun>, lane: Lane): nat {
    if h == [] then 0
    else
      var last := h[|h| - 1];
      if last.lane != lane then FailSuffix(h[..|h| - 1], lane)
      else if Failed(last.conclusion) then FailSuffix(h[..|h| - 1], lane) + 1
      else 0
  }

  ghost predicate StreaksAre(s: Ci, h: seq<CiRun>) {
    forall lane :: Streak(s, lane) == FailSuffix(h, lane)
  }

  /** `seen` is the tail of the accepted ids, and covers at least the last SEEN_LIMIT. */
  ghost predicate SeenIsTail(s: Ci, h: seq<CiRun>) {
    && |s.seen| <= |h| && (|s.seen| >= SEEN_LIMIT || |s.seen| == |h|)
    && forall i :: 0 <= i < |s.seen| ==> s.seen[i] == Some(h[|h| - |s.seen| + i].id)
  }

  ghost predicate CiOk(s: Ci, h: seq<CiRun>, cap: nat) {
    QueueOk(s.queue, cap, s.nextUid) && NoRepeats(s.seen) && StreaksAre(s, h) && SeenIsTail(s, h)
  }

  lemma BeginKeeps(s: Ci, h: seq<CiRun>, run: CiRun, now: int, cap: nat)
    requires CiOk(s, h, cap) && Some(run.id) !in s.seen
    ensures CiOk(Begin(s, run, now, cap), h + [run], cap)
  {
    BeginKeepsQueue(s, run, now, cap);
    var s1, h1 := Begin(s, run, now, cap), h + [run];
    assert h1[..|h|] == h;
    forall lane ensures Streak(s1, lane) == FailSuffix(h1, lane) {
      assert Streak(s, lane) == FailSuffix(h, lane);
    }
  }

  /** What accepting a result queues: the items of other lanes stay, in order, and unless it
      is one failure too many the result comes last, with the failures in a row it ends and
      the reading at which it was received. */
  lemma AcceptedItem(s: Ci, h: seq<CiRun>, run: CiRun, now: int, cap: nat)
    requires CiOk(s, h, cap)
    ensures var q, fails := Begin(s, run, now, cap).queue, FailSuffix(h + [run], run.lane);
            var tooMany := Failed(run.conclusion) && fails > cap;
      && (forall x :: x in q && x.run.lane != run.lane <==> x in s.queue && x.run.lane != run.lane)
      && (tooMany ==> forall x :: x in q ==> x.run.lane != run.lane)
      && (!tooMany ==> q != [] && q[|q| - 1].run == run && q[|q| - 1].streak == fails && q[|q| - 1].receivedAt == now)
  {
    var kept := WithoutLane(s.queue, run.lane);
    WithoutLaneIs(s.queue, run.lane);
    assert (h + [run])[..|h|] == h;
    assert Streak(s, run.lane) == FailSuffix(h, run.lane);
  }

  lemma CommitKeeps(s: Ci, h: seq<CiRun>, cap: nat)
    requires CiOk(s, h, cap)
    ensures CiOk(Commit(s), h, cap)
  {
    var s1 := Commit(s);
    forall lane ensures Streak(s1, lane) == FailSuffix(h, lane) {
      assert Streak(s, lane) == FailSuffix(h, lane);
    }
  }

  /** A result accepted among the last SEEN_LIMIT is never accepted again. */
  lemma RecentIsRefused(s: Ci, h: seq<CiRun>, cap: nat, k: nat)
    requires CiOk(s, h, cap) && k < |h| && |h| - k <= 2000
    ensures Some(h[k].id) in s.seen
  {
    var i := k - (|h| - |s.seen|);
    assert s.seen[i] == Some(h[k].id);
  }

  // ---------------------------------------------------------------- receives and ticks interleaved

  /** A receive waiting for its save, with the state before and after its first stretch, and
      what there was when it began: `mark` changes that stood, and the system's counters. */
  datatype Call = Call(
    run: CiRun, before: Before, over: bool, was: Ci, wasH: seq<CiRun>, after: Ci, afterH: seq<CiRun>,
    mark: nat, putBacks: nat, dropped: nat, cuts: nat)

  /** A change of the queue that stands: a result accepted, with the item queued for it if
      any; a tick ended with these items handled; a queue put back by the failed save of a
      receive that no longer stood. */
  datatype Change = Accepted(run: CiRun, uid: nat, item: Option<Item>) | Ticked(handled: set<nat>) | PutBack(queue: seq<Item>)

  /** A tick under way.  `start` is the identity counter when its snapshot was taken. */
  datatype Tick = Tick(todo: seq<Item>, handled: set<nat>, start: nat)

  datatype Verdict = Delivered | Wait | Gone

  datatype System = System(
    ci: Ci, history: seq<CiRun>,
    calls: map<nat, Call>, nextCall: nat, tick: Option<Tick>,
    disk: Ci, diskH: seq<CiRun>,
    escalated: seq<CiRun>,
    base: seq<Item>, log: seq<Change>, putBacks: nat, dropped: nat, cuts: seq<nat>)

  datatype Event =
    | Receive(run: CiRun, now: int)
    | Saved(call: nat)
    | SaveFailed(call: nat)
    | TickStart
    | TickVisit(verdict: Verdict, now: int)
    | TickEnd(saved: bool)
    | Restart(loaded: bool)

  datatype Config = Config(cap: nat, maxWaitMs: int)

  const START := System(EMPTY, [], map[], 0, None, EMPTY, [], [], [], [], 0, 0, [])

  predicate Enabled(s: System, ev: Event) {
    match ev
    case Saved(c) => c in s.calls
    case SaveFailed(c) => c in s.calls
    case TickStart => s.tick.None?
    case TickVisit(_, _) => s.tick.Some? && s.tick.value.todo != []
    case TickEnd(_) => s.tick.Some? && s.tick.value.todo == []
    case _ => true
  }

  function Entry(s: Ci, run: CiRun, now: int, cap: nat): Change {
    Accepted(run, s.nextUid, if Over(s, run, cap) then None else Some(Item(s.nextUid, run, NewStreak(s, run), now)))
  }

  /** The receive's own change is still among those that stand. */
  predicate Standing(s: System, c: nat)
    requires c in s.calls
  {
    var call := s.calls[c];
    call.mark < |s.log| && s.log[call.mark].Accepted? && s.log[call.mark].uid == call.was.nextUid
  }

  /** `base` is the queue at the last start and `log` the changes since that stand: a failed
      save takes back its own and every later one.  `putBacks` counts the failed saves of
      receives that no longer stood, `dropped` the ids dropped from the front of `seen`, and
      `cuts` lists the ends that failed saves have given `seen`, the dropped ids included. */
  function Step(cfg: Config, s: System, ev: Event): System
    requires Enabled(s, ev)
  {
    match ev
    case Receive(run, now) =>
      if Some(run.id) in s.ci.seen then s
      else
        var after := Begin(s.ci, run, now, cfg.cap);
        s.(ci := after, history := s.history + [run], nextCall := s.nextCall + 1,
           log := s.log + [Entry(s.ci, run, now, cfg.cap)],
           calls := s.calls[s.nextCall := Call(run, Snapshot(s.ci, run.lane), Over(s.ci, run, cfg.cap), s.ci, s.history, after, s.history + [run],
                                            |s.log|, s.putBacks, s.dropped, |s.cuts|)])
    case Saved(c) =>
      s.(ci := Commit(s.ci), calls := s.calls - {c}, disk := s.calls[c].after, diskH := s.calls[c].afterH,
         escalated := s.escalated + (if s.calls[c].over then [s.calls[c].run] else []),
         dropped := s.dropped + |s.ci.seen| - |Commit(s.ci).seen|)
    case SaveFailed(c) =>
      s.(ci := Undo(s.ci, s.calls[c].run.lane, s.calls[c].before), calls := s.calls - {c}, history := s.calls[c].wasH,
         log := if Standing(s, c) then s.log[..s.calls[c].mark] else s.log + [PutBack(s.calls[c].before.queue)],
         putBacks := if Standing(s, c) then s.putBacks else s.putBacks + 1,
         cuts := s.cuts + [s.dropped + s.calls[c].before.seen])
    case TickStart => s.(tick := Some(Tick(s.ci.queue, {}, s.ci.nextUid)))
    case TickVisit(verdict, now) =>
      var t := s.tick.value;
      var item := t.todo[0];
      var late := now - item.receivedAt > cfg.maxWaitMs;
      var gone := verdict.Gone? || (verdict.Wait? && late);
      s.(tick := Some(t.(todo := t.todo[1..], handled := if verdict.Delivered? || gone then t.handled + {item.uid} else t.handled)),
         escalated := s.escalated + (if gone then [item.run] else []))
    case TickEnd(saved) =>
      var ci1 := s.ci.(queue := Unhandled(s.ci.queue, s.tick.value.handled));
      if s.tick.value.handled == {} then s.(tick := None)
      else s.(ci := ci1, tick := None, log := s.log + [Ticked(s.tick.value.handled)], disk := if saved then ci1 else s.disk, diskH := if saved then s.history else s.diskH)
    case Restart(loaded) => // starts empty when the saved state cannot be read
      s.(ci := if loaded then Commit(s.disk) else EMPTY, history := if loaded then s.diskH else [],
         calls := map[], tick := None, base := if loaded then s.disk.queue else [], log := [])
  }

  /** No id has been dropped since the receive began, and no receive that no longer stood has
      put its queue back. */
  predicate SameEpoch(s: System, call: Call) {
    call.putBacks == s.putBacks && call.dropped == s.dropped
  }

  /** Nothing changed the state between the receive and its failed save. */
  predicate Quiet(s: System, ev: Event) {
    ev.SaveFailed? && ev.call in s.calls ==> s.ci == s.calls[ev.call].after && s.history == s.calls[ev.call].afterH
  }

  function Run(cfg: Config, evs: seq<Event>): Option<System> {
    if evs == [] then Some(START)
    else
      var s := Run(cfg, evs[..|evs| - 1]);
      if s.Some? && Enabled(s.value, evs[|evs| - 1]) then Some(Step(cfg, s.value, evs[|evs| - 1])) else None
  }

  /** Every failed save of the run was quiet. */
  predicate QuietRun(cfg: Config, evs: seq<Event>) {
    evs != [] ==>
      && QuietRun(cfg, evs[..|evs| - 1])
      && (Run(cfg, evs[..|evs| - 1]).Some? ==> Quiet(Run(cfg, evs[..|evs| - 1]).value, evs[|evs| - 1]))
  }

  // ---------------------------------------------------------------- what holds in every run

  ghost predicate Sound(ci: Ci, cap: nat) {
    QueueOk(ci.queue, cap, ci.nextUid) && NoRepeats(ci.seen)
  }

  ghost predicate TickOk(s: System) {
    s.tick.Some? ==>
      && (forall x :: x in s.tick.value.todo ==> x.uid < s.tick.value.start)
      && (forall u :: u in s.tick.value.handled ==> u < s.tick.value.start)
  }

  ghost predicate AlwaysInv(cfg: Config, s: System) {
    && Sound(s.ci, cfg.cap) && Sound(s.disk, cfg.cap) && TickOk(s)
    && (forall c :: c in s.calls ==>
          QueueOk(s.calls[c].before.queue, cfg.cap, s.ci.nextUid) && Sound(s.calls[c].after, cfg.cap))
  }

  lemma LargerNext(q: seq<Item>, cap: nat, a: nat, b: nat)
    requires QueueOk(q, cap, a) && a <= b
    ensures QueueOk(q, cap, b)
  {
  }

  lemma BeginSound(s: Ci, run: CiRun, now: int, cap: nat)
    requires Sound(s, cap) && Some(run.id) !in s.seen
    ensures Sound(Begin(s, run, now, cap), cap)
  {
    BeginKeepsQueue(s, run, now, cap);
  }

  lemma ResizeNoRepeats(seen: seq<Option<RunId>>, n: nat)
    requires NoRepeats(seen)
    ensures NoRepeats(Resize(seen, n))
  {
  }

  lemma StepKeepsAlways(cfg: Config, s: System, ev: Event)
    requires AlwaysInv(cfg, s) && Enabled(s, ev) && !ev.Restart?
    ensures AlwaysInv(cfg, Step(cfg, s, ev))
    ensures Step(cfg, s, ev).ci.nextUid >= s.ci.nextUid
  {
    hide OnePerLane, WithinCap, Uids, NoRepeats;
    var s' := Step(cfg, s, ev);
    match ev
    case Receive(run, now) =>
      if Some(run.id) !in s.ci.seen {
        BeginSound(s.ci, run, now, cfg.cap);
        forall c | c in s'.calls ensures QueueOk(s'.calls[c].before.queue, cfg.cap, s'.ci.nextUid) {
          LargerNext(s'.calls[c].before.queue, cfg.cap, s.ci.nextUid, s'.ci.nextUid);
        }
      }
    case SaveFailed(c) => ResizeNoRepeats(s.ci.seen, s.calls[c].before.seen);
    case Saved(c) => CommitSound(s.ci, cfg.cap);
    case TickEnd(saved) => UnhandledKeeps(s.ci.queue, s.tick.value.handled, cfg.cap, s.ci.nextUid);
    case TickStart => TickStartOk(cfg, s);
    case TickVisit(verdict, now) =>
      assert forall x :: x in s.tick.value.todo[1..] ==> x in s.tick.value.todo;
  }

  lemma CommitSound(ci: Ci, cap: nat)
    requires Sound(ci, cap)
    ensures Sound(Commit(ci), cap)
  {
  }

  lemma TickStartOk(cfg: Config, s: System)
    requires Sound(s.ci, cfg.cap)
    ensures forall x :: x in s.ci.queue ==> x.uid < s.ci.nextUid
  {
  }

  lemma RestartSound(cfg: Config, s: System, loaded: bool)
    requires AlwaysInv(cfg, s)
    ensures AlwaysInv(cfg, Step(cfg, s, Restart(loaded)))
  {
    CommitSound(s.disk, cfg.cap);
  }

  /** In every run, whatever fails and however receives and ticks interleave: one queued
      item per lane, no queued failure past the cap, and no id remembered twice. */
  lemma {:induction false} AnyRunIsSound(cfg: Config, evs: seq<Event>)
    requires Run(cfg, evs).Some?
    ensures AlwaysInv(cfg, Run(cfg, evs).value)
  {
    if evs != [] {
      AnyRunIsSound(cfg, evs[..|evs| - 1]);
      var s, ev := Run(cfg, evs[..|evs| - 1]).value, evs[|evs| - 1];
      if ev.Restart? { RestartSound(cfg, s, ev.loaded); } else { StepKeepsAlways(cfg, s, ev); }
    }
  }

  // ---------------------------------------------------------------- what holds when failed saves are quiet

  ghost predicate QuietInv(cfg: Config, s: System) {
    && CiOk(s.ci, s.history, cfg.cap) && CiOk(s.disk, s.diskH, cfg.cap)
    && (forall c :: c in s.calls ==> CallOk(cfg, s.calls[c]))
  }

  ghost predicate CallOk(cfg: Config, c: Call) {
    && CiOk(c.was, c.wasH, cfg.cap) && CiOk(c.after, c.afterH, cfg.cap)
    && c.before == Snapshot(c.was, c.run.lane)
    && exists now :: c.after == Begin(c.was, c.run, now, cfg.cap)
  }

  lemma EmptyIsOk(cap: nat)
    ensures CiOk(EMPTY, [], cap)
  {
    assert StreaksAre(EMPTY, []);
  }

  lemma StepKeepsQuiet(cfg: Config, s: System, ev: Event)
    requires QuietInv(cfg, s) && Enabled(s, ev) && Quiet(s, ev)
    ensures QuietInv(cfg, Step(cfg, s, ev))
  {
    hide CiOk;
    match ev
    case Receive(run, now) =>
      if Some(run.id) !in s.ci.seen { BeginKeeps(s.ci, s.history, run, now, cfg.cap); }
    case Saved(c) =>
      assert CallOk(cfg, s.calls[c]);
      CommitKeeps(s.ci, s.history, cfg.cap);
    case SaveFailed(c) =>
      var call := s.calls[c];
      assert CallOk(cfg, call);
      var now :| call.after == Begin(call.was, call.run, now, cfg.cap);
      UndoRestores(call.was, call.run, now, cfg.cap);
      FresherUid(call.was, call.wasH, cfg.cap);
    case TickStart =>
    case TickVisit(verdict, now) =>
    case TickEnd(saved) => TickKeeps(s.ci, s.history, s.tick.value.handled, cfg.cap);
    case Restart(loaded) =>
      CommitKeeps(s.disk, s.diskH, cfg.cap);
      EmptyIsOk(cfg.cap);
  }

  lemma FresherUid(s: Ci, h: seq<CiRun>, cap: nat)
    requires CiOk(s, h, cap)
    ensures CiOk(s.(nextUid := s.nextUid + 1), h, cap)
  {
    var s1 := s.(nextUid := s.nextUid + 1);
    forall lane ensures Streak(s1, lane) == FailSuffix(h, lane) { assert Streak(s, lane) == FailSuffix(h, lane); }
  }

  lemma TickKeeps(s: Ci, h: seq<CiRun>, handled: set<nat>, cap: nat)
    requires CiOk(s, h, cap)
    ensures CiOk(s.(queue := Unhandled(s.queue, handled)), h, cap)
  {
    var s1 := s.(queue := Unhandled(s.queue, handled));
    UnhandledKeeps(s.queue, handled, cap, s.nextUid);
    forall lane ensures Streak(s1, lane) == FailSuffix(h, lane) { assert Streak(s, lane) == FailSuffix(h, lane); }
  }

  /** When every failed save is quiet, each lane's streak is the number of failures at the
      end of its accepted results, and the remembered ids are the latest accepted ones. */
  lemma {:induction false} QuietRunIsExact(cfg: Config, evs: seq<Event>)
    requires Run(cfg, evs).Some? && QuietRun(cfg, evs)
    ensures QuietInv(cfg, Run(cfg, evs).value)
  {
    if evs == [] {
      EmptyIsOk(cfg.cap);
    } else {
      QuietRunIsExact(cfg, evs[..|evs| - 1]);
      StepKeepsQuiet(cfg, Run(cfg, evs[..|evs| - 1]).value, evs[|evs| - 1]);
    }
  }

  /** The result after `cap` failures in a row is not queued: the lane is empty, and once
      saved it is escalated. */
  lemma NextFailureEscalates(cfg: Config, s: System, run: CiRun, now: int)
    requires QuietInv(cfg, s) && Some(run.id) !in s.ci.seen && Failed(run.conclusion)
    requires s.nextCall !in s.calls
    ensures var s1 := Step(cfg, s, Receive(run, now));
      && (FailSuffix(s.history, run.lane) >= cfg.cap <==> forall x :: x in s1.ci.queue ==> x.run.lane != run.lane)
      && (FailSuffix(s.history, run.lane) >= cfg.cap <==> Step(cfg, s1, Saved(s.nextCall)).escalated == s.escalated + [run])
  {
    assert Streak(s.ci, run.lane) == FailSuffix(s.history, run.lane);
    BeginKeepsQueue(s.ci, run, now, cfg.cap);
    var s1 := Step(cfg, s, Receive(run, now));
    if FailSuffix(s.history, run.lane) < cfg.cap {
      assert s1.ci.queue[|s1.ci.queue| - 1].run.lane == run.lane;
      assert |Step(cfg, s1, Saved(s.nextCall)).escalated| == |s.escalated|;
    }
  }

  // ---------------------------------------------------------------- ticks

  /** The end of a tick removes handled items only; whatever was received since the tick
      began, also in place of an item it was working on, stays. */
  lemma TickRemovesOnlyHandled(cfg: Config, evs: seq<Event>, saved: bool, x: Item)
    requires Run(cfg, evs).Some? && Enabled(Run(cfg, evs).value, TickEnd(saved))
    requires x in Run(cfg, evs).value.ci.queue
    ensures var s := Run(cfg, evs).value;
      && (x in Step(cfg, s, TickEnd(saved)).ci.queue <==> x.uid !in s.tick.value.handled)
      && (x.uid >= s.tick.value.start ==> x in Step(cfg, s, TickEnd(saved)).ci.queue)
  {
    AnyRunIsSound(cfg, evs);
    var s := Run(cfg, evs).value;
    UnhandledIs(s.ci.queue, s.tick.value.handled);
  }

  // ---------------------------------------------------------------- a failed save that is not quiet

  /** The queue after a change. */
  function Applied(q: seq<Item>, ch: Change): seq<Item> {
    match ch
    case Accepted(run, _, item) => WithoutLane(q, run.lane) + (if item.Some? then [item.value] else [])
    case Ticked(handled) => Unhandled(q, handled)
    case PutBack(queue) => queue
  }

  function Replay(q: seq<Item>, log: seq<Change>): seq<Item> {
    if log == [] then q else Applied(Replay(q, log[..|log| - 1]), log[|log| - 1])
  }

  lemma ReplayPush(q: seq<Item>, log: seq<Change>, ch: Change)
    ensures Replay(q, log + [ch]) == Applied(Replay(q, log), ch)
  {
    assert (log + [ch])[..|log|] == log;
  }

  lemma {:induction false} ReplayAppend(q: seq<Item>, a: seq<Change>, b: seq<Change>)
    ensures Replay(q, a + b) == Replay(Replay(q, a), b)
  {
    hide Applied;
    if b == [] {
      assert a + b == a;
    } else {
      ReplayAppend(q, a, b[..|b| - 1]);
      assert a + b == (a + b[..|b| - 1]) + [b[|b| - 1]];
      ReplayPush(q, a + b[..|b| - 1], b[|b| - 1]);
    }
  }

  function Ids(log: seq<Change>): seq<Option<RunId>> {
    if log == [] then []
    else Ids(log[..|log| - 1]) + (if log[|log| - 1].Accepted? then [Some(log[|log| - 1].run.id)] else [])
  }

  lemma IdsPush(log: seq<Change>, ch: Change)
    ensures Ids(log + [ch]) == Ids(log) + (if ch.Accepted? then [Some(ch.run.id)] else [])
  {
    assert (log + [ch])[..|log|] == log;
  }

  lemma {:induction false} IdsAppend(a: seq<Change>, b: seq<Change>)
    ensures Ids(a + b) == Ids(a) + Ids(b)
  {
    hide Ids;
    IdsNone();
    if b == [] {
      assert a + b == a;
    } else {
      IdsAppend(a, b[..|b| - 1]);
      assert a + b == (a + b[..|b| - 1]) + [b[|b| - 1]];
      IdsPush(a + b[..|b| - 1], b[|b| - 1]);
      IdsPush(b[..|b| - 1], b[|b| - 1]);
      assert b == b[..|b| - 1] + [b[|b| - 1]];
    }
  }

  lemma {:induction false} IdsAre(log: seq<Change>)
    ensures forall x :: x in Ids(log) <==> exists i :: 0 <= i < |log| && log[i].Accepted? && x == Some(log[i].run.id)
  {
    if log != [] {
      var front := log[..|log| - 1];
      IdsAre(front);
      assert forall i :: 0 <= i < |front| ==> front[i] == log[i];
      forall x | x in Ids(log) ensures exists i :: 0 <= i < |log| && log[i].Accepted? && x == Some(log[i].run.id) {
        if x in Ids(front) {
          var i :| 0 <= i < |front| && front[i].Accepted? && x == Some(front[i].run.id);
          assert log[i].Accepted?;
        } else {
          assert log[|log| - 1].Accepted?;
        }
      }
      forall x | exists i :: 0 <= i < |log| && log[i].Accepted? && x == Some(log[i].run.id) ensures x in Ids(log) {
        var i :| 0 <= i < |log| && log[i].Accepted? && x == Some(log[i].run.id);
        if i < |front| { assert front[i].Accepted?; }
      }
    }
  }

  /** A receive that stands began with the queue the changes before it had made; in the same
      epoch, what is remembered is what it found, its own id and the later ones. */
  ghost predicate CallStands(s: System, c: nat)
    requires c in s.calls
  {
    var call := s.calls[c];
    && call.was.nextUid < s.ci.nextUid && call.putBacks <= s.putBacks && call.dropped <= s.dropped
    && call.before.queue == call.was.queue && call.before.seen == |call.was.seen|
    && (forall x :: x in call.was.queue ==> x.uid < call.was.nextUid)
    && (Standing(s, c) ==>
          && call.was.queue == Replay(s.base, s.log[..call.mark])
          && s.log[call.mark].run == call.run
          && (SameEpoch(s, call) ==>
                && s.ci.seen == call.was.seen + Ids(s.log[call.mark..])
                && forall i :: call.mark <= i < |s.log| ==> !s.log[i].PutBack?))
  }

  ghost predicate LogInv(s: System) {
    && s.ci.queue == Replay(s.base, s.log)
    && (forall i :: 0 <= i < |s.log| ==> EntryOk(s.log[i], s.ci.nextUid))
    && (forall i, j :: 0 <= i < j < |s.log| && s.log[i].Accepted? && s.log[j].Accepted? ==> s.log[i].uid < s.log[j].uid)
    && (forall c :: c in s.calls ==> c < s.nextCall && CallStands(s, c))
    && (forall c, d :: c in s.calls && d in s.calls && s.calls[c].was.nextUid < s.calls[d].was.nextUid ==>
          s.calls[c].putBacks <= s.calls[d].putBacks && s.calls[c].dropped <= s.calls[d].dropped)
  }

  predicate EntryOk(ch: Change, next: nat) {
    ch.Accepted? ==> ch.uid < next && (ch.item.Some? ==> ch.item.value.uid == ch.uid && ch.item.value.run == ch.run)
  }

  lemma ReceiveLogs(cfg: Config, s: System, run: CiRun, now: int)
    requires LogInv(s) && Some(run.id) !in s.ci.seen
    requires forall x :: x in s.ci.queue ==> x.uid < s.ci.nextUid
    ensures LogInv(Step(cfg, s, Receive(run, now)))
  {
    hide Replay, Ids, Begin;
    var s' := Step(cfg, s, Receive(run, now));
    var e := Entry(s.ci, run, now, cfg.cap);
    ReplayPush(s.base, s.log, e);
    BeginApplies(s.ci, run, now, cfg.cap);
    hide CallStands;
    forall c | c in s'.calls ensures CallStands(s', c) {
      if c == s.nextCall { NewCallStands(cfg, s, run, now); } else { OldCallStands(cfg, s, run, now, c); }
    }
    forall c, d | c in s'.calls && d in s'.calls && s'.calls[c].was.nextUid < s'.calls[d].was.nextUid
      ensures s'.calls[c].putBacks <= s'.calls[d].putBacks && s'.calls[c].dropped <= s'.calls[d].dropped
    {
      if c != s.nextCall { CallsAreOlder(s, c); }
      if d != s.nextCall { CallsAreOlder(s, d); }
    }
  }

  lemma CallsAreOlder(s: System, c: nat)
    requires c in s.calls && CallStands(s, c)
    ensures s.calls[c].was.nextUid < s.ci.nextUid && s.calls[c].putBacks <= s.putBacks && s.calls[c].dropped <= s.dropped
  {
  }

  lemma NewCallStands(cfg: Config, s: System, run: CiRun, now: int)
    requires Some(run.id) !in s.ci.seen && s.ci.queue == Replay(s.base, s.log)
    requires forall x :: x in s.ci.queue ==> x.uid < s.ci.nextUid
    ensures s.nextCall in Step(cfg, s, Receive(run, now)).calls && CallStands(Step(cfg, s, Receive(run, now)), s.nextCall)
  {
    hide Replay, Ids, Begin;
    var s' := Step(cfg, s, Receive(run, now));
    var e := Entry(s.ci, run, now, cfg.cap);
    BeginApplies(s.ci, run, now, cfg.cap);
    assert s'.log[..|s.log|] == s.log && s'.log[|s.log|..] == [e];
    IdsPush([], e);
    IdsNone();
    assert [] + [e] == [e];
  }

  lemma OldCallStands(cfg: Config, s: System, run: CiRun, now: int, c: nat)
    requires Some(run.id) !in s.ci.seen && c in s.calls && c < s.nextCall && CallStands(s, c)
    ensures c in Step(cfg, s, Receive(run, now)).calls && CallStands(Step(cfg, s, Receive(run, now)), c)
  {
    hide Replay, Ids, Begin;
    var s' := Step(cfg, s, Receive(run, now));
    var e := Entry(s.ci, run, now, cfg.cap);
    BeginApplies(s.ci, run, now, cfg.cap);
    var mark := s.calls[c].mark;
    if Standing(s', c) {
      assert mark < |s.log|;
      assert s'.log[..mark] == s.log[..mark] && s'.log[mark..] == s.log[mark..] + [e];
      IdsPush(s.log[mark..], e);
    }
  }

  lemma IdsNone()
    ensures Ids([]) == []
  {
  }

  lemma BeginApplies(s: Ci, run: CiRun, now: int, cap: nat)
    ensures var s1 := Begin(s, run, now, cap);
            s1.queue == Applied(s.queue, Entry(s, run, now, cap)) && s1.seen == s.seen + [Some(run.id)] && s1.nextUid == s.nextUid + 1
  {
  }

  lemma SavedLogs(cfg: Config, s: System, c: nat)
    requires LogInv(s) && c in s.calls
    ensures LogInv(Step(cfg, s, Saved(c)))
  {
    hide Replay, Ids;
    var s' := Step(cfg, s, Saved(c));
    forall d | d in s'.calls ensures CallStands(s', d) {
      assert CallStands(s, d);
      assert Standing(s', d) <==> Standing(s, d);
    }
  }

  lemma TickEndLogs(cfg: Config, s: System, saved: bool)
    requires LogInv(s) && Enabled(s, TickEnd(saved))
    ensures LogInv(Step(cfg, s, TickEnd(saved)))
  {
    hide Replay, Ids, Unhandled;
    var s' := Step(cfg, s, TickEnd(saved));
    if s.tick.value.handled != {} {
      var e := Ticked(s.tick.value.handled);
      ReplayPush(s.base, s.log, e);
      forall d | d in s'.calls ensures CallStands(s', d) {
        assert CallStands(s, d);
        var mark := s'.calls[d].mark;
        if Standing(s', d) {
          assert mark < |s.log|;
          assert s'.log[..mark] == s.log[..mark] && s'.log[mark..] == s.log[mark..] + [e];
          IdsPush(s.log[mark..], e);
        }
      }
    } else {
      assert forall d :: d in s'.calls ==> CallStands(s, d) && (Standing(s', d) <==> Standing(s, d));
    }
  }

  lemma FailedLogs(cfg: Config, s: System, c: nat)
    requires LogInv(s) && c in s.calls
    ensures LogInv(Step(cfg, s, SaveFailed(c)))
  {
    hide Replay, Ids;
    var s' := Step(cfg, s, SaveFailed(c));
    assert CallStands(s, c);
    if !Standing(s, c) {
      ReplayPush(s.base, s.log, PutBack(s.calls[c].before.queue));
    }
    forall d | d in s'.calls ensures CallStands(s', d) {
      assert CallStands(s, d);
      if Standing(s', d) {
        var mark := s'.calls[d].mark;
        assert mark < |s.log| && s'.log[mark] == s.log[mark] && s'.log[..mark] == s.log[..mark];
        if Standing(s, c) && SameEpoch(s', s'.calls[d]) { RememberedBefore(s, c, d); }
      }
    }
  }

  /** Taking back a later receive leaves what an earlier one knows to be remembered. */
  lemma RememberedBefore(s: System, c: nat, d: nat)
    requires c in s.calls && d in s.calls && CallStands(s, c) && CallStands(s, d) && Standing(s, c) && Standing(s, d)
    requires s.calls[d].mark < s.calls[c].mark && SameEpoch(s, s.calls[d]) && SameEpoch(s, s.calls[c])
    ensures Resize(s.ci.seen, s.calls[c].before.seen) == s.calls[d].was.seen + Ids(s.log[..s.calls[c].mark][s.calls[d].mark..])
  {
    hide Replay, Ids;
    var a, b := s.calls[d], s.calls[c];
    var middle, rest := s.log[..b.mark][a.mark..], s.log[b.mark..];
    assert s.log[a.mark..] == middle + rest;
    IdsAppend(middle, rest);
    assert a.was.seen + Ids(middle) + Ids(rest) == b.was.seen + Ids(rest);
    SameFront(a.was.seen + Ids(middle), b.was.seen, Ids(rest));
    assert s.ci.seen[..|b.was.seen|] == b.was.seen;
  }

  lemma SameFront(a: seq<Option<RunId>>, b: seq<Option<RunId>>, r: seq<Option<RunId>>)
    requires a + r == b + r
    ensures a == b
  {
    assert |a| == |b|;
    forall i | 0 <= i < |a| ensures a[i] == b[i] { assert (a + r)[i] == (b + r)[i]; }
  }

  lemma QuietLogs(cfg: Config, s: System, ev: Event)
    requires LogInv(s) && Enabled(s, ev) && (ev.TickStart? || ev.TickVisit?)
    ensures LogInv(Step(cfg, s, ev))
  {
    hide Replay, Ids;
    var s' := Step(cfg, s, ev);
    assert forall c :: c in s'.calls ==> CallStands(s, c) && (Standing(s', c) <==> Standing(s, c));
    forall c | c in s'.calls ensures CallStands(s', c) { assert CallStands(s, c); }
  }

  /** In every run the queue is what the changes that stand have made of it. */
  lemma {:induction false} RunIsLogged(cfg: Config, evs: seq<Event>)
    requires Run(cfg, evs).Some?
    ensures LogInv(Run(cfg, evs).value)
  {
    hide LogInv, AlwaysInv, Step;
    if evs == [] {
      assert LogInv(START) by { StartIsLogged(); }
    } else {
      var before := evs[..|evs| - 1];
      RunIsLogged(cfg, before);
      AnyRunIsSound(cfg, before);
      StepIsLogged(cfg, Run(cfg, before).value, evs[|evs| - 1]);
    }
  }

  lemma StartIsLogged()
    ensures LogInv(START)
  {
  }

  lemma StepIsLogged(cfg: Config, s: System, ev: Event)
    requires LogInv(s) && AlwaysInv(cfg, s) && Enabled(s, ev)
    ensures LogInv(Step(cfg, s, ev))
  {
    match ev
    case Receive(run, now) =>
      if Some(run.id) !in s.ci.seen {
        TickStartOk(cfg, s);
        ReceiveLogs(cfg, s, run, now);
      }
    case Saved(c) => SavedLogs(cfg, s, c);
    case SaveFailed(c) => FailedLogs(cfg, s, c);
    case TickStart => QuietLogs(cfg, s, ev);
    case TickVisit(_, _) => QuietLogs(cfg, s, ev);
    case TickEnd(saved) => TickEndLogs(cfg, s, saved);
    case Restart(_) =>
  }

  /** The changes made since a receive began, while it stands. */
  function Since(s: System, c: nat): seq<Change>
    requires c in s.calls && Standing(s, c)
  {
    s.log[s.calls[c].mark + 1..]
  }

  ghost predicate HandledIn(log: seq<Change>, uid: nat) {
    exists i :: 0 <= i < |log| && log[i].Ticked? && uid in log[i].handled
  }

  ghost predicate AcceptedIn(log: seq<Change>) {
    exists i :: 0 <= i < |log| && log[i].Accepted?
  }

  /** The failed save takes away a queued result that is not its own, forgets an id that is
      not its own, or queues again an item that a tick has handled. */
  ghost predicate UndoesMore(cfg: Config, s: System, c: nat)
    requires c in s.calls && Standing(s, c)
  {
    var s1, call := Step(cfg, s, SaveFailed(c)), s.calls[c];
    || (exists x :: x in s.ci.queue && x !in s1.ci.queue && x.uid != call.was.nextUid)
    || (exists id :: id != call.run.id && Some(id) in s.ci.seen && Some(id) !in s1.ci.seen)
    || (exists x :: x in s1.ci.queue && x !in s.ci.queue && HandledIn(Since(s, c), x.uid))
  }

  /** Every item of the queue was there before the changes or came with one of them. */
  lemma {:induction false} ReplaySource(q: seq<Item>, log: seq<Change>, x: Item)
    requires x in Replay(q, log) && forall i :: 0 <= i < |log| ==> !log[i].PutBack?
    ensures x in q || AcceptedIn(log)
  {
    if log != [] && x !in q {
      var front, last := log[..|log| - 1], log[|log| - 1];
      match last
      case Accepted(_, _, _) =>
        assert log[|log| - 1].Accepted?;
      case Ticked(handled) =>
        UnhandledIs(Replay(q, front), handled);
        ReplaySource(q, front, x);
        var i :| 0 <= i < |front| && front[i].Accepted?;
        assert log[i].Accepted?;
      case PutBack(_) =>
    }
  }

  /** What a tick has handled is not queued again by any later change. */
  lemma {:induction false} HandledIsGone(q: seq<Item>, log: seq<Change>, uid: nat)
    requires HandledIn(log, uid) && forall i :: 0 <= i < |log| ==> !log[i].PutBack?
    requires forall i :: 0 <= i < |log| && log[i].Accepted? && log[i].item.Some? ==> log[i].item.value.uid != uid
    ensures forall x :: x in Replay(q, log) ==> x.uid != uid
  {
    var front, last := log[..|log| - 1], log[|log| - 1];
    var i :| 0 <= i < |log| && log[i].Ticked? && uid in log[i].handled;
    if i < |front| {
      assert front[i].Ticked? && uid in front[i].handled;
      HandledIsGone(q, front, uid);
    }
    match last
    case Accepted(run, _, _) => WithoutLaneIs(Replay(q, front), run.lane);
    case Ticked(handled) => UnhandledIs(Replay(q, front), handled);
    case PutBack(_) =>
  }

  /** What a failed save finds: the queue it began with, its own change, the changes since. */
  lemma FailedFinds(s: System, c: nat)
    requires LogInv(s) && c in s.calls && Standing(s, c) && SameEpoch(s, s.calls[c])
    ensures var call, own := s.calls[c], s.log[s.calls[c].mark];
            && s.ci.queue == Replay(Applied(call.was.queue, own), Since(s, c))
            && s.ci.seen == call.was.seen + [Some(call.run.id)] + Ids(Since(s, c))
            && forall i :: 0 <= i < |Since(s, c)| ==> !Since(s, c)[i].PutBack?
  {
    hide Replay, Ids, Applied;
    assert CallStands(s, c);
    var call := s.calls[c];
    var own, since := s.log[call.mark], Since(s, c);
    assert s.log == s.log[..call.mark] + ([own] + since);
    ReplayAppend(s.base, s.log[..call.mark], [own] + since);
    ReplayAppend(call.was.queue, [own], since);
    ReplayPush(call.was.queue, [], own);
    assert [] + [own] == [own];
    assert Replay(call.was.queue, []) == call.was.queue by { ReplayNothing(call.was.queue); }
    assert s.log[call.mark..] == [own] + since;
    IdsAppend([own], since);
    IdsPush([], own);
    IdsNone();
    assert forall i :: 0 <= i < |since| ==> since[i] == s.log[call.mark + 1 + i];
  }

  lemma ReplayNothing(q: seq<Item>)
    ensures Replay(q, []) == q
  {
  }

  /** In every run, for every receive whose save fails while it stands and in the same
      epoch: the failed save undoes more than its own receive exactly when another result
      was accepted since it began and still stands, or a tick that ended since had handled an
      item of the queue it puts back. */
  lemma FailedSaveUndoesMoreIff(cfg: Config, evs: seq<Event>, s: System, c: nat)
    requires Run(cfg, evs) == Some(s) && c in s.calls && Standing(s, c) && SameEpoch(s, s.calls[c])
    ensures UndoesMore(cfg, s, c) <==>
            AcceptedIn(Since(s, c)) || exists x :: x in s.calls[c].was.queue && HandledIn(Since(s, c), x.uid)
  {
    hide Replay, Ids, LogInv, AlwaysInv, CallStands;
    RunIsLogged(cfg, evs);
    AnyRunIsSound(cfg, evs);
    FailedFinds(s, c);
    if UndoesMore(cfg, s, c) { OnlyIf(cfg, s, c); }
    if AcceptedIn(Since(s, c)) { AcceptedIsForgotten(cfg, s, c); }
    if x :| x in s.calls[c].was.queue && HandledIn(Since(s, c), x.uid) { HandledIsBack(cfg, s, c, x); }
  }

  lemma FailedLeaves(cfg: Config, s: System, c: nat)
    requires LogInv(s) && c in s.calls && Standing(s, c) && SameEpoch(s, s.calls[c])
    ensures var s1 := Step(cfg, s, SaveFailed(c));
            s1.ci.queue == s.calls[c].was.queue && s1.ci.seen == s.calls[c].was.seen
  {
    hide Replay, Ids;
    FailedFinds(s, c);
    assert CallStands(s, c);
    var call := s.calls[c];
    assert s.ci.seen[..|call.was.seen|] == call.was.seen;
  }

  lemma OnlyIf(cfg: Config, s: System, c: nat)
    requires LogInv(s) && c in s.calls && Standing(s, c) && SameEpoch(s, s.calls[c]) && UndoesMore(cfg, s, c)
    ensures AcceptedIn(Since(s, c)) || exists x :: x in s.calls[c].was.queue && HandledIn(Since(s, c), x.uid)
  {
    hide Replay, Ids, HandledIn, AcceptedIn, Since;
    FailedFinds(s, c);
    FailedLeaves(cfg, s, c);
    var call, since := s.calls[c], Since(s, c);
    OwnItem(s, c);
    var own := s.log[call.mark];
    if x :| x in s.ci.queue && x !in call.was.queue && x.uid != call.was.nextUid {
      ReplaySource(Applied(call.was.queue, own), since, x);
      WithoutLaneIs(call.was.queue, call.run.lane);
    } else if id :| id != call.run.id && Some(id) in s.ci.seen && Some(id) !in call.was.seen {
      assert Some(id) in Ids(since);
      IdsAre(since);
      assert AcceptedIn(since) by { AcceptedId(since, id); }
    }
  }

  lemma AcceptedId(log: seq<Change>, id: RunId)
    requires exists i :: 0 <= i < |log| && log[i].Accepted? && Some(id) == Some(log[i].run.id)
    ensures AcceptedIn(log)
  {
  }

  lemma OwnItem(s: System, c: nat)
    requires LogInv(s) && c in s.calls && Standing(s, c)
    ensures var own := s.log[s.calls[c].mark];
            own.Accepted? && own.run == s.calls[c].run && (own.item.Some? ==> own.item.value.uid == s.calls[c].was.nextUid)
  {
    hide Replay, Ids;
    assert CallStands(s, c);
    assert EntryOk(s.log[s.calls[c].mark], s.ci.nextUid);
  }

  lemma AcceptedIsForgotten(cfg: Config, s: System, c: nat)
    requires LogInv(s) && Sound(s.ci, cfg.cap) && c in s.calls && Standing(s, c) && SameEpoch(s, s.calls[c]) && AcceptedIn(Since(s, c))
    ensures UndoesMore(cfg, s, c)
  {
    hide Replay, Ids, Since, Standing, LogInv;
    FailedFinds(s, c);
    FailedLeaves(cfg, s, c);
    var call, since := s.calls[c], Since(s, c);
    var i :| 0 <= i < |since| && since[i].Accepted?;
    IdsAre(since);
    var id := since[i].run.id;
    assert Some(id) in Ids(since);
    var k :| 0 <= k < |Ids(since)| && Ids(since)[k] == Some(id);
    var at := |call.was.seen| + 1 + k;
    assert s.ci.seen[at] == Some(id);
    assert s.ci.seen[|call.was.seen|] == Some(call.run.id);
    assert id != call.run.id;
    forall j | 0 <= j < |call.was.seen| ensures call.was.seen[j] != Some(id) { assert s.ci.seen[j] == call.was.seen[j]; }
  }

  lemma HandledIsBack(cfg: Config, s: System, c: nat, x: Item)
    requires LogInv(s) && c in s.calls && Standing(s, c) && SameEpoch(s, s.calls[c])
    requires x in s.calls[c].was.queue && HandledIn(Since(s, c), x.uid)
    ensures UndoesMore(cfg, s, c)
  {
    hide Replay, Ids, HandledIn;
    FailedFinds(s, c);
    FailedLeaves(cfg, s, c);
    var call, since := s.calls[c], Since(s, c);
    assert CallStands(s, c);
    forall i | 0 <= i < |since| && since[i].Accepted? && since[i].item.Some? ensures since[i].item.value.uid != x.uid {
      assert since[i] == s.log[call.mark + 1 + i];
      assert EntryOk(s.log[call.mark + 1 + i], s.ci.nextUid);
      assert s.log[call.mark].uid < s.log[call.mark + 1 + i].uid;
    }
    HandledIsGone(Applied(call.was.queue, s.log[call.mark]), since, x.uid);
  }

  /** The same when ids may have been dropped since: instead of any result accepted since, it
      takes one that is still queued, or an id that lies beyond the length put back. */
  lemma FailedSaveUndoesMoreWhenFullIff(cfg: Config, evs: seq<Event>, s: System, c: nat)
    requires Run(cfg, evs) == Some(s) && c in s.calls && Standing(s, c)
    requires forall i :: 0 <= i < |Since(s, c)| ==> !Since(s, c)[i].PutBack?
    ensures UndoesMore(cfg, s, c) <==>
            || (exists x :: x in s.ci.queue && x.uid > s.calls[c].was.nextUid)
            || (exists k :: s.calls[c].before.seen <= k < |s.ci.seen| && s.ci.seen[k] !in {None, Some(s.calls[c].run.id)})
            || (exists x :: x in s.calls[c].was.queue && HandledIn(Since(s, c), x.uid))
  {
    hide Replay, Ids, HandledIn, LogInv, AlwaysInv, Since, Resize, NoRepeats, Standing;
    RunIsLogged(cfg, evs);
    SoundRun(cfg, evs);
    var call := s.calls[c];
    PutsBack(cfg, s, c);
    forall x | x in s.ci.queue ensures x !in call.was.queue && x.uid != call.was.nextUid <==> x.uid > call.was.nextUid { LaterItem(s, c, x); }
    LengthPutBack(s.ci.seen, call.before.seen);
    if exists k :: call.before.seen <= k < |s.ci.seen| && s.ci.seen[k] !in {None, Some(call.run.id)} {
      var k :| call.before.seen <= k < |s.ci.seen| && s.ci.seen[k] !in {None, Some(call.run.id)};
      var id := s.ci.seen[k].value;
      assert Some(id) in s.ci.seen && id != call.run.id;
    }
    if id :| id != call.run.id && Some(id) in s.ci.seen && Some(id) !in Resize(s.ci.seen, call.before.seen) {
      var k :| 0 <= k < |s.ci.seen| && s.ci.seen[k] == Some(id);
      assert k >= call.before.seen;
    }
    forall x | x in call.was.queue && HandledIn(Since(s, c), x.uid) ensures x !in s.ci.queue { HandledLeft(s, c, x); }
  }

  lemma SoundRun(cfg: Config, evs: seq<Event>)
    requires Run(cfg, evs).Some?
    ensures NoRepeats(Run(cfg, evs).value.ci.seen)
  {
    AnyRunIsSound(cfg, evs);
  }

  lemma PutsBack(cfg: Config, s: System, c: nat)
    requires LogInv(s) && c in s.calls
    ensures var s1 := Step(cfg, s, SaveFailed(c));
            s1.ci.queue == s.calls[c].was.queue && s1.ci.seen == Resize(s.ci.seen, s.calls[c].before.seen)
  {
    assert CallStands(s, c);
  }

  /** With no id twice, setting the length forgets exactly what lies beyond it. */
  lemma LengthPutBack(seen: seq<Option<RunId>>, n: nat)
    requires NoRepeats(seen)
    ensures forall k :: 0 <= k < |seen| && seen[k].Some? ==> (seen[k] in Resize(seen, n) <==> k < n)
  {
    forall k | 0 <= k < |seen| && seen[k].Some? ensures seen[k] in Resize(seen, n) <==> k < n {
      if k < n { assert Resize(seen, n)[k] == seen[k]; }
    }
  }

  lemma QueueFound(s: System, c: nat)
    requires LogInv(s) && c in s.calls && Standing(s, c)
    ensures s.ci.queue == Replay(Applied(s.calls[c].was.queue, s.log[s.calls[c].mark]), Since(s, c))
  {
    hide Replay, Ids, Applied;
    assert CallStands(s, c);
    var call := s.calls[c];
    var own, since := s.log[call.mark], Since(s, c);
    assert s.log == s.log[..call.mark] + ([own] + since);
    ReplayAppend(s.base, s.log[..call.mark], [own] + since);
    ReplayAppend(call.was.queue, [own], since);
    ReplayPush(call.was.queue, [], own);
    assert [] + [own] == [own];
    ReplayNothing(call.was.queue);
  }

  lemma {:induction false} ReplayItems(q: seq<Item>, log: seq<Change>, x: Item)
    requires x in Replay(q, log) && forall i :: 0 <= i < |log| ==> !log[i].PutBack?
    ensures x in q || exists i :: 0 <= i < |log| && log[i].Accepted? && log[i].item == Some(x)
  {
    if log != [] && x !in q {
      var front, last := log[..|log| - 1], log[|log| - 1];
      if last.Accepted? && last.item == Some(x) {
        assert log[|log| - 1].Accepted? && log[|log| - 1].item == Some(x);
      } else {
        if last.Accepted? { WithoutLaneIs(Replay(q, front), last.run.lane); }
        if last.Ticked? { UnhandledIs(Replay(q, front), last.handled); }
        ReplayItems(q, front, x);
        var i :| 0 <= i < |front| && front[i].Accepted? && front[i].item == Some(x);
        assert log[i].Accepted? && log[i].item == Some(x);
      }
    }
  }

  /** A queued item that the failed save takes away, and is not its own, was accepted later. */
  lemma LaterItem(s: System, c: nat, x: Item)
    requires LogInv(s) && c in s.calls && Standing(s, c) && x in s.ci.queue
    requires forall i :: 0 <= i < |Since(s, c)| ==> !Since(s, c)[i].PutBack?
    ensures x !in s.calls[c].was.queue && x.uid != s.calls[c].was.nextUid <==> x.uid > s.calls[c].was.nextUid
  {
    hide Replay, Ids;
    QueueFound(s, c);
    OwnItem(s, c);
    assert CallStands(s, c);
    var call, since := s.calls[c], Since(s, c);
    var own := s.log[call.mark];
    ReplayItems(Applied(call.was.queue, own), since, x);
    WithoutLaneIs(call.was.queue, own.run.lane);
    if x !in Applied(call.was.queue, own) {
      var i :| 0 <= i < |since| && since[i].Accepted? && since[i].item == Some(x);
      assert since[i] == s.log[call.mark + 1 + i];
      assert EntryOk(s.log[call.mark + 1 + i], s.ci.nextUid);
      assert own.uid < s.log[call.mark + 1 + i].uid;
    }
  }

  lemma HandledLeft(s: System, c: nat, x: Item)
    requires LogInv(s) && c in s.calls && Standing(s, c)
    requires forall i :: 0 <= i < |Since(s, c)| ==> !Since(s, c)[i].PutBack?
    requires x in s.calls[c].was.queue && HandledIn(Since(s, c), x.uid)
    ensures x !in s.ci.queue
  {
    hide Replay, Ids, HandledIn;
    QueueFound(s, c);
    assert CallStands(s, c);
    var call, since := s.calls[c], Since(s, c);
    forall i | 0 <= i < |since| && since[i].Accepted? && since[i].item.Some? ensures since[i].item.value.uid != x.uid {
      assert since[i] == s.log[call.mark + 1 + i];
      assert EntryOk(s.log[call.mark + 1 + i], s.ci.nextUid);
      assert s.log[call.mark].uid < s.log[call.mark + 1 + i].uid;
    }
    HandledIsGone(Applied(call.was.queue, s.log[call.mark]), since, x.uid);
  }

  // ---------------------------------------------------------------- the id of a failed receive

  /** The place of a receive's own id among all ids ever remembered. */
  function Place(call: Call): nat {
    |call.was.seen| + call.dropped
  }

  /** The id a receive recorded is still where it was put: it has not been dropped, and no
      failed save since has ended the list before it. */
  predicate StillKept(s: System, call: Call) {
    s.dropped <= Place(call) && forall j :: call.cuts <= j < |s.cuts| ==> s.cuts[j] > Place(call)
  }

  ghost predicate PlaceOk(s: System, call: Call) {
    && call.cuts <= |s.cuts| && call.dropped <= s.dropped && call.before.seen == |call.was.seen|
    && (StillKept(s, call) ==> Place(call) - s.dropped < |s.ci.seen| && s.ci.seen[Place(call) - s.dropped] == Some(call.run.id))
  }

  lemma StepKeepsPlaces(cfg: Config, s: System, ev: Event)
    requires Enabled(s, ev) && forall c :: c in s.calls ==> PlaceOk(s, s.calls[c])
    ensures forall c :: c in Step(cfg, s, ev).calls ==> PlaceOk(Step(cfg, s, ev), Step(cfg, s, ev).calls[c])
  {
    var s' := Step(cfg, s, ev);
    forall c | c in s'.calls ensures PlaceOk(s', s'.calls[c]) {
      var call := s'.calls[c];
      if ev.Receive? && c == s.nextCall && s' != s {
        assert call.dropped == s.dropped;
      } else {
        assert PlaceOk(s, call);
        if ev.SaveFailed? && StillKept(s', call) {
          assert s'.cuts[|s.cuts|] > Place(call);
          assert forall j :: call.cuts <= j < |s.cuts| ==> s.cuts[j] == s'.cuts[j];
          assert StillKept(s, call);
        }
      }
    }
  }

  lemma {:induction false} RunKeepsPlaces(cfg: Config, evs: seq<Event>)
    requires Run(cfg, evs).Some?
    ensures forall c :: c in Run(cfg, evs).value.calls ==> PlaceOk(Run(cfg, evs).value, Run(cfg, evs).value.calls[c])
  {
    hide PlaceOk, Step;
    if evs == [] {
      assert Run(cfg, evs).value.calls == map[];
    } else {
      RunKeepsPlaces(cfg, evs[..|evs| - 1]);
      StepKeepsPlaces(cfg, Run(cfg, evs[..|evs| - 1]).value, evs[|evs| - 1]);
    }
  }

  /** In every run, for every receive whose save fails, whatever happened in between: nothing
      is queued that it did not find, and yet its id stays remembered, so that the sender's
      retry is refused, exactly when ids were dropped since it began, as long as its own id
      is where it was put.  Otherwise the same run must have been accepted once more, and be
      remembered before the length put back. */
  lemma RetryIsRefusedIff(cfg: Config, evs: seq<Event>, s: System, c: nat)
    requires Run(cfg, evs) == Some(s) && c in s.calls
    ensures var call, s1 := s.calls[c], Step(cfg, s, SaveFailed(c));
      && (Some(call.run.id) in s1.ci.seen <==>
            if StillKept(s, call) then s.dropped > call.dropped
            else exists j :: 0 <= j < |s.ci.seen| && j < |call.was.seen| && s.ci.seen[j] == Some(call.run.id))
      && forall x :: x in s1.ci.queue ==> x in call.was.queue && x.uid < call.was.nextUid
  {
    hide Run, LogInv, CallStands;
    RunKeepsPlaces(cfg, evs);
    SoundRun(cfg, evs);
    RunIsLogged(cfg, evs);
    PutsBack(cfg, s, c);
    FoundIsOlder(s, c);
    assert PlaceOk(s, s.calls[c]);
    LengthPutBack(s.ci.seen, s.calls[c].before.seen);
  }

  lemma FoundIsOlder(s: System, c: nat)
    requires LogInv(s) && c in s.calls
    ensures forall x :: x in s.calls[c].was.queue ==> x.uid < s.calls[c].was.nextUid
  {
    assert CallStands(s, c);
  }

  /** While a receive stands and no overtaken save has failed, later receives come after it
      and failed saves have left its id alone. */
  ghost predicate Uncut(s: System, c: nat)
    requires c in s.calls
  {
    var call := s.calls[c];
    call.was.nextUid < s.ci.nextUid && call.putBacks <= s.putBacks &&
    (Standing(s, c) && call.putBacks == s.putBacks ==>
      && (forall j :: call.cuts <= j < |s.cuts| ==> s.cuts[j] > Place(call))
      && (forall d :: d in s.calls && Standing(s, d) && s.calls[d].mark > call.mark ==> Place(call) < Place(s.calls[d])))
  }

  ghost predicate UncutInv(s: System) {
    && (forall c :: c in s.calls ==> c < s.nextCall && PlaceOk(s, s.calls[c]) && Uncut(s, c))
  }

  lemma ReceiveUncut(cfg: Config, s: System, run: CiRun, now: int)
    requires UncutInv(s) && Some(run.id) !in s.ci.seen
    ensures UncutInv(Step(cfg, s, Receive(run, now)))
  {
    hide Begin;
    BeginApplies(s.ci, run, now, cfg.cap);
    var s' := Step(cfg, s, Receive(run, now));
    StepKeepsPlaces(cfg, s, Receive(run, now));
    forall c | c in s'.calls ensures Uncut(s', c) {
      var call := s'.calls[c];
      if c != s.nextCall {
        assert Uncut(s, c) && PlaceOk(s, call);
        if Standing(s', c) {
          assert Standing(s, c);
          forall d | d in s'.calls && Standing(s', d) && s'.calls[d].mark > call.mark && call.putBacks == s'.putBacks ensures Place(call) < Place(s'.calls[d]) {
            if d != s.nextCall { assert Uncut(s, d) && Standing(s, d); }
          }
        }
      }
    }
  }

  lemma FailedUncut(cfg: Config, s: System, c: nat)
    requires UncutInv(s) && c in s.calls
    ensures UncutInv(Step(cfg, s, SaveFailed(c)))
  {
    hide Resize;
    var s' := Step(cfg, s, SaveFailed(c));
    StepKeepsPlaces(cfg, s, SaveFailed(c));
    forall d | d in s'.calls ensures Uncut(s', d) {
      assert Uncut(s, d) && PlaceOk(s, s.calls[c]);
      if Standing(s', d) && s'.calls[d].putBacks == s'.putBacks {
        assert Standing(s, c) && Standing(s, d);
        assert Place(s.calls[c]) <= s'.cuts[|s.cuts|];
        assert forall j :: 0 <= j < |s.cuts| ==> s'.cuts[j] == s.cuts[j];
        assert forall e :: e in s'.calls && Standing(s', e) ==> Standing(s, e);
      }
    }
  }

  lemma OtherUncut(cfg: Config, s: System, ev: Event)
    requires UncutInv(s) && Enabled(s, ev) && !ev.Receive? && !ev.SaveFailed?
    ensures UncutInv(Step(cfg, s, ev))
  {
    var s' := Step(cfg, s, ev);
    StepKeepsPlaces(cfg, s, ev);
    forall d | d in s'.calls ensures Uncut(s', d) {
      assert Uncut(s, d);
      assert forall e :: e in s'.calls && Standing(s', e) ==> e in s.calls && s'.calls[e] == s.calls[e] && Standing(s, e);
    }
  }

  lemma {:induction false} RunIsUncut(cfg: Config, evs: seq<Event>)
    requires Run(cfg, evs).Some?
    ensures UncutInv(Run(cfg, evs).value)
  {
    hide UncutInv, Step;
    if evs == [] {
      assert UncutInv(START) by { StartIsUncut(); }
    } else {
      var before := evs[..|evs| - 1];
      RunIsUncut(cfg, before);
      StepUncut(cfg, Run(cfg, before).value, evs[|evs| - 1]);
    }
  }

  lemma StartIsUncut()
    ensures UncutInv(START)
  {
  }

  lemma StepUncut(cfg: Config, s: System, ev: Event)
    requires UncutInv(s) && Enabled(s, ev)
    ensures UncutInv(Step(cfg, s, ev))
  {
    hide UncutInv;
    match ev
    case Receive(run, now) => if Some(run.id) !in s.ci.seen { ReceiveUncut(cfg, s, run, now); }
    case SaveFailed(c) => FailedUncut(cfg, s, c);
    case _ => OtherUncut(cfg, s, ev);
  }

  /** For a receive that stands when its save fails, with no overtaken save failed since: its
      retry is refused exactly when ids were dropped since it began, unless so many were that
      its own was among them and the same run has not been accepted once more. */
  lemma StandingRetryIsRefusedIff(cfg: Config, evs: seq<Event>, s: System, c: nat)
    requires Run(cfg, evs) == Some(s) && c in s.calls && Standing(s, c) && s.calls[c].putBacks == s.putBacks
    ensures var call := s.calls[c];
      Some(call.run.id) in Step(cfg, s, SaveFailed(c)).ci.seen <==>
        && s.dropped > call.dropped
        && (s.dropped - call.dropped > |call.was.seen| ==>
              exists j :: 0 <= j < |s.ci.seen| && j < |call.was.seen| && s.ci.seen[j] == Some(call.run.id))
  {
    hide Run;
    RunIsUncut(cfg, evs);
    assert Uncut(s, c);
    RetryIsRefusedIff(cfg, evs, s, c);
  }

  /** How many results had been accepted when the event at `i` came. */
  function AcceptedBy(cfg: Config, evs: seq<Event>, i: nat): nat
    requires i <= |evs|
  {
    var s := Run(cfg, evs[..i]);
    if s.Some? then |s.value.history| else 0
  }

  predicate NoFailure(evs: seq<Event>, p: nat) {
    forall i :: p <= i < |evs| ==> !evs[i].SaveFailed? && !evs[i].Restart?
  }

  /** Some save after the first `p` events found the list at least `k` past its limit. */
  ghost predicate SavedPast(cfg: Config, evs: seq<Event>, p: nat, seen: nat, k: nat)
    requires p <= |evs|
  {
    exists i :: p <= i < |evs| && evs[i].Saved? && seen + AcceptedBy(cfg, evs, i) - AcceptedBy(cfg, evs, p) >= 2000 + k
  }

  /** While no save fails, ids are dropped by the saves that come when more than SEEN_LIMIT
      are remembered: at least `k` have been dropped since some moment exactly when at one of
      the saves since then the ids found at that moment and the results accepted up to that
      save made the limit and `k` more. */
  lemma {:induction false} DroppedSince(cfg: Config, evs: seq<Event>, p: nat, k: nat)
    requires Run(cfg, evs).Some? && p <= |evs| && NoFailure(evs, p) && k > 0
    ensures Run(cfg, evs[..p]).Some?
    ensures var s0, s := Run(cfg, evs[..p]).value, Run(cfg, evs).value;
      && s.dropped + |s.ci.seen| == s0.dropped + |s0.ci.seen| + AcceptedBy(cfg, evs, |evs|) - AcceptedBy(cfg, evs, p)
      && AcceptedBy(cfg, evs, |evs|) >= AcceptedBy(cfg, evs, p)
      && (s.dropped >= s0.dropped + k <==> SavedPast(cfg, evs, p, |s0.ci.seen|, k))
  {
    hide Begin;
    if p == |evs| {
      assert evs[..p] == evs;
    } else {
      var n := |evs| - 1;
      var front := evs[..n];
      assert front[..p] == evs[..p] && evs[..n + 1] == evs && front[..n] == front;
      assert forall i :: p <= i < n ==> front[i] == evs[i];
      DroppedSince(cfg, front, p, k);
      forall i | p <= i <= n ensures AcceptedBy(cfg, front, i) == AcceptedBy(cfg, evs, i) { assert front[..i] == evs[..i]; }
      var s0, s1, ev := Run(cfg, evs[..p]).value, Run(cfg, front).value, evs[n];
      OneMoreDropped(cfg, s1, ev);
      SavedPastOneMore(cfg, evs, p, |s0.ci.seen|, k);
    }
  }

  lemma OneMoreDropped(cfg: Config, s: System, ev: Event)
    requires Enabled(s, ev) && !ev.SaveFailed? && !ev.Restart?
    ensures var s1 := Step(cfg, s, ev);
      && s1.dropped + |s1.ci.seen| - |s1.history| == s.dropped + |s.ci.seen| - |s.history| && |s1.history| >= |s.history|
      && s1.dropped == if ev.Saved? && |s.ci.seen| > SEEN_LIMIT then s.dropped + |s.ci.seen| - SEEN_LIMIT else s.dropped
  {
  }

  lemma SavedPastOneMore(cfg: Config, evs: seq<Event>, p: nat, seen: nat, k: nat)
    requires p < |evs| && evs[..|evs| - 1][..p] == evs[..p]
    ensures var n := |evs| - 1;
      SavedPast(cfg, evs, p, seen, k) <==>
        || SavedPast(cfg, evs[..n], p, seen, k)
        || (evs[n].Saved? && seen + AcceptedBy(cfg, evs, n) - AcceptedBy(cfg, evs, p) >= 2000 + k)
  {
    hide Run;
    var n := |evs| - 1;
    var front := evs[..n];
    forall i | p <= i <= n ensures AcceptedBy(cfg, front, i) == AcceptedBy(cfg, evs, i) { assert front[..i] == evs[..i]; }
    if SavedPast(cfg, front, p, seen, k) {
      var i :| p <= i < |front| && front[i].Saved? && seen + AcceptedBy(cfg, front, i) - AcceptedBy(cfg, front, p) >= 2000 + k;
      assert evs[i].Saved?;
    }
    if SavedPast(cfg, evs, p, seen, k) {
      var i :| p <= i < |evs| && evs[i].Saved? && seen + AcceptedBy(cfg, evs, i) - AcceptedBy(cfg, evs, p) >= 2000 + k;
      if i < n { assert front[i].Saved?; }
    }
  }

  // ---------------------------------------------------------------- a failed save queues an item again

  predicate Queues(ch: Change, x: Item) {
    match ch
    case Accepted(_, _, item) => item == Some(x)
    case Ticked(_) => false
    case PutBack(queue) => x in queue
  }

  /** A newer result of its lane was accepted, a tick handled it, or an overtaken save put a
      queue back without it. */
  predicate Removes(ch: Change, x: Item) {
    match ch
    case Accepted(run, _, item) => run.lane == x.run.lane && item != Some(x)
    case Ticked(handled) => x.uid in handled
    case PutBack(queue) => x !in queue
  }

  /** No change that stands queued the item: the receive it came with was taken back. */
  ghost predicate TakenBack(base: seq<Item>, log: seq<Change>, x: Item) {
    x !in base && forall i :: 0 <= i < |log| ==> !Queues(log[i], x)
  }

  /** A change that stands removed the item, and no later one queued it. */
  ghost predicate Removed(log: seq<Change>, x: Item) {
    exists j :: 0 <= j < |log| && Removes(log[j], x) && forall i :: j < i < |log| ==> !Queues(log[i], x)
  }

  lemma AppliedHas(q: seq<Item>, ch: Change, x: Item)
    ensures x in Applied(q, ch) <==> Queues(ch, x) || (x in q && !Removes(ch, x))
  {
    match ch
    case Accepted(run, _, item) => WithoutLaneIs(q, run.lane);
    case Ticked(handled) => UnhandledIs(q, handled);
    case PutBack(queue) =>
  }

  /** The queue holds an item exactly when the last change that says something about it is
      one that queued it. */
  lemma {:induction false} ReplayHas(q: seq<Item>, log: seq<Change>, x: Item)
    ensures x !in Replay(q, log) <==> TakenBack(q, log, x) || Removed(log, x)
  {
    hide Applied, Queues, Removes;
    if log != [] {
      var n := |log| - 1;
      var front := log[..n];
      ReplayHas(q, front, x);
      AppliedHas(Replay(q, front), log[n], x);
      assert forall i :: 0 <= i < n ==> front[i] == log[i];
      QueuesOrRemoves(log[n], x);
      if !Queues(log[n], x) {
        if Removes(log[n], x) {
          assert Removed(log, x);
        } else {
          LastSays(log, x);
          assert TakenBack(q, log, x) <==> TakenBack(q, front, x);
        }
      } else {
        assert !TakenBack(q, log, x);
      }
    }
  }

  lemma QueuesOrRemoves(ch: Change, x: Item)
    ensures !(Queues(ch, x) && Removes(ch, x))
  {
  }

  lemma LastSays(log: seq<Change>, x: Item)
    requires log != [] && !Queues(log[|log| - 1], x) && !Removes(log[|log| - 1], x)
    ensures Removed(log, x) <==> Removed(log[..|log| - 1], x)
  {
    hide Queues, Removes;
    var n := |log| - 1;
    var front := log[..n];
    if Removed(front, x) {
      var j :| 0 <= j < n && Removes(front[j], x) && forall i :: j < i < n ==> !Queues(front[i], x);
      assert Removes(log[j], x);
      assert forall i :: j < i < n ==> front[i] == log[i];
    }
    if Removed(log, x) {
      var j :| 0 <= j < |log| && Removes(log[j], x) && forall i :: j < i < |log| ==> !Queues(log[i], x);
      assert j < n && Removes(front[j], x);
      assert forall i :: j < i < n ==> front[i] == log[i];
    }
  }

  /** In every run, for every receive whose save fails, whether it still stands or an older
      failed save has overtaken it: its failed save queues an item again exactly when it had
      found the item queued and since then the receive that queued it was taken back, or
      something that stands removed it; and it takes an item away exactly when it had not
      found it and neither is so. */
  lemma FailedSaveQueuesAgainIff(cfg: Config, evs: seq<Event>, s: System, c: nat, x: Item)
    requires Run(cfg, evs) == Some(s) && c in s.calls
    ensures var was, now := s.calls[c].was.queue, Step(cfg, s, SaveFailed(c)).ci.queue;
      && (x in now && x !in s.ci.queue <==> x in was && (TakenBack(s.base, s.log, x) || Removed(s.log, x)))
      && (x !in now && x in s.ci.queue <==> x !in was && !TakenBack(s.base, s.log, x) && !Removed(s.log, x))
  {
    hide Run, Replay;
    RunIsLogged(cfg, evs);
    PutsBack(cfg, s, c);
    ReplayHas(s.base, s.log, x);
  }

  /** Of the remembered ids, the same failed save forgets those beyond the length it puts
      back. */
  lemma FailedSaveForgetsIff(cfg: Config, evs: seq<Event>, s: System, c: nat, id: RunId)
    requires Run(cfg, evs) == Some(s) && c in s.calls && Some(id) in s.ci.seen
    ensures Some(id) !in Step(cfg, s, SaveFailed(c)).ci.seen <==> exists k :: |s.calls[c].was.seen| <= k < |s.ci.seen| && s.ci.seen[k] == Some(id)
  {
    hide Run, Resize, NoRepeats, LogInv;
    RunIsLogged(cfg, evs);
    SoundRun(cfg, evs);
    PutsBack(cfg, s, c);
    LengthPutBack(s.ci.seen, s.calls[c].before.seen);
    assert s.calls[c].before.seen == |s.calls[c].was.seen| by { LengthFound(s, c); }
    var k :| 0 <= k < |s.ci.seen| && s.ci.seen[k] == Some(id);
  }

  lemma LengthFound(s: System, c: nat)
    requires LogInv(s) && c in s.calls
    ensures s.calls[c].before.seen == |s.calls[c].was.seen|
  {
    assert CallStands(s, c);
  }

  lemma {:induction false} UnhandledNone(q: seq<Item>, handled: set<nat>)
    requires forall x :: x in q ==> x.uid !in handled
    ensures Unhandled(q, handled) == q
  {
    if q != [] {
      assert q[0] in q;
      UnhandledNone(q[1..], handled);
    }
  }

  lemma RunMore(cfg: Config, evs: seq<Event>, ev: Event, s: System)
    requires Run(cfg, evs) == Some(s) && Enabled(s, ev)
    ensures Run(cfg, evs + [ev]) == Some(Step(cfg, s, ev))
    ensures QuietRun(cfg, evs + [ev]) <==> QuietRun(cfg, evs) && Quiet(s, ev)
  {
    assert (evs + [ev])[..|evs|] == evs;
  }

  /** The concrete case: the first result's save fails after the second was saved. */
  lemma LostResultExample(a: CiRun, b: CiRun)
    requires a.lane != b.lane && a.id != b.id
    ensures var evs := [Receive(a, 0)] + [Receive(b, 0)] + [Saved(1)] + [SaveFailed(0)];
      var r := Run(Config(RETRY_CAP, 1000), evs);
      r.Some? && !QuietRun(Config(RETRY_CAP, 1000), evs) && r.value.ci.queue == [] && b in r.value.diskH
  {
    hide Run, QuietRun;
    var cfg := Config(RETRY_CAP, 1000);
    var s1 := Step(cfg, START, Receive(a, 0));
    RunEmpty(cfg);
    RunMore(cfg, [], Receive(a, 0), START);
    assert [] + [Receive(a, 0)] == [Receive(a, 0)];
    assert s1.ci.seen == [Some(a.id)];
    var s2 := Step(cfg, s1, Receive(b, 0));
    RunMore(cfg, [Receive(a, 0)], Receive(b, 0), s1);
    assert s2.ci.seen == [Some(a.id), Some(b.id)] && s2.calls[1].afterH == [a, b];
    var s3 := Step(cfg, s2, Saved(1));
    RunMore(cfg, [Receive(a, 0)] + [Receive(b, 0)], Saved(1), s2);
    assert s3.calls[0].after.seen == [Some(a.id)];
    RunMore(cfg, [Receive(a, 0)] + [Receive(b, 0)] + [Saved(1)], SaveFailed(0), s3);
  }

  /** A save that fails after the save of an earlier receive failed: what is queued again is
      the earlier result, which nobody was told had been received. */
  lemma OvertakenSaveRevives(a: CiRun, b: CiRun)
    requires a.lane != b.lane && a.id != b.id
    ensures var evs := [Receive(a, 0)] + [Receive(b, 0)] + [SaveFailed(0)] + [SaveFailed(1)];
      var r := Run(Config(RETRY_CAP, 1000), evs);
      r.Some? && (exists x :: x in r.value.ci.queue && x.run == a) && Some(a.id) !in r.value.ci.seen
  {
    hide Run, QuietRun;
    var cfg := Config(RETRY_CAP, 1000);
    var s1 := Step(cfg, START, Receive(a, 0));
    RunEmpty(cfg);
    RunMore(cfg, [], Receive(a, 0), START);
    assert [] + [Receive(a, 0)] == [Receive(a, 0)];
    assert s1.ci.seen == [Some(a.id)];
    var s2 := Step(cfg, s1, Receive(b, 0));
    RunMore(cfg, [Receive(a, 0)], Receive(b, 0), s1);
    var s3 := Step(cfg, s2, SaveFailed(0));
    RunMore(cfg, [Receive(a, 0)] + [Receive(b, 0)], SaveFailed(0), s2);
    assert s3.ci.seen == [];
    var s4 := Step(cfg, s3, SaveFailed(1));
    RunMore(cfg, [Receive(a, 0)] + [Receive(b, 0)] + [SaveFailed(0)], SaveFailed(1), s3);
    assert s4.ci.queue == s1.ci.queue && s1.ci.queue[0].run == a;
  }

  lemma RunEmpty(cfg: Config)
    ensures Run(cfg, []) == Some(START)
  {
  }

  // ---------------------------------------------------------------- the queue object

  /** The runs of a tick's items that are not delivered any more: their session is gone, or
      they have waited too long. */
  function GoneRuns(q: seq<Item>, verdicts: seq<Verdict>, now: int, maxWaitMs: int): seq<CiRun>
    requires |q| == |verdicts|
  {
    if q == [] then []
    else
      var item, verdict := q[|q| - 1], verdicts[|q| - 1];
      GoneRuns(q[..|q| - 1], verdicts[..|q| - 1], now, maxWaitMs) +
      (if verdict.Gone? || (verdict.Wait? && now - item.receivedAt > maxWaitMs) then [item.run] else [])
  }

  lemma NoGoneRuns(q: seq<Item>, verdicts: seq<Verdict>, now: int, maxWaitMs: int)
    requires |q| == |verdicts|
    ensures GoneRuns(q[..0], verdicts[..0], now, maxWaitMs) == []
  {
  }

  lemma SameUid(q: seq<Item>, cap: nat, next: nat)
    requires QueueOk(q, cap, next)
    ensures forall i, j :: 0 <= i < |q| && 0 <= j < |q| && q[i].uid == q[j].uid ==> i == j
  {
  }

  lemma TickEndOf(cfg: Config, s: System, t: System, handled: set<nat>, escalated: seq<CiRun>)
    requires s.tick.None?
    requires var t0 := Step(cfg, s, TickStart); t == t0.(tick := Some(Tick([], handled, s.ci.nextUid)), escalated := escalated)
    ensures Enabled(t, TickEnd(true))
    ensures var s1 := Step(cfg, t, TickEnd(true));
            s1.ci == s.ci.(queue := Unhandled(s.ci.queue, handled)) && s1.escalated == escalated
  {
    if handled == {} { UnhandledNone(s.ci.queue, {}); }
  }

  lemma GoneRunsPush(q: seq<Item>, verdicts: seq<Verdict>, i: nat, now: int, maxWaitMs: int)
    requires i < |q| == |verdicts|
    ensures GoneRuns(q[..i + 1], verdicts[..i + 1], now, maxWaitMs) ==
            GoneRuns(q[..i], verdicts[..i], now, maxWaitMs) +
            (if verdicts[i].Gone? || (verdicts[i].Wait? && now - q[i].receivedAt > maxWaitMs) then [q[i].run] else [])
  {
    assert q[..i + 1][..i] == q[..i] && verdicts[..i + 1][..i] == verdicts[..i];
  }

  /** The visits of one tick, as far as they are enabled. */
  function Visited(cfg: Config, s: System, verdicts: seq<Verdict>, now: int): System {
    if verdicts == [] then s
    else
      var s1 := Visited(cfg, s, verdicts[..|verdicts| - 1], now);
      var ev := TickVisit(verdicts[|verdicts| - 1], now);
      if Enabled(s1, ev) then Step(cfg, s1, ev) else s1
  }

  lemma VisitedNone(cfg: Config, s: System, verdicts: seq<Verdict>, now: int)
    ensures Visited(cfg, s, verdicts[..0], now) == s
  {
  }

  lemma VisitedPush(cfg: Config, s: System, verdicts: seq<Verdict>, i: nat, now: int, q: seq<Item>, handled: set<nat>, escalated: seq<CiRun>)
    requires i < |verdicts| == |q| && s.tick.Some?
    requires Visited(cfg, s, verdicts[..i], now) == s.(tick := Some(s.tick.value.(todo := q[i..], handled := handled)), escalated := escalated)
    ensures var late := now - q[i].receivedAt > cfg.maxWaitMs;
            var gone := verdicts[i].Gone? || (verdicts[i].Wait? && late);
            Visited(cfg, s, verdicts[..i + 1], now) ==
            s.(tick := Some(s.tick.value.(todo := q[i + 1..], handled := if verdicts[i].Delivered? || gone then handled + {q[i].uid} else handled)),
               escalated := escalated + (if gone then [q[i].run] else []))
  {
    assert verdicts[..i + 1][..i] == verdicts[..i];
    assert q[i..][1..] == q[i + 1..];
  }

  class CiQueue {
    const cap: nat
    const maxWaitMs: int
    var queue: seq<Item>
    var streaks: map<Lane, nat>
    var seen: seq<Option<RunId>>
    var ticking: bool
    var nextUid: nat // object identities handed out

    function View(): Ci
      reads this
    {
      Ci(queue, streaks, seen, nextUid)
    }

    constructor (cap: nat, maxWaitMs: int)
      ensures View() == EMPTY && !ticking && this.cap == cap && this.maxWaitMs == maxWaitMs
    {
      this.cap, this.maxWaitMs := cap, maxWaitMs;
      queue, streaks, seen, ticking, nextUid := [], map[], [], false, 0;
    }

    /** Drop the item of this lane that still waits: a newer result supersedes it. */
    method Supersede(lane: Lane)
      modifies this`queue
      ensures queue == WithoutLane(old(queue), lane)
    {
      var rest := queue;
      var kept: seq<Item> := [];
      assert kept + WithoutLane(rest, lane) == WithoutLane(old(queue), lane);
      while rest != []
        invariant kept + WithoutLane(rest, lane) == WithoutLane(old(queue), lane)
        decreases |rest|
      {
        ghost var more := WithoutLane(rest[1..], lane);
        if rest[0].run.lane != lane {
          assert kept + ([rest[0]] + more) == (kept + [rest[0]]) + more;
          kept := kept + [rest[0]];
        }
        rest := rest[1..];
      }
      queue := kept;
      assert kept + [] == kept;
    }

    /** The first stretch of a receive, up to the save. */
    method ReceiveBegin(run: CiRun, now: int) returns (accepted: bool, before: Before, over: bool)
      modifies this
      ensures accepted <==> Some(run.id) !in old(seen)
      ensures !accepted ==> View() == old(View())
      ensures accepted ==>
        && View() == Begin(old(View()), run, now, cap)
        && before == Snapshot(old(View()), run.lane) && over == Over(old(View()), run, cap)
      ensures ticking == old(ticking)
    {
      before := Before(queue, if run.lane in streaks then Some(streaks[run.lane]) else None, |seen|);
      over := false;
      if Some(run.id) in seen { return false, before, over; }
      var failed := Failed(run.conclusion);
      var streak := if failed then (if run.lane in streaks then streaks[run.lane] else 0) + 1 else 0;
      if failed { streaks := streaks[run.lane := streak]; } else { streaks := streaks - {run.lane}; }
      Supersede(run.lane);
      over := failed && streak > cap;
      if !over { queue := queue + [Item(nextUid, run, streak, now)]; }
      nextUid := nextUid + 1;
      seen := seen + [Some(run.id)];
      accepted := true;
    }

    method ReceiveSaved()
      modifies this`seen
      ensures View() == Commit(old(View()))
    {
      if |seen| > SEEN_LIMIT { seen := seen[|seen| - SEEN_LIMIT..]; }
    }

    method ReceiveFailed(lane: Lane, before: Before)
      modifies this
      ensures View() == Undo(old(View()), lane, before) && ticking == old(ticking)
    {
      queue := before.queue;
      match before.streak {
        case None => streaks := streaks - {lane};
        case Some(n) => streaks := streaks[lane := n];
      }
      seen := Resize(seen, before.seen);
    }

    /** A whole receive with nothing in between.  A failed save leaves everything as it was
        but the counter of identities; a saved one agrees with the run system, which also
        says whether the result is escalated. */
    method ReceiveAlone(run: CiRun, now: int, saved: bool, ghost cfg: Config, ghost s: System) returns (accepted: bool, over: bool)
      requires cfg.cap == cap && s.ci == View() && s.nextCall !in s.calls
      modifies this
      ensures accepted <==> Some(run.id) !in old(seen)
      ensures !accepted ==> View() == old(View())
      ensures accepted && !saved ==> View() == old(View()).(nextUid := old(nextUid) + 1)
      ensures accepted && saved ==>
        var s1 := Step(cfg, Step(cfg, s, Receive(run, now)), Saved(s.nextCall));
        View() == s1.ci && s1.escalated == s.escalated + (if over then [run] else [])
      ensures ticking == old(ticking)
    {
      var before;
      accepted, before, over := ReceiveBegin(run, now);
      if !accepted { return; }
      UndoRestores(s.ci, run, now, cap);
      if saved { ReceiveSaved(); } else { ReceiveFailed(run.lane, before); }
    }

    /** One tick with nothing in between: every queued item is visited once, in order.  What
        is left, and who is escalated, is what the run system makes of the same verdicts. */
    method TickAlone(verdicts: seq<Verdict>, now: int, ghost cfg: Config, ghost s: System) returns (gone: seq<CiRun>)
      requires !ticking && |verdicts| == |queue|
      requires QueueOk(queue, cap, nextUid)
      requires cfg == Config(cap, maxWaitMs) && s.ci == View() && s.tick.None?
      modifies this
      ensures !ticking && streaks == old(streaks) && seen == old(seen)
      ensures forall i :: 0 <= i < |verdicts| ==>
        (old(queue)[i] in queue <==> verdicts[i].Wait? && now - old(queue)[i].receivedAt <= maxWaitMs)
      ensures forall x :: x in queue ==> x in old(queue)
      ensures gone == GoneRuns(old(queue), verdicts, now, maxWaitMs)
      ensures Enabled(Visited(cfg, Step(cfg, s, TickStart), verdicts, now), TickEnd(true))
      ensures var s1 := Step(cfg, Visited(cfg, Step(cfg, s, TickStart), verdicts, now), TickEnd(true));
        View() == s1.ci && s1.escalated == s.escalated + gone
    {
      hide Visited, GoneRuns, QueueOk;
      ticking := true;
      var handled;
      handled, gone := VisitQueue(verdicts, now, cfg, Step(cfg, s, TickStart));
      ghost var q := queue;
      UnhandledIs(queue, handled);
      SameUid(q, cap, nextUid);
      TickEndOf(cfg, s, Visited(cfg, Step(cfg, s, TickStart), verdicts, now), handled, s.escalated + gone);
      TickEnded(handled);
    }

    /** The visits of a tick that nothing interleaves with. */
    method VisitQueue(verdicts: seq<Verdict>, now: int, ghost cfg: Config, ghost t: System) returns (handled: set<nat>, gone: seq<CiRun>)
      requires |verdicts| == |queue| && cfg == Config(cap, maxWaitMs)
      requires t.tick == Some(Tick(queue, {}, nextUid))
      ensures forall u :: u in handled <==>
                (exists j :: 0 <= j < |queue| && queue[j].uid == u && !(verdicts[j].Wait? && now - queue[j].receivedAt <= maxWaitMs))
      ensures gone == GoneRuns(queue, verdicts, now, maxWaitMs)
      ensures Visited(cfg, t, verdicts, now) == t.(tick := Some(Tick([], handled, nextUid)), escalated := t.escalated + gone)
    {
      hide Visited, GoneRuns;
      handled, gone := {}, [];
      VisitedNone(cfg, t, verdicts, now);
      assert queue[0..] == queue;
      assert GoneRuns(queue[..0], verdicts[..0], now, maxWaitMs) == [] by { NoGoneRuns(queue, verdicts, now, maxWaitMs); }
      for i := 0 to |queue|
        invariant forall u :: u in handled <==>
                    (exists j :: 0 <= j < i && queue[j].uid == u && !(verdicts[j].Wait? && now - queue[j].receivedAt <= maxWaitMs))
        invariant gone == GoneRuns(queue[..i], verdicts[..i], now, maxWaitMs)
        invariant Visited(cfg, t, verdicts[..i], now) == t.(tick := Some(Tick(queue[i..], handled, nextUid)), escalated := t.escalated + gone)
      {
        var item := queue[i];
        GoneRunsPush(queue, verdicts, i, now, maxWaitMs);
        VisitedPush(cfg, t, verdicts, i, now, queue, handled, t.escalated + gone);
        var late := now - item.receivedAt > maxWaitMs;
        if verdicts[i].Delivered? {
          handled := handled + {item.uid};
        } else if verdicts[i].Gone? || late {
          handled := handled + {item.uid};
          gone := gone + [item.run];
        }
      }
      assert queue[..|queue|] == queue && verdicts[..|queue|] == verdicts && queue[|queue|..] == [];
    }

    /** The last stretch of a tick. */
    method TickEnded(handled: set<nat>)
      requires ticking
      modifies this
      ensures View() == old(View()).(queue := Unhandled(old(queue), handled)) && !ticking
    {
      if handled != {} { queue := Unhandled(queue, handled); } else { UnhandledNone(queue, handled); }
      ticking := false;
    }
  }
}