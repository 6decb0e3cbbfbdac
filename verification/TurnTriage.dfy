/** Which outcome a window's bell may show (app/turn-outcome.js, createTurnTriage).

    `observe` runs between any two awaits of the reading and deciding loop, so each method
    of the class is one stretch of code without an await.  A window's state is an object:
    it may be dropped and made anew while an old decision still holds the dropped one. */
module TurnTriage {
  import opened Options

  datatype Outcome = NeedsInput | Blocked | Failure | Working | Complete

  datatype Band = High | Medium | Uncertain

  datatype Decision = Decision(outcome: Option<Outcome>, band: Band, probability: real, confidence: real)

  const MIN_CONFIDENCE := 0.8
  const HIGH_CONFIDENCE := 0.95
  const MIN_TYPESAFE_CONFIDENCE := 0.6
  const MAX_ATTEMPTS: nat := 3
  const RETRY_AFTER_MS := 5000
  const CACHE_LIMIT: nat := 500

  predicate IsProbability(v: real) {
    0.0 <= v <= 1.0
  }

  function BandOf(probability: real, confidence: real): Band {
    if !IsProbability(confidence) || confidence < MIN_TYPESAFE_CONFIDENCE then Uncertain
    else if probability >= HIGH_CONFIDENCE then High
    else if probability >= MIN_CONFIDENCE then Medium
    else Uncertain
  }

  /** The outcome the page may show for a decision, held to both floors. */
  function Shown(d: Decision, minConfidence: real): (r: Option<Outcome>)
    ensures r.Some? ==> d.outcome == r && !d.band.Uncertain? && d.probability >= minConfidence && d.confidence >= MIN_TYPESAFE_CONFIDENCE
  {
    if d.outcome.Some? && !d.band.Uncertain? && d.probability >= minConfidence && IsProbability(d.confidence) && d.confidence >= MIN_TYPESAFE_CONFIDENCE
    then d.outcome else None
  }

  /** With the default floor a decision is shown exactly when its own band is not uncertain. */
  lemma ShownIffBanded(outcome: Outcome, probability: real, confidence: real)
    ensures Shown(Decision(Some(outcome), BandOf(probability, confidence), probability, confidence), MIN_CONFIDENCE).Some? <==>
            BandOf(probability, confidence) != Uncertain
    ensures BandOf(probability, confidence).High? <==> 0.6 <= confidence <= 1.0 && probability >= 0.95
    ensures BandOf(probability, confidence).Medium? <==> 0.6 <= confidence <= 1.0 && 0.8 <= probability < 0.95
  {
  }

  type Key = (string, string)

  datatype Window = Window(id: string, bell: bool, hibernated: bool, active: bool, attached: nat)

  datatype TurnKey = TurnKey(project: string, sessionId: string, uuid: string, digest: string)

  datatype Result = Result(turn: TurnKey, decision: Decision)

  class WindowState {
    var bell: bool
    var gen: nat
    var inflight: bool
    var attempts: nat
    var triedAt: int
    var result: Option<Result>
    /** The bell epoch of the window in which the current `gen` began. */
    ghost var born: nat

    constructor ()
      ensures !bell && gen == 0 && !inflight && attempts == 0 && triedAt == 0 && result == None
    {
      bell, gen, inflight, attempts, triedAt, result := false, 0, false, 0, 0, None;
    }
  }

  datatype Item = Item(key: Key, gen: nat)

  /** A decision waiting for the model's answer.  It holds the state object it began with. */
  datatype Job = Job(key: Key, gen: nat, state: WindowState, turn: TurnKey)

  function KeysOf(q: seq<Item>): set<Key> {
    set i | 0 <= i < |q| :: q[i].key
  }

  predicate DistinctKeys(q: seq<Item>) {
    forall i, j :: 0 <= i < j < |q| ==> q[i].key != q[j].key
  }

  predicate Rings(w: Window) {
    w.bell && !w.hibernated
  }

  /** Position in the page's order of urgency, most urgent first. */
  function Urgency(o: Outcome): nat {
    match o
    case Blocked => 0
    case NeedsInput => 1
    case Failure => 2
    case Complete => 3
    case Working => 4
  }

  function MostUrgent(s: set<Outcome>): (r: Outcome)
    requires s != {}
    ensures r in s && forall o :: o in s ==> Urgency(r) <= Urgency(o)
  {
    if Blocked in s then Blocked
    else if NeedsInput in s then NeedsInput
    else if Failure in s then Failure
    else if Complete in s then Complete
    else
      assert Working in s by { var o :| o in s; assert o.Working?; }
      Working
  }

  /** The tabs with a bell that nobody is looking at. */
  function Rung(list: seq<Window>): seq<Window> {
    if list == [] then []
    else (if list[0].bell && (!list[0].active || list[0].attached == 0) then [list[0]] else []) + Rung(list[1..])
  }

  lemma {:induction false} RungIs(list: seq<Window>)
    ensures forall w :: w in Rung(list) <==> w in list && w.bell && !(w.active && w.attached > 0)
  {
    if list != [] {
      RungIs(list[1..]);
      assert forall w :: w in list <==> w == list[0] || w in list[1..];
    }
  }

  class TurnTriageMachine {
    const minConfidence: real
    const recheckMs: int
    var windows: map<Key, WindowState>
    var pending: seq<Item>
    var batch: seq<Item>
    var running: bool
    var decided: map<TurnKey, Decision>
    var job: Option<Job>

    // The history, kept independently of the state objects.
    /** How often each window's bell was seen to rise or fall. */
    ghost var epoch: map<Key, nat>
    /** Whether the window's bell was up in the last listing that showed it. */
    ghost var up: map<Key, bool>
    /** The epoch in which each queued read was queued, and the pending decision's read. */
    ghost var queuedIn: map<Key, nat>
    ghost var jobEpoch: nat
    /** (window, epoch in which the read was queued, turn it found). */
    ghost var found: set<(Key, nat, TurnKey)>
    /** The model's answers. */
    ghost var answered: set<(TurnKey, Decision)>

    ghost function Objects(): set<object>
      reads this
    {
      (set k | k in windows :: windows[k] as object) + (if job.Some? then {job.value.state as object} else {})
    }

    function Queue(): seq<Item>
      reads this
    {
      batch + pending
    }

    ghost predicate WindowOk(k: Key)
      requires k in windows
      reads this, windows[k]
    {
      var s := windows[k];
      && k in epoch && k in up
      && s.bell == up[k]
      && (s.bell ==> s.born == epoch[k])
      && (s.result.Some? ==> s.bell && (k, epoch[k], s.result.value.turn) in found &&
                             (s.result.value.turn, s.result.value.decision) in answered)
      && (s.inflight <==> k in KeysOf(Queue()))
    }

    ghost predicate ItemOk(item: Item)
      reads this, if item.key in windows then {windows[item.key]} else {}
    {
      && item.key in windows && item.key in queuedIn
      && item.gen <= windows[item.key].gen
      && (item.gen == windows[item.key].gen ==> windows[item.key].bell && queuedIn[item.key] == windows[item.key].born)
    }

    ghost predicate QueueOk()
      reads this, Objects()
    {
      forall i :: 0 <= i < |Queue()| ==> ItemOk(Queue()[i])
    }

    ghost predicate WindowsOk()
      reads this, Objects()
    {
      forall k :: k in windows ==> WindowOk(k)
    }

    ghost predicate JobOk()
      reads this, Objects()
    {
      job.Some? ==>
        var j := job.value;
        && running
        && j.gen <= j.state.gen
        && (j.key, jobEpoch, j.turn) in found
        && (forall k :: k in windows && windows[k] == j.state ==> k == j.key)
        && (j.key in windows && windows[j.key] == j.state && j.state.gen == j.gen ==> j.state.bell && j.state.born == jobEpoch)
    }

    ghost predicate Valid()
      reads this, Objects()
    {
      && (forall j, k :: j in windows && k in windows && windows[j] == windows[k] ==> j == k)
      && DistinctKeys(Queue())
      && QueueOk() && WindowsOk()
      && (forall t :: t in decided ==> (t, decided[t]) in answered)
      && JobOk()
      && (batch != [] ==> running)
    }

    constructor (minConfidence: real, recheckMs: int)
      ensures Valid() && windows == map[] && Queue() == [] && !running && job.None?
      ensures this.minConfidence == minConfidence
    {
      this.minConfidence, this.recheckMs := minConfidence, recheckMs;
      windows, pending, batch, running, decided, job := map[], [], [], false, map[], None;
      epoch, up, queuedIn, jobEpoch, found, answered := map[], map[], map[], 0, {}, {};
    }

    /** The outcome shown for a window, as listed now. */
    function Annotated(project: string, w: Window): Option<Outcome>
      reads this, Objects()
    {
      var key := (project, w.id);
      if w.bell && key in windows && windows[key].bell && windows[key].result.Some?
      then Shown(windows[key].result.value.decision, minConfidence)
      else None
    }

    /** Whatever is shown was decided from a transcript read that was queued in the
        window's present bell epoch. */
    lemma ShownIsCurrent(project: string, w: Window)
      requires Valid() && Annotated(project, w).Some?
      ensures var key := (project, w.id);
        && key in epoch && key in up && up[key]
        && exists t, d :: (key, epoch[key], t) in found && (t, d) in answered && Shown(d, minConfidence) == Annotated(project, w)
    {
      var key := (project, w.id);
      assert WindowOk(key);
    }

    /** A window shows an outcome exactly when its bell is up in the listing and in the state
        kept for it, and the result kept has that outcome, is of a band and passes both floors. */
    lemma ShownIff(project: string, w: Window, o: Outcome)
      ensures Annotated(project, w) == Some(o) <==>
        && w.bell && (project, w.id) in windows && windows[(project, w.id)].bell
        && windows[(project, w.id)].result.Some?
        && (var d := windows[(project, w.id)].result.value.decision;
            d.outcome == Some(o) && !d.band.Uncertain? && d.probability >= minConfidence && 0.6 <= d.confidence <= 1.0)
    {
    }

    /** The rail's outcome: the most urgent among the rung tabs nobody is watching, and
        nothing while any of them is undecided. */
    function ProjectOutcome(project: string, list: seq<Window>): Option<Outcome>
      reads this, Objects()
    {
      var rung := Rung(list);
      if rung == [] || exists i :: 0 <= i < |rung| && Annotated(project, rung[i]).None? then None
      else
        var all := set i | 0 <= i < |rung| :: Annotated(project, rung[i]).value;
        assert Annotated(project, rung[0]).value in all;
        Some(MostUrgent(all))
    }

    /** A project is never shown calmer than its tabs warrant. */
    lemma NeverCalmer(project: string, list: seq<Window>)
      ensures var r := ProjectOutcome(project, list);
        && (r.None? <==> Rung(list) == [] || exists i :: 0 <= i < |Rung(list)| && Annotated(project, Rung(list)[i]).None?)
        && (r.Some? ==> exists i :: 0 <= i < |Rung(list)| && Annotated(project, Rung(list)[i]) == r)
        && (r.Some? ==> forall i :: 0 <= i < |Rung(list)| ==>
              Annotated(project, Rung(list)[i]).Some? && Urgency(r.value) <= Urgency(Annotated(project, Rung(list)[i]).value))
    {
      var rung := Rung(list);
      if rung != [] && forall i :: 0 <= i < |rung| ==> Annotated(project, rung[i]).Some? {
        var all := set i | 0 <= i < |rung| :: Annotated(project, rung[i]).value;
        assert Annotated(project, rung[0]).value in all;
      }
    }

    // ---------------------------------------------------------------- observe

    /** A listing showed this window's bell: its epoch moves on exactly when the bell
        rose or fell since the last listing that showed it. */
    twostate predicate Saw(key: Key, rings: bool)
      reads this
    {
      && up == old(up)[key := rings]
      && epoch == old(epoch)[key :=
           (if key in old(epoch) then old(epoch)[key] else 0) +
           (if (if key in old(up) then old(up)[key] else false) != rings then 1 else 0)]
    }

    ghost method Witness(key: Key, rings: bool)
      modifies this`epoch, this`up
      ensures Saw(key, rings)
    {
      var was := if key in up then up[key] else false;
      epoch := epoch[key := (if key in epoch then epoch[key] else 0) + (if was != rings then 1 else 0)];
      up := up[key := rings];
    }

    method Forget(key: Key)
      requires Valid() && key in windows && !windows[key].inflight
      modifies this`windows, this`epoch, this`up
      ensures Valid() && windows == old(windows) - {key}
      ensures Saw(key, false)
    {
      Witness(key, false);
      windows := windows - {key};
      assert WindowsOk() by {
        forall k | k in windows ensures WindowOk(k) { assert old(WindowOk(k)); }
      }
      assert QueueOk() by {
        forall i | 0 <= i < |Queue()| ensures ItemOk(Queue()[i]) {
          assert old(ItemOk(Queue()[i]));
          assert old(WindowOk(Queue()[i].key));
        }
      }
    }

    /** A read is in flight: the new generation will discard its result. */
    method Discard(key: Key)
      requires Valid() && key in windows && windows[key].inflight
      modifies this`epoch, this`up, windows[key]
      ensures Valid() && !windows[key].bell && windows[key].result.None? && windows[key].inflight
      ensures Saw(key, false)
    {
      Witness(key, false);
      var s := windows[key];
      s.bell := false;
      s.gen := s.gen + 1;
      s.result := None;
      assert WindowsOk() by {
        forall k | k in windows ensures WindowOk(k) { assert old(WindowOk(k)); }
      }
      QueueStill();
    }

    /** Enter a state object that nothing else holds. */
    ghost predicate Unshared(s: WindowState)
      reads this
    {
      && (forall k :: k in windows ==> windows[k] != s)
      && (job.Some? ==> job.value.state != s)
    }

    /** The window's state is as it was. */
    twostate predicate Same(new k: Key)
      reads this, windows.Values
    {
      && (k in windows <==> k in old(windows))
      && (k in windows && k in old(windows) ==> windows[k] == old(windows[k]) && unchanged(windows[k]))
    }

    /** What a window whose bell is still up keeps showing. */
    function ResultOf(k: Key): Option<Result>
      reads this, windows.Values
    {
      if k in windows && windows[k].bell then windows[k].result else None
    }

    method Install(key: Key, s: WindowState)
      requires Valid() && key !in windows && Unshared(s)
      requires s.bell && s.result.None? && !s.inflight
      modifies this`windows, this`epoch, this`up, s`born
      ensures Valid() && windows == old(windows)[key := s]
      ensures Saw(key, true)
    {
      QueuedHaveState();
      Witness(key, true);
      s.born := epoch[key];
      windows := windows[key := s];
      assert WindowsOk() by {
        forall k | k in windows ensures WindowOk(k) {
          if k != key { assert old(WindowOk(k)); }
        }
      }
      assert QueueOk() by {
        forall i | 0 <= i < |Queue()| ensures ItemOk(Queue()[i]) {
          assert old(ItemOk(Queue()[i]));
          assert Queue()[i].key in KeysOf(Queue());
        }
      }
    }

    /** The bell has just risen: nothing is shown yet and every attempt is left. */
    predicate RingsAnew(s: WindowState)
      reads s
    {
      s.bell && s.result.None? && s.attempts == 0 && s.triedAt == 0
    }

    /** The bell of a listed window is up and no state exists: make one. */
    method Appear(key: Key)
      requires Valid() && key !in windows
      modifies this`windows, this`epoch, this`up
      ensures Valid() && key in windows && fresh(windows[key]) && windows == old(windows)[key := windows[key]]
      ensures Saw(key, true) && RingsAnew(windows[key]) && !windows[key].inflight
    {
      var s := new WindowState();
      s.bell, s.gen := true, 1;
      Install(key, s);
      assert windows[key] == s;
    }

    /** A queued read keeps its window's state alive. */
    lemma QueuedHaveState()
      requires Valid()
      ensures forall k :: k in KeysOf(Queue()) ==> k in windows && windows[k].inflight
    {
      forall k | k in KeysOf(Queue()) ensures k in windows && windows[k].inflight {
        var i :| 0 <= i < |Queue()| && Queue()[i].key == k;
        assert ItemOk(Queue()[i]);
        assert WindowOk(k);
      }
    }

    /** The bell rang again: a new generation. */
    method Rise(key: Key)
      requires Valid() && key in windows && !windows[key].bell
      modifies this`epoch, this`up, windows[key]
      ensures Valid() && Saw(key, true)
      ensures RingsAnew(windows[key]) && windows[key].inflight == old(windows[key].inflight)
    {
      Witness(key, true);
      var s := windows[key];
      s.bell := true;
      s.gen := s.gen + 1;
      s.attempts := 0;
      s.result := None;
      s.triedAt := 0;
      s.born := epoch[key];
      assert WindowsOk() by {
        forall k | k in windows ensures WindowOk(k) { assert old(WindowOk(k)); }
      }
      QueueStill();
    }

    /** The bell is still up. */
    ghost method StillUp(key: Key)
      requires Valid() && key in windows && windows[key].bell
      modifies this`epoch, this`up
      ensures Valid() && Saw(key, true)
    {
      assert WindowOk(key);
      Witness(key, true);
      assert epoch == old(epoch) && up == old(up);
      assert WindowsOk() by {
        forall k | k in windows ensures WindowOk(k) { assert old(WindowOk(k)); }
      }
      QueueStill();
    }

    /** A decided window is read again now and then, an undecided one until its attempts
        are used up; never while a read is in flight. */
    predicate WantsRead(s: WindowState, now: int)
      reads s
    {
      && !s.inflight
      && (if s.result.Some? then now - s.triedAt >= recheckMs
          else s.attempts < MAX_ATTEMPTS && (s.attempts > 0 ==> now - s.triedAt >= RETRY_AFTER_MS))
    }

    /** A ringing window is being read, or was decided or read only now, or has been given up. */
    predicate Attended(key: Key, now: int)
      reads this, windows.Values
    {
      && key in windows && windows[key].bell
      && (|| key in KeysOf(Queue())
          || (windows[key].result.Some? && now - windows[key].triedAt < recheckMs)
          || (windows[key].result.None? && windows[key].attempts >= 3)
          || (windows[key].result.None? && windows[key].attempts > 0 && now - windows[key].triedAt < 5000))
    }

    /** The window had no bell up and no read in flight. */
    predicate Idle(key: Key)
      reads this, windows.Values
    {
      key in windows ==> !windows[key].bell && !windows[key].inflight
    }

    /** The reads queued stay queued. */
    twostate predicate QueueGrows()
      reads this
    {
      batch == old(batch) && old(pending) <= pending
    }

    twostate lemma StillQueued()
      requires QueueGrows()
      ensures KeysOf(old(Queue())) <= KeysOf(Queue()) && forall i :: i in old(Queue()) ==> i in Queue()
    {
      forall k | k in KeysOf(old(Queue())) ensures k in KeysOf(Queue()) {
        var i :| 0 <= i < |old(Queue())| && old(Queue())[i].key == k;
        assert Queue()[i] == old(Queue())[i];
      }
      forall x | x in old(Queue()) ensures x in Queue() {
        var i :| 0 <= i < |old(Queue())| && old(Queue())[i] == x;
        assert Queue()[i] == x;
      }
    }

    twostate predicate OnlyInflight(s: WindowState)
      reads s
    {
      && s.bell == old(s.bell) && s.gen == old(s.gen) && s.result == old(s.result)
      && s.attempts == old(s.attempts) && s.triedAt == old(s.triedAt) && s.born == old(s.born)
    }

    method QueueRead(key: Key, now: int)
      requires Valid() && key in windows && windows[key].bell
      modifies this`pending, this`queuedIn, windows[key]
      ensures Valid() && OnlyInflight(windows[key])
      ensures forall k :: k != key ==> Same(k)
      ensures QueueGrows() && Attended(key, now)
      ensures old(!windows[key].inflight && windows[key].result.None? && windows[key].attempts == 0) ==> Item(key, windows[key].gen) in pending
      ensures pending == if old(WantsRead(windows[key], now)) then old(pending) + [Item(key, windows[key].gen)] else old(pending)
    {
      assert WindowOk(key);
      QueueKeys(Queue());
      var s := windows[key];
      if s.inflight { return; }
      if s.result.Some? {
        if now - s.triedAt < recheckMs { return; }
      } else {
        if s.attempts >= MAX_ATTEMPTS { return; }
        if s.attempts > 0 && now - s.triedAt < RETRY_AFTER_MS { return; }
      }
      EnqueueRead(key);
    }

    method EnqueueRead(key: Key)
      requires Valid() && key in windows && windows[key].bell && !windows[key].inflight
      modifies this`pending, this`queuedIn, windows[key]
      ensures Valid() && OnlyInflight(windows[key]) && pending == old(pending) + [Item(key, windows[key].gen)]
      ensures windows[key].inflight && key in KeysOf(Queue()) && QueueGrows()
    {
      hide DistinctKeys, KeysOf;
      assert WindowOk(key);
      var s := windows[key];
      var item := Item(key, s.gen);
      QueuedOneMore(Queue(), item);
      QueueKeys(Queue());
      s.inflight := true;
      pending := pending + [item];
      queuedIn := queuedIn[key := epoch[key]];
      assert Queue() == old(Queue()) + [item];
      assert WindowsOk() by {
        forall k | k in windows ensures WindowOk(k) { assert old(WindowOk(k)); }
      }
      assert QueueOk() by {
        forall i | 0 <= i < |Queue()| ensures ItemOk(Queue()[i]) {
          if i < |old(Queue())| { assert old(ItemOk(Queue()[i])); }
        }
      }
    }

    static lemma QueueKeys(q: seq<Item>)
      ensures forall i :: 0 <= i < |q| ==> q[i].key in KeysOf(q)
    {
    }

    static lemma QueuedOneMore(q: seq<Item>, item: Item)
      requires DistinctKeys(q) && item.key !in KeysOf(q)
      ensures KeysOf(q + [item]) == KeysOf(q) + {item.key} && DistinctKeys(q + [item])
    {
      var r := q + [item];
      assert forall i :: 0 <= i < |q| ==> q[i].key in KeysOf(q);
      forall k | k in KeysOf(q) + {item.key} ensures k in KeysOf(r) {
        if k == item.key {
          assert r[|q|].key == k;
        } else {
          var i :| 0 <= i < |q| && q[i].key == k;
          assert r[i].key == k;
        }
      }
    }

    /** Only the states of `keep` stay; every window with a read in flight is among them. */
    method Retain(keep: set<Key>)
      requires Valid() && forall k :: k in windows && windows[k].inflight ==> k in keep
      modifies this`windows
      ensures Valid()
      ensures windows == map k | k in old(windows) && k in keep :: old(windows)[k]
    {
      QueuedHaveState();
      ghost var was := windows;
      windows := map k | k in windows && k in keep :: windows[k];
      assert forall k :: k in windows ==> k in was && windows[k] == was[k];
      assert WindowsOk() by {
        forall k | k in windows ensures WindowOk(k) { assert old(WindowOk(k)); }
      }
      assert QueueOk() by {
        forall i | 0 <= i < |Queue()| ensures ItemOk(Queue()[i]) {
          assert old(ItemOk(Queue()[i]));
          assert Queue()[i].key in KeysOf(Queue());
        }
      }
    }

    /** Windows of the project that are no longer listed are forgotten, unless a read is in flight. */
    method ForgetUnlisted(project: string, listed: set<Key>)
      requires Valid()
      modifies this`windows
      ensures Valid()
      ensures forall k :: k in windows <==> k in old(windows) && (k.0 != project || k in listed || old(windows)[k].inflight)
      ensures forall k :: k in windows ==> windows[k] == old(windows)[k]
    {
      Retain(set k | k in windows && (k.0 != project || k in listed || windows[k].inflight));
    }

    /** A listed window whose bell is up. */
    method BellRings(key: Key, now: int)
      requires Valid()
      modifies this`windows, this`pending, this`queuedIn, this`epoch, this`up, Objects()
      ensures Valid() && QueueGrows() && Saw(key, true) && Attended(key, now)
      ensures forall o :: o in Objects() ==> o in old(Objects()) || fresh(o)
      ensures forall k :: k != key ==> Same(k)
      ensures old(Idle(key)) ==> ReadQueued(key)
      ensures key in windows && windows[key].result == old(ResultOf(key))
    {
      hide WindowOk, ItemOk, DistinctKeys, KeysOf, Attended, WantsRead, WindowsOk, QueueOk, RingsAnew, Idle, ResultOf;
      BellIsUp(key);
      label risen:
      assert forall k :: k != key ==> (k in windows <==> k in old(windows)) && (k in windows ==> windows[k] == old(windows[k]) && unchanged(windows[k])) by {
        forall k | k != key ensures (k in windows <==> k in old(windows)) && (k in windows ==> windows[k] == old(windows[k]) && unchanged(windows[k])) {
          assert Same(k);
        }
      }
      QueueRead(key, now);
      forall k | k != key ensures Same(k) { assert Same@risen(k); }
    }

    /** One listed window. */
    method ObserveWindow(project: string, w: Window, now: int)
      requires Valid()
      modifies this`windows, this`pending, this`queuedIn, this`epoch, this`up, Objects()
      ensures Valid()
      ensures forall o :: o in Objects() ==> o in old(Objects()) || fresh(o)
      ensures Saw((project, w.id), Rings(w))
      ensures forall k :: k != (project, w.id) ==> Same(k)
      ensures !Rings(w) && (project, w.id) in windows ==> windows[(project, w.id)].result.None?
      ensures QueueGrows()
      ensures Rings(w) ==> Attended((project, w.id), now)
      ensures Rings(w) && old(Idle((project, w.id))) ==> ReadQueued((project, w.id))
      ensures Rings(w) ==> (project, w.id) in windows && windows[(project, w.id)].result == old(ResultOf((project, w.id)))
    {
      hide WindowOk, ItemOk, DistinctKeys, KeysOf, Attended;
      var key := (project, w.id);
      if Rings(w) {
        BellRings(key, now);
      } else {
        BellIsDown(key);
      }
    }

    /** The bell is gone: forget this window unless a read is in flight. */
    method BellIsDown(key: Key)
      requires Valid()
      modifies this`windows, this`epoch, this`up, Objects()
      ensures Valid() && Saw(key, false) && job == old(job)
      ensures key in windows ==> !windows[key].bell && windows[key].result.None? && windows[key].inflight
      ensures forall k :: k != key ==> Same(k)
      ensures forall o :: o in Objects() ==> o in old(Objects())
    {
      hide WindowOk, ItemOk, DistinctKeys, KeysOf;
      if key !in windows {
        Unseen(key);
      } else if windows[key].inflight {
        Discard(key);
      } else {
        Forget(key);
      }
    }

    method BellIsUp(key: Key)
      requires Valid()
      modifies this`windows, this`epoch, this`up, Objects()
      ensures Valid() && Saw(key, true) && key in windows && windows[key].bell && job == old(job)
      ensures if old(key in windows && windows[key].bell) then windows[key].result == old(ResultOf(key)) else RingsAnew(windows[key])
      ensures old(Idle(key)) ==> !windows[key].inflight && windows[key].result.None? && windows[key].attempts == 0
      ensures windows[key].result == old(ResultOf(key))
      ensures forall k :: k != key ==> Same(k)
      ensures windows[key] in old(Objects()) || fresh(windows[key])
      ensures forall o :: o in Objects() ==> o in old(Objects()) || fresh(o)
    {
      hide WindowOk, ItemOk, DistinctKeys, KeysOf;
      if key !in windows {
        Appear(key);
      } else if !windows[key].bell {
        Rise(key);
      } else {
        StillUp(key);
      }
    }

    /** A window without a state is listed with its bell down. */
    ghost method Unseen(key: Key)
      requires Valid() && key !in windows
      modifies this`epoch, this`up
      ensures Valid() && Saw(key, false)
    {
      Witness(key, false);
      assert WindowsOk() by {
        forall k | k in windows ensures WindowOk(k) { assert old(WindowOk(k)); }
      }
      QueueStill();
    }

    /** Later in the listing: what has been queued stays queued, other windows stay as they
        are, so what is attended to stays so. */
    twostate lemma StillAttended(new key: Key, new now: int)
      requires old(Attended(key, now)) && QueueGrows() && Same(key)
      ensures Attended(key, now)
    {
      StillQueued();
    }

    /** No later window of the listing has this one's id. */
    static predicate LastOf(list: seq<Window>, i: nat, n: nat)
      requires i < n <= |list|
    {
      list[i].id != "" && forall j :: i < j < n ==> list[j].id != list[i].id
    }

    /** No other window of the listing has this one's id. */
    static predicate OnlyOf(list: seq<Window>, i: nat)
      requires i < |list|
    {
      list[i].id != "" && forall j :: 0 <= j < |list| && j != i ==> list[j].id != list[i].id
    }

    /** What the listing has come to after its first `n` windows; `idle` are those that were
        idle before it. */
    ghost predicate SoFar(project: string, list: seq<Window>, n: nat, now: int, idle: set<Key>)
      requires n <= |list|
      reads this, windows.Values
    {
      && (forall i :: 0 <= i < n && LastOf(list, i, n) ==> Noticed((project, list[i].id), list[i], now))
      && (forall i :: 0 <= i < |list| && OnlyOf(list, i) && (project, list[i].id) in idle ==>
            if i < n then Rings(list[i]) ==> ReadQueued((project, list[i].id)) else Idle((project, list[i].id)))
    }

    /** The window was seen as listed, and is attended to when it rings. */
    ghost predicate Noticed(key: Key, w: Window, now: int)
      reads this, windows.Values
    {
      key in up && up[key] == Rings(w) && (Rings(w) ==> Attended(key, now))
    }

    /** A read is queued under the window's present generation. */
    predicate ReadQueued(key: Key)
      reads this, windows.Values
    {
      key in windows && Item(key, windows[key].gen) in Queue()
    }

    twostate lemma StillReadQueued(new key: Key)
      requires old(ReadQueued(key)) && QueueGrows() && Same(key)
      ensures ReadQueued(key)
    {
      StillQueued();
    }

    twostate lemma StillIdle(new key: Key)
      requires old(Idle(key)) && Same(key)
      ensures Idle(key)
    {
    }

    twostate lemma NoticedOneMore(new project: string, new list: seq<Window>, new n: nat, now: int)
      requires n < |list| && list[n].id != ""
      requires forall i :: 0 <= i < n && LastOf(list, i, n) ==> old(Noticed((project, list[i].id), list[i], now))
      requires QueueGrows() && Saw((project, list[n].id), Rings(list[n]))
      requires Rings(list[n]) ==> Attended((project, list[n].id), now)
      requires forall k :: k != (project, list[n].id) ==> Same(k)
      ensures forall i :: 0 <= i < n + 1 && LastOf(list, i, n + 1) ==> Noticed((project, list[i].id), list[i], now)
    {
      hide Attended, QueueGrows, Same, Rings;
      assert Noticed((project, list[n].id), list[n], now);
      forall i | 0 <= i < n && LastOf(list, i, n + 1) ensures Noticed((project, list[i].id), list[i], now) {
        assert LastOf(list, i, n);
        if Rings(list[i]) { StillAttended((project, list[i].id), now); }
      }
    }

    twostate lemma SoFarOneMore(new project: string, new list: seq<Window>, new n: nat, new now: int, idle: set<Key>)
      requires n < |list| && list[n].id != "" && old(SoFar(project, list, n, now, idle))
      requires QueueGrows() && Saw((project, list[n].id), Rings(list[n]))
      requires Rings(list[n]) ==> Attended((project, list[n].id), now)
      requires Rings(list[n]) && old(Idle((project, list[n].id))) ==> ReadQueued((project, list[n].id))
      requires forall k :: k != (project, list[n].id) ==> Same(k)
      ensures SoFar(project, list, n + 1, now, idle)
    {
      hide Attended, QueueGrows, Same, Idle, ReadQueued, Rings, Noticed, Saw;
      NoticedOneMore(project, list, n, now);
      forall i | 0 <= i < |list| && OnlyOf(list, i) && (project, list[i].id) in idle
        ensures if i < n + 1 then Rings(list[i]) ==> ReadQueued((project, list[i].id)) else Idle((project, list[i].id))
      {
        if i < n {
          if Rings(list[i]) { StillReadQueued((project, list[i].id)); }
        } else if i > n {
          StillIdle((project, list[i].id));
        }
      }
    }

    /** A window without an id is passed over. */
    lemma SoFarPassed(project: string, list: seq<Window>, n: nat, now: int, idle: set<Key>)
      requires n < |list| && list[n].id == "" && SoFar(project, list, n, now, idle)
      ensures SoFar(project, list, n + 1, now, idle)
    {
      hide Noticed, Idle, ReadQueued;
      forall i | 0 <= i < n + 1 && LastOf(list, i, n + 1) ensures i < n && LastOf(list, i, n) { }
    }

    /** Taking the batch leaves the queue as a whole, and the windows. */
    twostate lemma SoFarStill(new project: string, new list: seq<Window>, new now: int, idle: set<Key>)
      requires old(SoFar(project, list, |list|, now, idle))
      requires Queue() == old(Queue()) && windows == old(windows) && up == old(up) && (forall k :: k in windows ==> unchanged(windows[k]))
      ensures SoFar(project, list, |list|, now, idle)
    {
    }

    lemma SoFarNone(project: string, list: seq<Window>, now: int, idle: set<Key>)
      requires forall k :: k in idle ==> Idle(k)
      ensures SoFar(project, list, 0, now, idle)
    {
    }

    lemma SoFarAll(project: string, list: seq<Window>, now: int, idle: set<Key>)
      requires SoFar(project, list, |list|, now, idle)
      ensures forall i :: 0 <= i < |list| && LastOf(list, i, |list|) ==> Noticed((project, list[i].id), list[i], now)
      ensures forall i :: 0 <= i < |list| && OnlyOf(list, i) && Rings(list[i]) && (project, list[i].id) in idle ==> ReadQueued((project, list[i].id))
    {
      hide Noticed, ReadQueued;
    }

    /** One window of a listing. */
    method ObserveListed(project: string, list: seq<Window>, n: nat, now: int, ghost idle: set<Key>)
      requires Valid() && n < |list| && SoFar(project, list, n, now, idle)
      modifies this`windows, this`pending, this`queuedIn, this`epoch, this`up, Objects()
      ensures Valid() && SoFar(project, list, n + 1, now, idle)
      ensures forall o :: o in Objects() ==> o in old(Objects()) || fresh(o)
      ensures forall k: Key :: k.0 != project ==> Same(k)
      ensures forall k: Key :: k != (project, list[n].id) ==> Same(k)
    {
      hide Valid, Rings, SoFar, Attended, Idle, LastOf, OnlyOf, KeysOf, ReadQueued, Noticed, Saw, QueueGrows;
      if list[n].id == "" {
        SoFarPassed(project, list, n, now, idle);
      } else {
        ObserveWindow(project, list[n], now);
        SoFarOneMore(project, list, n, now, idle);
      }
    }

    /** The window is in the listing. */
    static predicate Lists(project: string, list: seq<Window>, key: Key) {
      exists i :: 0 <= i < |list| && key == (project, list[i].id)
    }

    method ObserveAll(project: string, list: seq<Window>, now: int, ghost idle: set<Key>)
      requires Valid() && SoFar(project, list, 0, now, idle)
      modifies this`windows, this`pending, this`queuedIn, this`epoch, this`up, Objects()
      ensures Valid() && SoFar(project, list, |list|, now, idle)
      ensures forall o :: o in Objects() ==> o in old(Objects()) || fresh(o)
      ensures forall k: Key :: k.0 != project ==> Same(k)
      ensures forall k: Key :: !Lists(project, list, k) ==> Same(k)
    {
      hide Valid, SoFar;
      for i := 0 to |list|
        invariant Valid() && SoFar(project, list, i, now, idle)
        invariant forall o :: o in Objects() ==> o in old(Objects()) || fresh(o)
        invariant forall k: Key :: k.0 != project ==> Same(k)
        invariant forall k: Key :: !Lists(project, list, k) ==> Same(k)
      {
        label before:
        ObserveListed(project, list, i, now, idle);
        forall k: Key | k.0 != project ensures Same(k) { assert Same@before(k); }
        forall k: Key | !Lists(project, list, k) ensures Same(k) { assert Same@before(k); }
      }
    }

    /** Called with every listing of a project's windows. */
    method Observe(project: string, list: seq<Window>, now: int)
      requires Valid()
      modifies this, Objects()
      ensures Valid()
      ensures forall o :: o in Objects() ==> o in old(Objects()) || fresh(o)
      ensures forall k: Key :: k.0 != project ==> Same(k)
      ensures forall i :: 0 <= i < |list| && LastOf(list, i, |list|) ==> Noticed((project, list[i].id), list[i], now)
      ensures forall i :: 0 <= i < |list| && OnlyOf(list, i) && Rings(list[i]) && old(Idle((project, list[i].id))) ==>
        ReadQueued((project, list[i].id))
      ensures Queue() != [] ==> running
      ensures forall k :: k in windows && k.0 == project ==> Lists(project, list, k) || old(k in windows && windows[k].inflight)
    {
      hide WindowsOk, QueueOk, SoFar, Attended, LastOf, OnlyOf, Noticed, ReadQueued, Rings;
      ghost var idle := set i | 0 <= i < |list| && Idle((project, list[i].id)) :: (project, list[i].id);
      ForgetUnlisted(project, set i | 0 <= i < |list| :: (project, list[i].id));
      label begun:
      SoFarNone(project, list, now, idle);
      ObserveAll(project, list, now, idle);
      forall k | k in windows && k.0 == project && !Lists(project, list, k)
        ensures old(k in windows && windows[k].inflight)
      {
        assert Same@begun(k);
      }
      label listed:
      if !running { TakeBatch(); }
      SoFarStill@listed(project, list, now, idle);
      SoFarAll(project, list, now, idle);
    }

    /** The reading loop takes everything queued, or stops. */
    method TakeBatch()
      requires Valid() && batch == [] && job.None?
      modifies this`running, this`batch, this`pending
      ensures Valid() && pending == [] && batch == old(pending) && running == (batch != [])
    {
      assert Queue() == pending;
      running := pending != [];
      batch, pending := pending, [];
      assert Queue() == old(Queue());
      assert WindowsOk() by {
        forall k | k in windows ensures WindowOk(k) { assert old(WindowOk(k)); }
      }
      QueueStill();
    }

    // ---------------------------------------------------------------- the reading loop

    static lemma QueuedOneLess(b: seq<Item>, p: seq<Item>)
      requires b != [] && DistinctKeys(b + p)
      ensures DistinctKeys(b[1..] + p)
      ensures KeysOf(b[1..] + p) == KeysOf(b + p) - {b[0].key}
      ensures forall i :: 0 <= i < |b[1..] + p| ==> (b[1..] + p)[i] == (b + p)[i + 1]
    {
      var q, r := b + p, b[1..] + p;
      assert q[0] == b[0];
      assert r == q[1..];
      forall k | k in KeysOf(q) - {b[0].key} ensures k in KeysOf(r) {
        var i :| 0 <= i < |q| && q[i].key == k;
        assert r[i - 1].key == k;
      }
      forall k | k in KeysOf(r) ensures k in KeysOf(q) - {b[0].key} {
        var i :| 0 <= i < |r| && r[i].key == k;
        assert q[i + 1].key == k;
      }
    }

    /** Take the next item of the batch; its window's read is no longer in flight. */
    method TakeItem() returns (item: Item, stale: bool, ghost queued: nat)
      requires Valid() && running && job.None? && batch != []
      modifies this`batch, windows.Values
      ensures Valid() && windows == old(windows) && item == old(batch)[0] && batch == old(batch)[1..]
      ensures item.key in queuedIn && queued == queuedIn[item.key]
      ensures forall k :: k in windows ==> OnlyInflight(windows[k])
      ensures item.key in windows ==> !windows[item.key].inflight
      ensures stale <==> item.key !in windows || windows[item.key].gen != item.gen
      ensures !stale ==>
        && item.key in windows && windows[item.key].gen == item.gen
        && windows[item.key].bell && windows[item.key].born == queued && !windows[item.key].inflight
    {
      item := batch[0];
      assert Queue()[0] == item;
      assert ItemOk(item);
      QueuedOneLess(batch, pending);
      queued := queuedIn[item.key];
      batch := batch[1..];
      stale := item.key !in windows || windows[item.key].gen != item.gen;
      if item.key in windows { windows[item.key].inflight := false; }
      assert WindowsOk() by {
        forall k | k in windows ensures WindowOk(k) { assert old(WindowOk(k)); }
      }
      assert QueueOk() by {
        forall i | 0 <= i < |Queue()| ensures ItemOk(Queue()[i]) {
          assert Queue()[i] == old(Queue())[i + 1];
          assert old(ItemOk(Queue()[i + 1]));
        }
      }
    }

    /** Change only what no invariant depends on. */
    method Note(s: WindowState, attempts: nat, triedAt: int)
      requires Valid() && s in Objects()
      modifies s`attempts, s`triedAt
      ensures Valid() && s.attempts == attempts && s.triedAt == triedAt
    {
      s.attempts, s.triedAt := attempts, triedAt;
      assert WindowsOk() by {
        forall k | k in windows ensures WindowOk(k) { assert old(WindowOk(k)); }
      }
      QueueStill();
    }

    /** Store or drop the result of a state object that is current for its window. */
    method SetResult(key: Key, result: Option<Result>)
      requires Valid() && key in windows
      requires result.Some? ==> windows[key].bell && key in epoch && (key, epoch[key], result.value.turn) in found &&
                                (result.value.turn, result.value.decision) in answered
      modifies windows[key]
      ensures Valid() && windows[key].result == result
      ensures var s := windows[key];
        && s.bell == old(s.bell) && s.gen == old(s.gen) && s.inflight == old(s.inflight)
        && s.attempts == old(s.attempts) && s.triedAt == old(s.triedAt) && s.born == old(s.born)
    {
      windows[key].result := result;
      assert WindowsOk() by {
        forall k | k in windows ensures WindowOk(k) { assert old(WindowOk(k)); }
      }
      QueueStill();
    }

    /** The transcript read found this turn. */
    ghost method Found(key: Key, queued: nat, turn: TurnKey)
      requires Valid()
      modifies this`found
      ensures Valid() && found == old(found) + {(key, queued, turn)}
    {
      found := found + {(key, queued, turn)};
      assert WindowsOk() by {
        forall k | k in windows ensures WindowOk(k) { assert old(WindowOk(k)); }
      }
      QueueStill();
    }

    /** Begin to ask the model; the decision keeps the state object it began with. */
    method Ask(key: Key, turn: TurnKey, ghost queued: nat)
      requires Valid() && running && job.None? && key in windows
      requires windows[key].bell && windows[key].born == queued && (key, queued, turn) in found
      modifies this`job, this`jobEpoch
      ensures Valid() && job.Some? && job.value == Job(key, windows[key].gen, windows[key], turn) && jobEpoch == queued
    {
      job := Some(Job(key, windows[key].gen, windows[key], turn));
      jobEpoch := queued;
      assert WindowsOk() by {
        forall k | k in windows ensures WindowOk(k) { assert old(WindowOk(k)); }
      }
      QueueStill();
    }

    /** One item of the batch, up to the point where the model is asked. */
    method NextItem(tail: Option<TurnKey>, now: int)
      requires Valid() && running && job.None? && batch != []
      modifies this`batch, this`found, this`job, this`jobEpoch, windows.Values
      ensures Valid() && windows == old(windows) && batch == old(batch)[1..]
      ensures job.Some? ==> job.value.key == old(batch)[0].key && tail == Some(job.value.turn)
      ensures var item := old(batch)[0];
        item.key in windows && windows[item.key].gen == item.gen && tail.Some? ==>
          windows[item.key].result == (if old(item.key in windows && Describes(windows[item.key].result, tail.value)) then old(windows[item.key].result)
                                       else if tail.value in decided then Some(Result(tail.value, decided[tail.value])) else None)
      ensures var item := old(batch)[0];
        item.key in windows ==> !windows[item.key].inflight && (windows[item.key].gen == item.gen ==> windows[item.key].triedAt == now)
    {
      ghost var queued: nat;
      var item, stale;
      item, stale, queued := TakeItem();
      if stale { return; }
      var s := windows[item.key];
      Note(s, s.attempts, now);
      Decide(item.key, tail, now, queued);
    }

    /** The result is about this very turn. */
    static predicate Describes(result: Option<Result>, turn: TurnKey) {
      result.Some? && result.value.turn == turn
    }

    method Decide(key: Key, tail: Option<TurnKey>, now: int, ghost queued: nat)
      requires Valid() && running && job.None? && key in windows
      requires windows[key].bell && windows[key].born == queued
      modifies this`found, this`job, this`jobEpoch, windows[key]
      ensures Valid()
      ensures job.Some? ==> job.value == Job(key, windows[key].gen, windows[key], job.value.turn) && tail == Some(job.value.turn)
      ensures tail.None? ==> job.None? && windows[key].result == old(windows[key].result)
      ensures tail.None? && windows[key].result.None? ==> windows[key].attempts == old(windows[key].attempts) + 1
      ensures tail.Some? && Describes(old(windows[key].result), tail.value) ==> job.None? && windows[key].result == old(windows[key].result)
      ensures tail.Some? && !Describes(old(windows[key].result), tail.value) ==>
        && windows[key].result == (if tail.value in decided then Some(Result(tail.value, decided[tail.value])) else None)
        && (job.Some? <==> tail.value !in decided)
        && (old(windows[key].result).Some? ==> windows[key].attempts == 0)
      ensures tail.None? && windows[key].result.Some? ==> windows[key].attempts == old(windows[key].attempts)
      ensures windows[key].triedAt == old(windows[key].triedAt) && windows[key].inflight == old(windows[key].inflight)
    {
      hide WindowOk, ItemOk;
      var s := windows[key];
      assert s in Objects();
      if tail.None? { // mid-turn, or not an agent's pane
        if s.result.None? { Note(s, s.attempts + 1, s.triedAt); }
        return;
      }
      var turn := tail.value;
      Found(key, queued, turn);
      if s.result.Some? {
        if s.result.value.turn == turn { return; }
        // a newer turn ended: the old outcome stops describing this window now
        SetResult(key, None);
        Note(s, 0, s.triedAt);
      }
      if turn in decided { UseCached(key, turn, queued); } else { Ask(key, turn, queued); }
    }

    method UseCached(key: Key, turn: TurnKey, ghost queued: nat)
      requires Valid() && key in windows && turn in decided
      requires windows[key].bell && windows[key].born == queued && (key, queued, turn) in found
      modifies windows[key]
      ensures Valid() && windows[key].result == Some(Result(turn, decided[turn])) && windows[key].attempts == old(windows[key].attempts)
      ensures windows[key].triedAt == old(windows[key].triedAt) && windows[key].inflight == old(windows[key].inflight)
    {
      assert WindowOk(key);
      SetResult(key, Some(Result(turn, decided[turn])));
    }

    ghost method Learn(turn: TurnKey, d: Decision)
      requires Valid()
      modifies this`answered
      ensures Valid() && answered == old(answered) + {(turn, d)}
    {
      answered := answered + {(turn, d)};
      assert WindowsOk() by {
        forall k | k in windows ensures WindowOk(k) { assert old(WindowOk(k)); }
      }
      QueueStill();
    }

    /** Remember an answer; the cache is bounded. */
    method Remember(turn: TurnKey, d: Decision)
      requires Valid()
      modifies this`decided, this`answered
      ensures Valid() && (turn, d) in answered
      ensures var all := old(decided)[turn := d];
        if |all| > 500 then exists t :: t in all && decided == all - {t} else decided == all
    {
      Learn(turn, d);
      Cache(turn, d);
    }

    method Cache(turn: TurnKey, d: Decision)
      requires Valid() && (turn, d) in answered
      modifies this`decided
      ensures Valid()
      ensures var all := old(decided)[turn := d];
        if |all| > 500 then exists t :: t in all && decided == all - {t} else decided == all
    {
      decided := decided[turn := d];
      if |decided| > CACHE_LIMIT {
        var oldest: TurnKey :| oldest in decided; // the one entered first
        decided := decided - {oldest};
      }
      assert forall t :: t in decided ==> (t, decided[t]) in answered;
      assert WindowsOk() by {
        forall k | k in windows ensures WindowOk(k) { assert old(WindowOk(k)); }
      }
      QueueStill();
    }

    /** The queue's condition survives any change of a state that starts a new generation
        or leaves generation, bell and epoch alone. */
    twostate lemma QueueStill()
      requires old(QueueOk()) && windows == old(windows) && Queue() == old(Queue()) && queuedIn == old(queuedIn)
      requires forall k :: k in windows ==>
        || windows[k].gen > old(windows[k].gen)
        || (windows[k].gen == old(windows[k].gen) && windows[k].bell == old(windows[k].bell) && windows[k].born == old(windows[k].born))
      ensures QueueOk()
    {
      forall i | 0 <= i < |Queue()| ensures ItemOk(Queue()[i]) { assert old(ItemOk(Queue()[i])); }
    }

    /** The model has answered, or failed to.  A decision begun in an epoch that is over
        changes nothing that any window shows. */
    method Answered(answer: Option<Decision>)
      requires Valid() && job.Some?
      modifies this`job, this`decided, this`answered, job.value.state
      ensures Valid() && job.None? && windows == old(windows)
      ensures var j := old(job).value;
        forall k :: k in windows && (k != j.key || epoch[k] != jobEpoch) ==> windows[k].result == old(windows[k].result)
      ensures var j := old(job).value;
        answer.None? || j.key !in windows || windows[j.key] != j.state || j.state.gen != j.gen ==>
          forall k :: k in windows ==> windows[k].result == old(windows[k].result)
      ensures answer.None? ==> old(job).value.state.attempts == old(job.value.state.attempts) + 1
      ensures answer.Some? ==> old(job).value.state.attempts == old(job.value.state.attempts)
      ensures var j := old(job).value;
        answer.Some? && j.key in windows && windows[j.key] == j.state && j.state.gen == j.gen ==>
          windows[j.key].result == Some(Result(j.turn, answer.value)) && epoch[j.key] == jobEpoch
    {
      hide ItemOk;
      var j := job.value;
      assert j.state in Objects();
      if answer.None? {
        Note(j.state, j.state.attempts + 1, j.state.triedAt);
      } else {
        Remember(j.turn, answer.value);
        if j.state.gen == j.gen { Conclude(Result(j.turn, answer.value)); }
      }
      Dismiss();
    }

    /** The decision's state object has had no bell edge since: it takes the result. */
    method Conclude(result: Result)
      requires Valid() && job.Some? && job.value.state.gen == job.value.gen
      requires result.turn == job.value.turn && (result.turn, result.decision) in answered
      modifies job.value.state
      ensures Valid()
      ensures forall k :: k in windows && windows[k] != job.value.state ==> windows[k].result == old(windows[k].result)
      ensures job.value.state.gen == old(job.value.state.gen) && job.value.state.attempts == old(job.value.state.attempts)
      ensures var j := job.value;
        j.key in windows && windows[j.key] == j.state ==> j.state.result == Some(result) && j.key in epoch && epoch[j.key] == jobEpoch
    {
      var j := job.value;
      if j.key in windows && windows[j.key] == j.state {
        assert WindowOk(j.key);
        SetResult(j.key, Some(result));
      } else {
        OrphanResult(Some(result));
      }
    }

    /** The dropped state object of a window takes a result that nothing shows. */
    method OrphanResult(result: Option<Result>)
      requires Valid() && job.Some? && !(job.value.key in windows && windows[job.value.key] == job.value.state)
      modifies job.value.state
      ensures Valid() && job.value.state.gen == old(job.value.state.gen) && job.value.state.attempts == old(job.value.state.attempts)
    {
      var s := job.value.state;
      assert forall k :: k in windows ==> windows[k] != s;
      s.result := result;
      assert WindowsOk() by {
        forall k | k in windows ensures WindowOk(k) { assert old(WindowOk(k)); }
      }
      QueueStill();
    }

    method Dismiss()
      requires Valid() && job.Some?
      modifies this`job
      ensures Valid() && job.None?
    {
      job := None;
      assert WindowsOk() by {
        forall k | k in windows ensures WindowOk(k) { assert old(WindowOk(k)); }
      }
      QueueStill();
    }
  }
}
