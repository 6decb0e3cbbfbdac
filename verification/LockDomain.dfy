/** The ordered, re-entrant lock domain (app/credential-domain-lock.js).

    A call of `withLocks` is a frame: it inherits what its caller's chain holds, acquires
    what is missing in the canonical order, runs its function, whose own calls are child
    frames, and releases in reverse order once they have all returned.  The kernel lock is
    a plain mutex. */
module LockDomain {
  import opened Options

  datatype Lock = Lifecycle | Workspace | Projects | Credential

  const LOCK_ORDER := [Lifecycle, Workspace, Projects, Credential]

  function Rank(l: Lock): nat {
    match l
    case Lifecycle => 0
    case Workspace => 1
    case Projects => 2
    case Credential => 3
  }

  function LockNamed(name: string): Option<Lock> {
    if name == "lifecycle" then Some(Lifecycle)
    else if name == "workspace" then Some(Workspace)
    else if name == "projects" then Some(Projects)
    else if name == "credential" then Some(Credential)
    else None
  }

  /** The names, in the canonical order. */
  const NAMES := ["lifecycle", "workspace", "projects", "credential"]

  /** The order by names, by locks and by ranks is one. */
  lemma NamesInOrder()
    ensures forall name :: LockNamed(name).Some? <==> name in NAMES
    ensures forall i :: 0 <= i < 4 ==> LockNamed(NAMES[i]) == Some(LOCK_ORDER[i]) && Rank(LOCK_ORDER[i]) == i
    ensures forall l :: Rank(l) < 4 && LOCK_ORDER[Rank(l)] == l
  {
  }

  // ---------------------------------------------------------------- planning a call

  datatype Plan =
    | Unknown(name: string)
    | OutOfOrder(offender: Lock, blocker: Lock)
    | Acquire(toAcquire: seq<Lock>, nextHeld: set<Lock>)

  function LocksOf(ls: seq<Lock>): set<Lock> {
    set l | l in ls
  }

  predicate Ascending(ls: seq<Lock>) {
    forall i, j :: 0 <= i < j < |ls| ==> Rank(ls[i]) < Rank(ls[j])
  }

  predicate Above(ls: seq<Lock>, held: set<Lock>) {
    forall i, h :: 0 <= i < |ls| && h in held ==> Rank(h) < Rank(ls[i])
  }

  function Requested(names: seq<string>): set<Lock> {
    set i | 0 <= i < |names| && LockNamed(names[i]).Some? :: LockNamed(names[i]).value
  }

  predicate AllKnown(names: seq<string>) {
    forall i :: 0 <= i < |names| ==> LockNamed(names[i]).Some?
  }

  /** The four locks from rank `r` on that are in `s`, in order. */
  function InOrderFrom(s: set<Lock>, r: nat): (ls: seq<Lock>)
    requires r <= 4
    ensures Ascending(ls) && forall l :: l in ls <==> l in s && Rank(l) >= r
    decreases 4 - r
  {
    if r == 4 then []
    else
      var rest := InOrderFrom(s, r + 1);
      assert Rank(LOCK_ORDER[r]) == r && forall l :: Rank(l) == r ==> l == LOCK_ORDER[r];
      assert forall i :: 0 <= i < |rest| ==> rest[i] in rest;
      if LOCK_ORDER[r] in s then [LOCK_ORDER[r]] + rest else rest
  }

  /** Asking for a lock below one already held is refused, and only that. */
  predicate Refused(held: set<Lock>, requested: set<Lock>) {
    exists l, h :: l in requested && l !in held && h in held && Rank(l) < Rank(h)
  }

  /** The lowest new lock against the highest held one. */
  method OutOfOrderPair(held: set<Lock>, toAcquire: seq<Lock>) returns (r: Option<(Lock, Lock)>)
    requires Ascending(toAcquire) && forall l :: l in toAcquire ==> l !in held
    ensures r.None? ==> Above(toAcquire, held)
    ensures r.Some? ==> r.value.0 in toAcquire && r.value.1 in held && Rank(r.value.0) < Rank(r.value.1)
  {
    var heldInOrder := InOrderFrom(held, 0);
    if toAcquire == [] || heldInOrder == [] {
      assert heldInOrder == [] ==> forall h :: h in held ==> h in heldInOrder;
      return None;
    }
    var lowest, highest := toAcquire[0], heldInOrder[|heldInOrder| - 1];
    assert lowest in toAcquire && highest in heldInOrder;
    if Rank(lowest) < Rank(highest) { return Some((lowest, highest)); }
    HighestIsAbove(held, heldInOrder, toAcquire);
    r := None;
  }

  method FillNextHeld(held: set<Lock>, wanted: seq<Lock>) returns (nextHeld: set<Lock>)
    ensures nextHeld == held + LocksOf(wanted)
  {
    nextHeld := held;
    for i := 0 to |wanted|
      invariant nextHeld == held + LocksOf(wanted[..i])
    {
      nextHeld := nextHeld + {wanted[i]};
      assert wanted[..i + 1] == wanted[..i] + [wanted[i]];
    }
    assert wanted[..|wanted|] == wanted;
  }

  /** The missing locks in order, all above what is held, and what will then be held. */
  ghost predicate Planned(held: set<Lock>, names: seq<string>, toAcquire: seq<Lock>, nextHeld: set<Lock>) {
    && Ascending(toAcquire) && Above(toAcquire, held)
    && LocksOf(toAcquire) == Requested(names) - held
    && nextHeld == held + Requested(names)
  }

  lemma RequestedIs(names: seq<string>)
    ensures AllKnown(names) <==> forall name :: name in names ==> name in NAMES
    ensures forall i :: 0 <= i < 4 ==> (LOCK_ORDER[i] in Requested(names) <==> NAMES[i] in names)
  {
    NamesInOrder();
    if AllKnown(names) {
      forall name | name in names ensures name in NAMES { assert LockNamed(name).Some?; }
    }
    forall i | 0 <= i < 4 ensures LOCK_ORDER[i] in Requested(names) <==> NAMES[i] in names {
      if LOCK_ORDER[i] in Requested(names) {
        var j :| 0 <= j < |names| && LockNamed(names[j]) == Some(LOCK_ORDER[i]);
        assert names[j] in NAMES;
      }
      if NAMES[i] in names {
        var j :| 0 <= j < |names| && names[j] == NAMES[i];
        assert LockNamed(names[j]) == Some(LOCK_ORDER[i]);
      }
    }
  }

  /** Refusals by names: some lock asked for comes before one held and is not held itself. */
  lemma RefusedIs(held: set<Lock>, names: seq<string>)
    ensures Refused(held, Requested(names)) <==>
            exists i, j :: 0 <= i < j < 4 && NAMES[i] in names && LOCK_ORDER[i] !in held && LOCK_ORDER[j] in held
  {
    hide Requested, LockNamed;
    NamesInOrder();
    RequestedIs(names);
    if Refused(held, Requested(names)) {
      var l, h :| l in Requested(names) && l !in held && h in held && Rank(l) < Rank(h);
      assert LOCK_ORDER[Rank(l)] == l && LOCK_ORDER[Rank(h)] == h;
    }
  }

  /** What a call acquires and what it then holds, by names. */
  lemma PlannedIs(held: set<Lock>, names: seq<string>, toAcquire: seq<Lock>, nextHeld: set<Lock>)
    requires Planned(held, names, toAcquire, nextHeld)
    ensures forall i :: 0 <= i < 4 ==>
              && (LOCK_ORDER[i] in toAcquire <==> LOCK_ORDER[i] !in held && NAMES[i] in names)
              && (LOCK_ORDER[i] in nextHeld <==> LOCK_ORDER[i] in held || NAMES[i] in names)
  {
    hide Ascending, Above, LockNamed, Requested;
    RequestedIs(names);
    forall i | 0 <= i < 4 ensures LOCK_ORDER[i] in toAcquire <==> LOCK_ORDER[i] !in held && NAMES[i] in names {
      assert LOCK_ORDER[i] in LocksOf(toAcquire) <==> LOCK_ORDER[i] in Requested(names) - held;
    }
  }

  /** What `withLocks` decides before it acquires anything. */
  method PlanCall(held: set<Lock>, names: seq<string>) returns (p: Plan)
    ensures p.Unknown? <==> exists name :: name in names && name !in NAMES
    ensures p.Unknown? ==> p.name in names && p.name !in NAMES
    ensures p.OutOfOrder? <==>
            && (forall name :: name in names ==> name in NAMES)
            && exists i, j :: 0 <= i < j < 4 && NAMES[i] in names && LOCK_ORDER[i] !in held && LOCK_ORDER[j] in held
    ensures p.OutOfOrder? ==> p.blocker in held && p.offender in Requested(names) - held && Rank(p.offender) < Rank(p.blocker)
    ensures p.Acquire? ==> Planned(held, names, p.toAcquire, p.nextHeld)
  {
    hide Ascending, Above, Rank, LockNamed, InOrderFrom, Requested, Refused;
    NamesInOrder();
    RequestedIs(names);
    RefusedIs(held, names);
    for i := 0 to |names|
      invariant forall j :: 0 <= j < i ==> LockNamed(names[j]).Some?
    {
      if LockNamed(names[i]).None? { return Unknown(names[i]); }
    }
    var requested := Requested(names);
    var wanted := InOrderFrom(requested, 0);
    var toAcquire := InOrderFrom(requested - held, 0);
    RankIsNat();
    var bad := OutOfOrderPair(held, toAcquire);
    if bad.Some? {
      assert Refused(held, requested) by { AskedBelow(held, requested, bad.value.0, bad.value.1); }
      return OutOfOrder(bad.value.0, bad.value.1);
    }
    NotRefused(held, requested, toAcquire);
    var nextHeld := FillNextHeld(held, wanted);
    p := Acquire(toAcquire, nextHeld);
  }

  lemma AskedBelow(held: set<Lock>, requested: set<Lock>, l: Lock, h: Lock)
    requires l in requested && l !in held && h in held && Rank(l) < Rank(h)
    ensures Refused(held, requested)
  {
  }

  lemma RankIsNat()
    ensures forall l :: Rank(l) >= 0
  {
  }

  lemma HighestIsAbove(held: set<Lock>, heldInOrder: seq<Lock>, toAcquire: seq<Lock>)
    requires heldInOrder != [] && Ascending(heldInOrder) && (forall l :: l in heldInOrder <==> l in held)
    requires toAcquire != [] && Ascending(toAcquire) && (forall l :: l in toAcquire ==> l !in held)
    requires Rank(toAcquire[0]) >= Rank(heldInOrder[|heldInOrder| - 1])
    ensures Above(toAcquire, held)
  {
    forall i, h | 0 <= i < |toAcquire| && h in held ensures Rank(h) < Rank(toAcquire[i]) {
      assert h in heldInOrder;
      var j :| 0 <= j < |heldInOrder| && heldInOrder[j] == h;
      assert Rank(h) <= Rank(heldInOrder[|heldInOrder| - 1]);
      assert toAcquire[i] in toAcquire;
      assert Rank(toAcquire[0]) <= Rank(toAcquire[i]);
    }
  }

  lemma NotRefused(held: set<Lock>, requested: set<Lock>, toAcquire: seq<Lock>)
    requires forall l :: l in toAcquire <==> l in requested && l !in held
    requires Above(toAcquire, held)
    ensures !Refused(held, requested)
  {
    forall l, h | l in requested && l !in held && h in held ensures Rank(l) >= Rank(h) {
      assert l in toAcquire;
    }
  }

  // ---------------------------------------------------------------- chains of calls

  datatype Phase = Acquiring | Running | Releasing

  datatype Frame = Frame(parent: Option<nat>, inherited: set<Lock>, plan: seq<Lock>, got: nat, phase: Phase)

  datatype System = System(frames: map<nat, Frame>, owner: map<Lock, nat>, nextId: nat)

  const START := System(map[], map[], 0)

  datatype Event =
    | Call(parent: Option<nat>, plan: seq<Lock>)
    | Take(f: nat)
    | Enter(f: nat)
    | TimeOut(f: nat)
    | Return(f: nat)
    | Release(f: nat)
    | Leave(f: nat)

  /** What the chain of a frame holds while its function runs. */
  function NextHeld(f: Frame): set<Lock> {
    f.inherited + LocksOf(f.plan)
  }

  function Context(s: System, parent: Option<nat>): set<Lock> {
    if parent.Some? && parent.value in s.frames then NextHeld(s.frames[parent.value]) else {}
  }

  predicate HasChild(s: System, f: nat) {
    exists c :: c in s.frames && s.frames[c].parent == Some(f)
  }

  predicate Enabled(s: System, ev: Event) {
    match ev
    case Call(parent, plan) =>
      && (parent.Some? ==> parent.value in s.frames && s.frames[parent.value].phase.Running?)
      && Ascending(plan) && Above(plan, Context(s, parent))
    case Take(f) =>
      f in s.frames && s.frames[f].phase.Acquiring? && s.frames[f].got < |s.frames[f].plan| && s.frames[f].plan[s.frames[f].got] !in s.owner
    case Enter(f) => f in s.frames && s.frames[f].phase.Acquiring? && s.frames[f].got == |s.frames[f].plan|
    case TimeOut(f) => f in s.frames && s.frames[f].phase.Acquiring? && s.frames[f].got < |s.frames[f].plan|
    case Return(f) => f in s.frames && s.frames[f].phase.Running? && !HasChild(s, f)
    case Release(f) => f in s.frames && s.frames[f].phase.Releasing? && 0 < s.frames[f].got <= |s.frames[f].plan|
    case Leave(f) => f in s.frames && s.frames[f].phase.Releasing? && s.frames[f].got == 0
  }

  function Step(s: System, ev: Event): System
    requires Enabled(s, ev)
  {
    match ev
    case Call(parent, plan) =>
      System(s.frames[s.nextId := Frame(parent, Context(s, parent), plan, 0, Acquiring)], s.owner, s.nextId + 1)
    case Take(f) =>
      var fr := s.frames[f];
      s.(frames := s.frames[f := fr.(got := fr.got + 1)], owner := s.owner[fr.plan[fr.got] := f])
    case Enter(f) => s.(frames := s.frames[f := s.frames[f].(phase := Running)])
    case TimeOut(f) => s.(frames := s.frames[f := s.frames[f].(phase := Releasing)])
    case Return(f) => s.(frames := s.frames[f := s.frames[f].(phase := Releasing)])
    case Release(f) =>
      var fr := s.frames[f];
      s.(frames := s.frames[f := fr.(got := fr.got - 1)], owner := s.owner - {fr.plan[fr.got - 1]})
    case Leave(f) => s.(frames := s.frames - {f})
  }

  /** One frame in every reachable state. */
  ghost predicate FrameOk(s: System, f: nat)
    requires f in s.frames
  {
    var fr := s.frames[f];
    && f < s.nextId && fr.got <= |fr.plan|
    && Ascending(fr.plan) && Above(fr.plan, fr.inherited)
    && (fr.phase.Running? ==> fr.got == |fr.plan|)
    && (match fr.parent
        case None => fr.inherited == {}
        case Some(p) => p < f && p in s.frames && s.frames[p].phase.Running? && fr.inherited == NextHeld(s.frames[p]))
    && (forall i :: 0 <= i < fr.got ==> fr.plan[i] in s.owner && s.owner[fr.plan[i]] == f)
  }

  ghost predicate Inv(s: System) {
    && (forall f {:trigger FrameOk(s, f)} :: f in s.frames ==> FrameOk(s, f))
    && (forall l {:trigger OwnerOk(s, l)} :: l in s.owner ==> OwnerOk(s, l))
  }

  /** The owner of a lock is a frame that has taken it and not released it. */
  ghost predicate OwnerOk(s: System, l: Lock)
    requires l in s.owner
  {
    s.owner[l] in s.frames && HasTaken(s.frames[s.owner[l]], l)
  }

  ghost predicate HasTaken(fr: Frame, l: Lock) {
    exists i :: 0 <= i < fr.got <= |fr.plan| && fr.plan[i] == l
  }

  /** A call planned against what its chain holds is one the system can make, and runs its
      function with exactly the planned locks held. */
lemma PlannedCallIsEnabled(evs: seq<Event>, s: System, parent: Option<nat>, names: seq<string>, toAcquire: seq<Lock>, nextHeld: set<Lock>)
    requires Run(evs) == Some(s)
    requires parent.Some? ==> parent.value in s.frames && s.frames[parent.value].phase.Running?
    requires Planned(Context(s, parent), names, toAcquire, nextHeld)
    ensures var after := Run(evs + [Call(parent, toAcquire)]);
            after.Some? && s.nextId in after.value.frames && NextHeld(after.value.frames[s.nextId]) == nextHeld
  {
    hide Ascending, Above, Requested, Run;
    RunPush(evs, Call(parent, toAcquire));
  }

  lemma CallKeeps(s: System, parent: Option<nat>, plan: seq<Lock>)
    requires Inv(s) && Enabled(s, Call(parent, plan))
    ensures Inv(Step(s, Call(parent, plan)))
  {
    var s' := Step(s, Call(parent, plan));
    forall f | f in s.frames ensures f < s.nextId { assert FrameOk(s, f); }
    forall f | f in s'.frames ensures FrameOk(s', f) {
      if f != s.nextId { assert FrameOk(s, f); } else if parent.Some? { assert FrameOk(s, parent.value); }
    }
    forall l | l in s'.owner ensures OwnerOk(s', l) {
      assert OwnerOk(s, l);
      assert FrameOk(s, s.owner[l]);
    }
  }

  /** Changing one frame that is nobody's parent, or whose held set stays, leaves the
      others as they were. */
  lemma OthersStill(s: System, s': System, f: nat, g: nat)
    requires f in s.frames && g in s.frames && g != f && FrameOk(s, g)
    requires f in s'.frames && s'.frames == s.frames[f := s'.frames[f]] && s'.nextId == s.nextId
    requires s'.frames[f].inherited == s.frames[f].inherited && s'.frames[f].plan == s.frames[f].plan
    requires s.frames[f].phase.Running? ==> s'.frames[f].phase.Running? || !HasChild(s, f)
    requires forall l :: l in s.owner && s.owner[l] == g ==> l in s'.owner && s'.owner[l] == g
    ensures FrameOk(s', g)
  {
  }

  lemma PhasedFrame(s: System, f: nat, ev: Event)
    requires f in s.frames && FrameOk(s, f) && Enabled(s, ev) && (ev == Enter(f) || ev == TimeOut(f) || ev == Return(f))
    ensures f in Step(s, ev).frames && FrameOk(Step(s, ev), f)
  {
  }

  lemma PhasedOwner(s: System, f: nat, ev: Event, l: Lock)
    requires Enabled(s, ev) && (ev == Enter(f) || ev == TimeOut(f) || ev == Return(f))
    requires l in s.owner && OwnerOk(s, l)
    ensures l in Step(s, ev).owner && OwnerOk(Step(s, ev), l)
  {
    hide HasChild;
    var s' := Step(s, ev);
    var i :| 0 <= i < s.frames[s.owner[l]].got <= |s.frames[s.owner[l]].plan| && s.frames[s.owner[l]].plan[i] == l;
    assert s'.frames[s'.owner[l]].plan[i] == l;
  }

  lemma PhaseKeeps(s: System, f: nat, ev: Event)
    requires Inv(s) && Enabled(s, ev) && (ev == Enter(f) || ev == TimeOut(f) || ev == Return(f))
    ensures Inv(Step(s, ev))
  {
    hide FrameOk, OwnerOk, HasChild;
    var s' := Step(s, ev);
    PhasedFrame(s, f, ev);
    forall g | g in s'.frames ensures FrameOk(s', g) {
      if g != f { OthersStill(s, s', f, g); }
    }
    forall l | l in s'.owner ensures OwnerOk(s', l) { PhasedOwner(s, f, ev, l); }
  }

  lemma TakeKeeps(s: System, f: nat)
    requires Inv(s) && Enabled(s, Take(f))
    ensures Inv(Step(s, Take(f)))
  {
    var s' := Step(s, Take(f));
    var l0 := s.frames[f].plan[s.frames[f].got];
    assert FrameOk(s, f);
    forall g | g in s'.frames ensures FrameOk(s', g) {
      if g != f { OthersStill(s, s', f, g); }
    }
    forall l | l in s'.owner ensures OwnerOk(s', l) {
      if l == l0 {
        assert s'.frames[f].plan[s.frames[f].got] == l;
      } else {
        assert OwnerOk(s, l);
        var i :| 0 <= i < s.frames[s.owner[l]].got <= |s.frames[s.owner[l]].plan| && s.frames[s.owner[l]].plan[i] == l;
        assert s'.frames[s'.owner[l]].plan[i] == l;
      }
    }
  }

  lemma ReleasedFrame(s: System, f: nat)
    requires f in s.frames && FrameOk(s, f) && Enabled(s, Release(f))
    ensures f in Step(s, Release(f)).frames && FrameOk(Step(s, Release(f)), f)
  {
    var fr := s.frames[f];
    assert forall i :: 0 <= i < fr.got - 1 ==> Rank(fr.plan[i]) < Rank(fr.plan[fr.got - 1]);
  }

  lemma StillTaken(s: System, f: nat, l: Lock)
    requires f in s.frames && FrameOk(s, f) && Enabled(s, Release(f))
    requires l in s.owner && OwnerOk(s, l) && l != s.frames[f].plan[s.frames[f].got - 1]
    ensures l in Step(s, Release(f)).owner && OwnerOk(Step(s, Release(f)), l)
  {
    hide FrameOk, Ascending, Above, Rank;
    var s' := Step(s, Release(f));
    var i :| 0 <= i < s.frames[s.owner[l]].got <= |s.frames[s.owner[l]].plan| && s.frames[s.owner[l]].plan[i] == l;
    assert s'.frames[s'.owner[l]].plan[i] == l;
  }

  lemma OwnerIs(s: System, f: nat, l: Lock)
    requires f in s.frames && FrameOk(s, f) && 0 < s.frames[f].got && l == s.frames[f].plan[s.frames[f].got - 1]
    ensures l in s.owner && s.owner[l] == f
  {
  }

  lemma ReleaseKeeps(s: System, f: nat)
    requires Inv(s) && Enabled(s, Release(f))
    ensures Inv(Step(s, Release(f)))
  {
    hide FrameOk, OwnerOk, Ascending, Above, Rank, HasChild;
    var s' := Step(s, Release(f));
    var l0 := s.frames[f].plan[s.frames[f].got - 1];
    assert FrameOk(s, f);
    OwnerIs(s, f, l0);
    ReleasedFrame(s, f);
    forall g | g in s'.frames ensures FrameOk(s', g) {
      assert FrameOk(s, g);
      if g != f { OthersStill(s, s', f, g); }
    }
    forall l | l in s'.owner ensures OwnerOk(s', l) {
      assert OwnerOk(s, l);
      StillTaken(s, f, l);
    }
  }

  lemma LeaveKeeps(s: System, f: nat)
    requires Inv(s) && Enabled(s, Leave(f))
    ensures Inv(Step(s, Leave(f)))
  {
    var s' := Step(s, Leave(f));
    forall g | g in s'.frames ensures FrameOk(s', g) { assert FrameOk(s, g); }
    forall l | l in s'.owner ensures OwnerOk(s', l) { assert OwnerOk(s, l); }
  }

  lemma StepKeeps(s: System, ev: Event)
    requires Inv(s) && Enabled(s, ev)
    ensures Inv(Step(s, ev))
  {
    hide Inv;
    match ev
    case Call(parent, plan) => CallKeeps(s, parent, plan);
    case Take(f) => TakeKeeps(s, f);
    case Enter(f) => PhaseKeeps(s, f, ev);
    case TimeOut(f) => PhaseKeeps(s, f, ev);
    case Return(f) => PhaseKeeps(s, f, ev);
    case Release(f) => ReleaseKeeps(s, f);
    case Leave(f) => LeaveKeeps(s, f);
  }

  function Run(evs: seq<Event>): Option<System> {
    if evs == [] then Some(START)
    else
      var s := Run(evs[..|evs| - 1]);
      if s.Some? && Enabled(s.value, evs[|evs| - 1]) then Some(Step(s.value, evs[|evs| - 1])) else None
  }

  /** Every enabled event takes place. */
  lemma RunPush(evs: seq<Event>, ev: Event)
    requires Run(evs).Some? && Enabled(Run(evs).value, ev)
    ensures Run(evs + [ev]) == Some(Step(Run(evs).value, ev))
  {
    assert (evs + [ev])[..|evs|] == evs;
  }

  lemma {:induction false} RunInv(evs: seq<Event>)
    requires Run(evs).Some?
    ensures Inv(Run(evs).value)
  {
    if evs != [] {
      RunInv(evs[..|evs| - 1]);
      StepKeeps(Run(evs[..|evs| - 1]).value, evs[|evs| - 1]);
    }
  }

  // ---------------------------------------------------------------- mutual exclusion

  /** `a` is `f` or one of the frames `f` was called from. */
  ghost predicate OnChain(s: System, a: nat, f: nat)
    decreases f
  {
    a == f || (f in s.frames && s.frames[f].parent.Some? && s.frames[f].parent.value < f && OnChain(s, a, s.frames[f].parent.value))
  }

  /** What the chain of `f` holds now. */
  function Held(s: System, f: nat): set<Lock>
    requires f in s.frames && s.frames[f].got <= |s.frames[f].plan|
  {
    s.frames[f].inherited + LocksOf(s.frames[f].plan[..s.frames[f].got])
  }

  /** A lock held by a chain is owned by a frame of that chain. */
  lemma {:induction false} HeldIsOwned(s: System, f: nat, l: Lock)
    requires Inv(s) && f in s.frames && s.frames[f].got <= |s.frames[f].plan| && l in Held(s, f)
    ensures l in s.owner && OnChain(s, s.owner[l], f)
    decreases f
  {
    assert FrameOk(s, f);
    var fr := s.frames[f];
    if l in fr.inherited {
      var p := fr.parent.value;
      assert FrameOk(s, p);
      assert s.frames[p].plan[..s.frames[p].got] == s.frames[p].plan;
      HeldIsOwned(s, p, l);
    } else {
      var i :| 0 <= i < fr.got && fr.plan[i] == l;
    }
  }

  /** Two chains that hold the same lock are one chain up to the frame that took it:
      no lock has two holders. */
  lemma MutualExclusion(evs: seq<Event>, s: System, f: nat, g: nat, l: Lock)
    requires Run(evs) == Some(s) && f in s.frames && g in s.frames
    requires s.frames[f].got <= |s.frames[f].plan| && s.frames[g].got <= |s.frames[g].plan|
    requires l in Held(s, f) && l in Held(s, g)
    ensures l in s.owner && OnChain(s, s.owner[l], f) && OnChain(s, s.owner[l], g)
  {
    RunInv(evs);
    assert FrameOk(s, f) && FrameOk(s, g);
    HeldIsOwned(s, f, l);
    HeldIsOwned(s, g, l);
  }

  lemma NextIsAbove(fr: Frame)
    requires Ascending(fr.plan) && Above(fr.plan, fr.inherited) && fr.got < |fr.plan|
    ensures forall h :: h in fr.inherited + LocksOf(fr.plan[..fr.got]) ==> Rank(h) < Rank(fr.plan[fr.got])
  {
    forall h | h in fr.inherited + LocksOf(fr.plan[..fr.got]) ensures Rank(h) < Rank(fr.plan[fr.got]) {
      if h !in fr.inherited {
        var i :| 0 <= i < fr.got && fr.plan[i] == h;
      }
    }
  }

  /** A frame only ever waits for a lock that ranks above everything its chain holds; in
      particular never for one the chain holds already. */
  lemma NeverReacquires(evs: seq<Event>, s: System, f: nat)
    requires Run(evs) == Some(s) && f in s.frames && s.frames[f].phase.Acquiring? && s.frames[f].got < |s.frames[f].plan|
    ensures s.frames[f].plan[s.frames[f].got] !in Held(s, f)
    ensures forall h :: h in Held(s, f) ==> Rank(h) < Rank(s.frames[f].plan[s.frames[f].got])
  {
    RunInv(evs);
    assert FrameOk(s, f);
    NextIsAbove(s.frames[f]);
  }

  // ---------------------------------------------------------------- deadlock freedom

  /** `f` cannot go on before `g` does: `g` owns the lock `f` wants next, or `g` is a call
      that `f`'s function is still making. */
  ghost predicate WaitsFor(s: System, f: nat, g: nat) {
    && f in s.frames && g in s.frames
    && (|| (s.frames[f].phase.Acquiring? && s.frames[f].got < |s.frames[f].plan| &&
            s.frames[f].plan[s.frames[f].got] in s.owner && s.owner[s.frames[f].plan[s.frames[f].got]] == g)
        || (s.frames[f].phase.Running? && s.frames[g].parent == Some(f)))
  }

  /** One more than the highest rank the frame's chain has to its name. */
  function Top(ls: set<Lock>): nat {
    if Credential in ls then 4 else if Projects in ls then 3 else if Workspace in ls then 2 else if Lifecycle in ls then 1 else 0
  }

  lemma TopIs(ls: set<Lock>)
    ensures forall l :: l in ls ==> Rank(l) < Top(ls)
    ensures Top(ls) > 0 ==> exists l :: l in ls && Rank(l) + 1 == Top(ls)
  {
    if Top(ls) > 0 {
      var l := LOCK_ORDER[Top(ls) - 1];
      assert l in ls && Rank(l) + 1 == Top(ls);
    }
  }

  function Level(s: System, f: nat): nat
    requires f in s.frames && s.frames[f].got <= |s.frames[f].plan|
  {
    Top(Held(s, f))
  }

  /** Waiting always leads to a chain that holds a higher lock, or to a later call that
      holds at least as much: the wait-for graph has no cycle. */
  lemma WaitingClimbs(s: System, f: nat, g: nat)
    requires Inv(s) && WaitsFor(s, f, g)
    ensures s.frames[f].got <= |s.frames[f].plan| && s.frames[g].got <= |s.frames[g].plan|
    ensures Level(s, f) < Level(s, g) || (Level(s, f) <= Level(s, g) && f < g < s.nextId)
  {
    assert FrameOk(s, f) && FrameOk(s, g);
    TopIs(Held(s, f));
    TopIs(Held(s, g));
    if s.frames[f].phase.Acquiring? {
      var l := s.frames[f].plan[s.frames[f].got];
      NextIsAbove(s.frames[f]);
      assert OwnerOk(s, l);
      var i :| 0 <= i < s.frames[g].got <= |s.frames[g].plan| && s.frames[g].plan[i] == l;
      assert l == s.frames[g].plan[..s.frames[g].got][i];
      assert l in Held(s, g);
    } else {
      assert s.frames[f].plan[..s.frames[f].got] == s.frames[f].plan;
      assert Held(s, f) <= Held(s, g);
    }
  }

  /** A walk along wait-for edges. */
  ghost predicate WaitPath(s: System, path: seq<nat>) {
    forall i :: 0 <= i < |path| - 1 ==> WaitsFor(s, path[i], path[i + 1])
  }

  lemma {:induction false} PathClimbs(s: System, path: seq<nat>)
    requires Inv(s) && |path| >= 2 && WaitPath(s, path)
    ensures path[0] in s.frames && path[|path| - 1] in s.frames
    ensures s.frames[path[0]].got <= |s.frames[path[0]].plan| && s.frames[path[|path| - 1]].got <= |s.frames[path[|path| - 1]].plan|
    ensures Level(s, path[0]) < Level(s, path[|path| - 1]) ||
            (Level(s, path[0]) <= Level(s, path[|path| - 1]) && path[0] < path[|path| - 1])
  {
    var n := |path| - 1;
    assert WaitsFor(s, path[n - 1], path[n]);
    WaitingClimbs(s, path[n - 1], path[n]);
    if n > 1 {
      var p := path[..n];
      assert forall i :: 0 <= i < |p| - 1 ==> WaitsFor(s, p[i], p[i + 1]) by {
        forall i | 0 <= i < |p| - 1 ensures WaitsFor(s, p[i], p[i + 1]) { assert WaitsFor(s, path[i], path[i + 1]); }
      }
      PathClimbs(s, p);
    }
  }

  /** No chain of waits ever comes back to where it started. */
  lemma WaitForIsAcyclic(evs: seq<Event>, s: System, path: seq<nat>)
    requires Run(evs) == Some(s) && |path| >= 2 && WaitPath(s, path)
    ensures path[0] != path[|path| - 1]
  {
    RunInv(evs);
    PathClimbs(s, path);
  }

  /** A step of an existing call towards its return, neither a new one nor a timeout. */
  predicate Moves(ev: Event, f: nat) {
    !ev.Call? && !ev.TimeOut? && ev.f == f
  }

  ghost predicate CanStep(s: System, f: nat) {
    exists ev :: Moves(ev, f) && Enabled(s, ev)
  }

  lemma StepsOrWaits(s: System, f: nat)
    requires Inv(s) && f in s.frames
    ensures CanStep(s, f) || exists g :: WaitsFor(s, f, g)
  {
    assert FrameOk(s, f);
    var fr := s.frames[f];
    match fr.phase
    case Acquiring =>
      if fr.got == |fr.plan| {
        assert Enabled(s, Enter(f));
      } else if fr.plan[fr.got] in s.owner {
        assert OwnerOk(s, fr.plan[fr.got]);
        assert WaitsFor(s, f, s.owner[fr.plan[fr.got]]);
      } else {
        assert Enabled(s, Take(f));
      }
    case Running =>
      if HasChild(s, f) {
        var c :| c in s.frames && s.frames[c].parent == Some(f);
        assert WaitsFor(s, f, c);
      } else {
        assert Enabled(s, Return(f));
      }
    case Releasing =>
      assert Enabled(s, Release(f)) || Enabled(s, Leave(f));
  }

  /** From any call, following the waits ends at a call that can go on. */
  lemma {:induction false} SomeoneCanStep(s: System, f: nat) returns (g: nat)
    requires Inv(s) && f in s.frames && s.frames[f].got <= |s.frames[f].plan|
    ensures CanStep(s, g)
    decreases 4 - Level(s, f), s.nextId - f
  {
    if CanStep(s, f) { return f; }
    StepsOrWaits(s, f);
    var h :| WaitsFor(s, f, h);
    WaitingClimbs(s, f, h);
    assert FrameOk(s, h);
    g := SomeoneCanStep(s, h);
  }

  /** In every reachable state with a call under way, some call can go on. */
lemma DeadlockFree(evs: seq<Event>, s: System)
    requires Run(evs) == Some(s) && s.frames != map[]
    ensures exists f, ev {:trigger Moves(ev, f)} :: f in s.frames && Moves(ev, f) && Run(evs + [ev]).Some?
  {
    RunInv(evs);
    var f :| f in s.frames;
    assert FrameOk(s, f);
    var g := SomeoneCanStep(s, f);
    var ev :| Moves(ev, g) && Enabled(s, ev);
    RunPush(evs, ev);
  }

  // ---------------------------------------------------------------- everything returns

  function Work(fr: Frame): nat
    requires fr.got <= |fr.plan|
  {
    match fr.phase
    case Acquiring => 2 * |fr.plan| - fr.got + 3
    case Running => |fr.plan| + 2
    case Releasing => fr.got + 1
  }

  function WorkUpTo(frames: map<nat, Frame>, n: nat): nat {
    if n == 0 then 0
    else WorkUpTo(frames, n - 1) +
         (if n - 1 in frames && frames[n - 1].got <= |frames[n - 1].plan| then Work(frames[n - 1]) else 0)
  }

  lemma {:induction false} WorkDrops(a: map<nat, Frame>, b: map<nat, Frame>, f: nat, n: nat)
    requires f in a && a[f].got <= |a[f].plan|
    requires b == a - {f} || (f in b && b == a[f := b[f]] && b[f].got <= |b[f].plan| && Work(b[f]) < Work(a[f]))
    ensures WorkUpTo(b, n) <= WorkUpTo(a, n)
    ensures f < n ==> WorkUpTo(b, n) < WorkUpTo(a, n)
  {
    if n > 0 { WorkDrops(a, b, f, n - 1); }
  }

  /** Every step that is not a new call uses up work: once no new calls are made, all
      calls under way return after at most this many steps, whoever is scheduled. */
  lemma StepsUseUpWork(evs: seq<Event>, s: System, ev: Event)
    requires Run(evs) == Some(s) && Enabled(s, ev) && !ev.Call?
    ensures Step(s, ev).nextId == s.nextId
    ensures WorkUpTo(Step(s, ev).frames, s.nextId) < WorkUpTo(s.frames, s.nextId)
  {
    RunInv(evs);
    var f := ev.f;
    assert FrameOk(s, f);
    WorkDrops(s.frames, Step(s, ev).frames, f, s.nextId);
  }
}
