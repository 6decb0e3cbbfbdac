/** How long a lease, a retry and a hand-back last in the delivery ledger
    (app/turn-outbox.js:240-403), over the runs of any number of processes.  Every event has
    its own clock reading. */
module OutboxLeases {
  import opened Options
  import opened TurnOutbox

  // ---------------------------------------------------------------- the events of one entry

  ghost predicate Steps(r: Run) {
    |r.states| == |r.events| + 1
  }

  /** In event `n` process `p` claims the entry `k`. */
  ghost predicate Takes(r: Run, n: nat, p: Owner, k: Id)
    requires Steps(r) && n < |r.events|
  {
    && r.events[n].0 == Claim(p)
    && p !in r.states[n].inflight && p in r.states[n + 1].inflight && r.states[n + 1].inflight[p].id == k
  }

  /** In event `n` process `p` ends its delivery of `k`, or shuts down. */
  ghost predicate GivesUp(r: Run, n: nat, p: Owner, k: Id)
    requires Steps(r) && n < |r.events|
  {
    match r.events[n].0
    case Acknowledge(o, _) => o == p && p in r.states[n].inflight && r.states[n].inflight[p].id == k
    case Fail(o, _) => o == p && p in r.states[n].inflight && r.states[n].inflight[p].id == k
    case Skip(o, _) => o == p && p in r.states[n].inflight && r.states[n].inflight[p].id == k
    case Shutdown(o) => o == p
    case _ => false
  }

  /** Nobody claims `k` in the events from `i` up to `n`. */
  ghost predicate Untaken(r: Run, i: nat, n: nat, k: Id)
    requires Steps(r) && n <= |r.events|
  {
    forall m, q :: i <= m < n ==> !Takes(r, m, q, k)
  }

  /** `p` claimed `k` in event `i` and has had it since, up to event `n`. */
  ghost predicate Holds(r: Run, i: nat, n: nat, p: Owner, k: Id)
    requires Steps(r) && i < n <= |r.events|
  {
    && Takes(r, i, p, k) && Untaken(r, i + 1, n, k)
    && forall m :: i < m < n ==> !GivesUp(r, m, p, k)
  }

  /** The entry of this enqueue is in the ledger and still owed. */
  ghost predicate Owed(s: System, k: Id, g: nat) {
    k in s.entries && !Terminal(s.entries[k].state) && k in s.gen && s.gen[k] == g
  }

  /** The claim that took `k`: its attempt and the enqueue it is for. */
  function Taken(r: Run, i: nat, p: Owner): Copy
    requires Steps(r) && i < |r.events| && p in r.states[i + 1].inflight
  {
    r.states[i + 1].inflight[p]
  }

  // ---------------------------------------------------------------- one step

  /** From which reading on a claim may take an entry. */
  function FreeFrom(e: Entry): int {
    if e.state.Pending? then e.nextAttemptAt else e.leaseUntil
  }

  ghost predicate ClaimsIt(s': System, ev: Event, k: Id) {
    ev.Claim? && ev.owner in s'.inflight && s'.inflight[ev.owner].id == k
  }

  /** Its holder ends the delivery or shuts down. */
  ghost predicate HolderActs(s: System, ev: Event, k: Id)
    requires k in s.entries
  {
    && s.entries[k].state.Sending?
    && match ev
       case Acknowledge(o, _) => o in s.inflight && s.inflight[o].id == k && s.entries[k].leaseOwner == Some(o)
       case Fail(o, _) => o in s.inflight && s.inflight[o].id == k && s.entries[k].leaseOwner == Some(o)
       case Skip(o, _) => o in s.inflight && s.inflight[o].id == k && s.entries[k].leaseOwner == Some(o)
       case Shutdown(o) => s.entries[k].leaseOwner == Some(o)
       case _ => false
  }

  lemma FinishLeaves(cfg: Config, s: System, s': System, p: Owner, o: Outcome, t: int, acked: set<Id>, k: Id)
    requires p in s.inflight && Finishes(cfg, s, s', p, o, t, acked) && k in s.entries && k in s'.entries && !Terminal(s'.entries[k].state)
    ensures s'.entries[k] == s.entries[k] ||
            (s.inflight[p].id == k && s.entries[k].state.Sending? && s.entries[k].leaseOwner == Some(p) && o.Retry? && s'.entries[k] == Applied(s.entries[k], o, t))
  {
    var applied :| FinishStep(cfg, p, s.entries, s'.entries, s.inflight[p].id, o, t, applied)
      && s' == s.(entries := s'.entries, inflight := s.inflight - {p}, acked := acked);
    var id := s.inflight[p].id;
    if applied { PrunedAt(cfg, s.entries[id := Applied(s.entries[id], o, t)], s'.entries, t, k); }
  }

  lemma ClaimLeaves(cfg: Config, s: System, s': System, p: Owner, t: int, k: Id)
    requires Inv(cfg, s) && Next(cfg, s, s', Claim(p), t) && k in s.entries && k in s'.entries && !Terminal(s'.entries[k].state)
    ensures s'.entries[k] == s.entries[k] || (p in s'.inflight && s'.inflight[p].id == k)
  {
    hide Inv;
    var r :| ClaimStep(cfg, p, s.entries, s'.entries, t, r) && s' == AfterClaim(s, s'.entries, p, r);
    ClaimKeepsInv(cfg, s, s'.entries, p, t, r);
    ClaimIs(cfg, s.entries, s'.entries, p, t, r, k);
    if r.Some? { CopyIs(s, s'.entries, p, r.value); }
  }

  /** What a claim does to an entry that is owed after it. */
  lemma ClaimIs(cfg: Config, m: Entries, m': Entries, p: Owner, t: int, r: Option<Id>, k: Id)
    requires ClaimStep(cfg, p, m, m', t, r) && k in m && k in m' && !Terminal(m'[k].state)
    ensures r != Some(k) ==> m'[k] == m[k]
    ensures r == Some(k) ==>
      && Due(m[k], t) && (m[k].state.Sending? ==> m[k].attempts < cfg.maxAttempts)
      && m'[k].state.Sending? && m'[k].leaseOwner == Some(p) && m'[k].leaseUntil == t + cfg.leaseMs
      && m'[k].attempts == m[k].attempts + 1
  {
    hide Pruned;
    var mid: Entries :| Exhausted(cfg, m, mid, t) &&
      match r
      case None => m' == mid
      case Some(id) => Claimable(cfg, mid, id, t) && id in mid && Pruned(cfg, mid[id := Leased(mid[id], p, t, cfg.leaseMs)], m', t);
    if r.Some? { PrunedAt(cfg, mid[r.value := Leased(mid[r.value], p, t, cfg.leaseMs)], m', t, k); }
  }

  lemma CopyIs(s: System, m: Entries, p: Owner, k: Id)
    requires p !in s.inflight
    ensures var s' := AfterClaim(s, m, p, Some(k)); p in s'.inflight ==> s'.inflight[p].id == k && k in m && s'.inflight[p].attempts == m[k].attempts
  {
  }

  lemma StepLeaves(cfg: Config, s: System, s': System, ev: Event, t: int, k: Id, g: nat)
    requires Inv(cfg, s) && Next(cfg, s, s', ev, t) && Owed(s, k, g) && Owed(s', k, g)
    ensures s'.entries[k] == s.entries[k] || ClaimsIt(s', ev, k) || HolderActs(s, ev, k)
  {
    hide Inv, Finishes, ClaimStep, Pruned;
    match ev
    case Enqueue(args) =>
      var r :| EnqueueStep(cfg, s.entries, s'.entries, args, t, r) && s' == AfterEnqueue(s, s'.entries, args, r);
      if r.Enqueued? { PrunedAt(cfg, s.entries[args.correlation := New(args, t)], s'.entries, t, k); }
    case Claim(p) => ClaimLeaves(cfg, s, s', p, t, k);
    case Acknowledge(p, eventId) => FinishLeaves(cfg, s, s', p, Proof(eventId), t, s.acked + {s.inflight[p].args.correlation}, k);
    case Fail(p, error) => FinishLeaves(cfg, s, s', p, FailureOutcome(cfg, s.inflight[p].attempts, error), t, s.acked, k);
    case Skip(p, why) => FinishLeaves(cfg, s, s', p, Suppress(why), t, s.acked, k);
    case Send(p) =>
    case Shutdown(p) =>
    case Crash(p) =>
  }

  /** Only an owed entry is claimed, and one whose time has come. */
  lemma TakenEntry(cfg: Config, s: System, s': System, p: Owner, t: int, k: Id)
    requires Inv(cfg, s) && Next(cfg, s, s', Claim(p), t) && p in s'.inflight && s'.inflight[p].id == k
    ensures var c := s'.inflight[p];
      && Owed(s, k, c.gen) && FreeFrom(s.entries[k]) <= t && (s.entries[k].state.Sending? ==> s.entries[k].attempts < cfg.maxAttempts)
      && Owed(s', k, c.gen) && c.gen < |s'.first|
      && s'.entries[k].state.Sending? && s'.entries[k].leaseOwner == Some(p) && s'.entries[k].leaseUntil == t + cfg.leaseMs
      && s'.entries[k].attempts == c.attempts
  {
    hide Inv, ClaimStep;
    var r :| ClaimStep(cfg, p, s.entries, s'.entries, t, r) && s' == AfterClaim(s, s'.entries, p, r);
    assert r.Some?;
    CopyIs(s, s'.entries, p, r.value);
    ClaimedIsLive(cfg, s.entries, s'.entries, p, t, k);
    ClaimIs(cfg, s.entries, s'.entries, p, t, r, k);
    CopyGen(cfg, s, s', p, r, k);
  }

  lemma ClaimedIsLive(cfg: Config, m: Entries, m': Entries, p: Owner, t: int, k: Id)
    requires ClaimStep(cfg, p, m, m', t, Some(k))
    ensures k in m && k in m' && !Terminal(m'[k].state) && !Terminal(m[k].state)
  {
  }

  lemma CopyGen(cfg: Config, s: System, s': System, p: Owner, r: Option<Id>, k: Id)
    requires Inv(cfg, s) && s' == AfterClaim(s, s'.entries, p, r) && r == Some(k) && k in s.entries && p !in s.inflight && p in s'.inflight
    ensures k in s.gen && s'.gen == s.gen && s'.inflight[p].gen == s.gen[k] && s.gen[k] < |s'.first|
  {
    AtMostFirst(cfg, s, k);
    AfterClaimKeeps(s, s'.entries, p, r);
  }

  /** With a single entry owed, a claim that finds it free takes it, unless it is a lease that
      has used every attempt. */
  lemma ClaimTakes(cfg: Config, s: System, s': System, p: Owner, t: int, k: Id)
    requires Inv(cfg, s) && Next(cfg, s, s', Claim(p), t) && Live(s.entries) == {k} && FreeFrom(s.entries[k]) <= t
    ensures (p in s'.inflight && s'.inflight[p].id == k) <==> (s.entries[k].state.Sending? ==> s.entries[k].attempts < cfg.maxAttempts)
  {
    hide Inv;
    assert k in s.entries && !Terminal(s.entries[k].state) by { assert k in Live(s.entries); }
    var r :| ClaimStep(cfg, p, s.entries, s'.entries, t, r) && s' == AfterClaim(s, s'.entries, p, r);
    ClaimKeepsInv(cfg, s, s'.entries, p, t, r);
    OnlyClaim(cfg, s.entries, s'.entries, p, t, r, k);
    if r.Some? { CopyIs(s, s'.entries, p, r.value); }
  }

  lemma OnlyClaim(cfg: Config, m: Entries, m': Entries, p: Owner, t: int, r: Option<Id>, k: Id)
    requires ClaimStep(cfg, p, m, m', t, r) && k in m && Live(m) == {k} && Due(m[k], t)
    ensures r == if m[k].state.Sending? && m[k].attempts >= cfg.maxAttempts then None else Some(k)
  {
    hide Pruned;
    var mid: Entries :| Exhausted(cfg, m, mid, t) &&
      match r
      case None => m' == mid && forall j :: j in mid ==> !Due(mid[j], t)
      case Some(id) => Claimable(cfg, mid, id, t) && id in mid && Pruned(cfg, mid[id := Leased(mid[id], p, t, cfg.leaseMs)], m', t);
    assert mid[k] == m[k] || mid[k].state.Failed?;
    if r.Some? {
      assert mid[r.value] == m[r.value];
      assert r.value in Live(m);
    }
  }

  /** A claim takes the entry that has been due longest, of those it finds free and that have
      an attempt left. */
  lemma TakesOldest(cfg: Config, s: System, s': System, p: Owner, t: int, k: Id, j: Id)
    requires Inv(cfg, s) && Next(cfg, s, s', Claim(p), t) && p in s'.inflight && s'.inflight[p].id == k
    requires j in s.entries && !Terminal(s.entries[j].state) && FreeFrom(s.entries[j]) <= t
    requires s.entries[j].state.Sending? ==> s.entries[j].attempts < cfg.maxAttempts
    ensures k in s.entries && s.entries[k].nextAttemptAt <= s.entries[j].nextAttemptAt
  {
    hide Inv, Pruned;
    var r :| ClaimStep(cfg, p, s.entries, s'.entries, t, r) && s' == AfterClaim(s, s'.entries, p, r);
    assert r.Some?;
    CopyIs(s, s'.entries, p, r.value);
    var mid: Entries :| Exhausted(cfg, s.entries, mid, t) && Claimable(cfg, mid, k, t);
    assert mid[j] == s.entries[j];
  }

  /** How an entry ends, and what is kept of it: the time, and the proof or the reason. */
  lemma EndsRecorded(cfg: Config, s: System, s': System, ev: Event, t: int, k: Id)
    requires Inv(cfg, s) && Next(cfg, s, s', ev, t) && k in s.entries && k in s'.entries
    requires !Terminal(s.entries[k].state) && Terminal(s'.entries[k].state)
    ensures var e := s'.entries[k];
      && e.updatedAt == t && e.args.None? && e.leaseOwner.None?
      && match ev
         case Acknowledge(_, id) => e.state.Delivered? && e.receiverEventId == Some(id) && e.reason.None?
         case Fail(_, error) => e.state.Failed? && e.reason == Some(error)
         case Skip(_, why) => e.state.Suppressed? && e.reason == Some(why)
         case Claim(_) => e.state.Failed? && e.reason == Some("lease_expired")
         case _ => false
  {
    hide Inv, Finishes, ClaimStep;
    match ev
    case Claim(p) =>
      var r :| ClaimStep(cfg, p, s.entries, s'.entries, t, r) && s' == AfterClaim(s, s'.entries, p, r);
      ClaimFails(cfg, s.entries, s'.entries, p, t, r, k);
    case Acknowledge(p, eventId) => FinishRecords(cfg, s, s', p, Proof(eventId), t, s.acked + {s.inflight[p].args.correlation}, k);
    case Fail(p, error) => FinishRecords(cfg, s, s', p, FailureOutcome(cfg, s.inflight[p].attempts, error), t, s.acked, k);
    case Skip(p, why) => FinishRecords(cfg, s, s', p, Suppress(why), t, s.acked, k);
    case _ =>
  }

  lemma ClaimFails(cfg: Config, m: Entries, m': Entries, p: Owner, t: int, r: Option<Id>, k: Id)
    requires ClaimStep(cfg, p, m, m', t, r) && k in m && k in m' && !Terminal(m[k].state) && Terminal(m'[k].state)
    ensures m'[k].state.Failed? && m'[k].reason == Some("lease_expired") && m'[k].updatedAt == t && m'[k].args.None? && m'[k].leaseOwner.None?
  {
    hide Pruned;
    var mid: Entries :| Exhausted(cfg, m, mid, t) &&
      match r
      case None => m' == mid
      case Some(id) => Claimable(cfg, mid, id, t) && id in mid && Pruned(cfg, mid[id := Leased(mid[id], p, t, cfg.leaseMs)], m', t);
    if r.Some? { PrunedAt(cfg, mid[r.value := Leased(mid[r.value], p, t, cfg.leaseMs)], m', t, k); }
  }

  lemma FinishRecords(cfg: Config, s: System, s': System, p: Owner, o: Outcome, t: int, acked: set<Id>, k: Id)
    requires p in s.inflight && Finishes(cfg, s, s', p, o, t, acked) && k in s.entries && k in s'.entries
    requires !Terminal(s.entries[k].state) && Terminal(s'.entries[k].state)
    ensures var e := s'.entries[k];
      && e.updatedAt == t && e.args.None? && e.leaseOwner.None?
      && match o
         case Proof(id) => e.state.Delivered? && e.receiverEventId == Some(id) && e.reason.None?
         case GiveUp(error) => e.state.Failed? && e.reason == Some(error)
         case Suppress(why) => e.state.Suppressed? && e.reason == Some(why)
         case Retry(_, _) => false
  {
    hide Pruned;
    var applied :| FinishStep(cfg, p, s.entries, s'.entries, s.inflight[p].id, o, t, applied)
      && s' == s.(entries := s'.entries, inflight := s.inflight - {p}, acked := acked);
    var id := s.inflight[p].id;
    if applied { PrunedAt(cfg, s.entries[id := Applied(s.entries[id], o, t)], s'.entries, t, k); }
  }

  // ---------------------------------------------------------------- over a run

  /** What is owed at the end of a stretch was owed all along, once it had been enqueued. */
  lemma {:induction false} OwedBefore(cfg: Config, r: Run, i: nat, j: nat, k: Id, g: nat)
    requires IsRun(cfg, r) && i <= j < |r.states| && g < |r.states[i].first| && Owed(r.states[j], k, g)
    ensures Owed(r.states[i], k, g)
    decreases j - i
  {
    hide Next, Inv, OwedKept;
    if i < j {
      var s, s' := r.states[j - 1], r.states[j];
      RunInv(cfg, r, j - 1);
      FirstGrows(cfg, r, i, j - 1);
      NextStepOk(cfg, s, s', r.events[j - 1].0, r.events[j - 1].1);
      assert KeyOk(s, s', r.events[j - 1].0, k);
      OwedBefore(cfg, r, i, j - 1, k, g);
    }
  }

  /** While a process has an entry, the ledger has its lease. */
  lemma {:induction false} HeldLease(cfg: Config, r: Run, i: nat, n: nat, p: Owner, k: Id)
    requires IsRun(cfg, r) && i < n <= |r.events| && Holds(r, i, n, p, k) && Owed(r.states[n], k, Taken(r, i, p).gen)
    ensures var e := r.states[n].entries[k];
      && e.state.Sending? && e.leaseOwner == Some(p) && e.leaseUntil == r.events[i].1 + cfg.leaseMs
      && e.attempts == Taken(r, i, p).attempts
    decreases n
  {
    hide Next, Inv;
    var g := Taken(r, i, p).gen;
    RunInv(cfg, r, i);
    assert Next(cfg, r.states[i], r.states[i + 1], r.events[i].0, r.events[i].1);
    TakenEntry(cfg, r.states[i], r.states[i + 1], p, r.events[i].1, k);
    if n > i + 1 {
      var s, s', ev := r.states[n - 1], r.states[n], r.events[n - 1].0;
      RunInv(cfg, r, n - 1);
      assert Next(cfg, s, s', ev, r.events[n - 1].1);
      FirstGrows(cfg, r, i + 1, n - 1);
      OwedBefore(cfg, r, n - 1, n, k, g);
      assert Holds(r, i, n - 1, p, k);
      HeldLease(cfg, r, i, n - 1, p, k);
      InTheRun(cfg, r, n - 1, p, k);
      StepLeaves(cfg, s, s', ev, r.events[n - 1].1, k, g);
    }
  }

  lemma ClaimIsEvent(cfg: Config, s: System, s': System, p: Owner, t: int)
    requires Next(cfg, s, s', Claim(p), t)
    ensures p !in s.inflight
  {
  }

  /** What a step of the ledger's entry is as an event of the run. */
  lemma InTheRun(cfg: Config, r: Run, n: nat, p: Owner, k: Id)
    requires Steps(r) && n < |r.events| && Next(cfg, r.states[n], r.states[n + 1], r.events[n].0, r.events[n].1)
    ensures ClaimsIt(r.states[n + 1], r.events[n].0, k) ==> exists q :: Takes(r, n, q, k)
    ensures k in r.states[n].entries && HolderActs(r.states[n], r.events[n].0, k) && r.states[n].entries[k].leaseOwner == Some(p) ==> GivesUp(r, n, p, k)
  {
    hide Finishes;
    if ClaimsIt(r.states[n + 1], r.events[n].0, k) { assert Takes(r, n, r.events[n].0.owner, k); }
  }

  /** An entry that waits is left alone until it is claimed. */
  lemma {:induction false} Waits(cfg: Config, r: Run, n: nat, j: nat, k: Id, g: nat, at: int)
    requires IsRun(cfg, r) && n <= j <= |r.events| && Untaken(r, n, j, k) && g < |r.states[n].first| && Owed(r.states[j], k, g)
    requires Owed(r.states[n], k, g) ==> r.states[n].entries[k].state.Pending? && r.states[n].entries[k].nextAttemptAt == at
    ensures r.states[j].entries[k].state.Pending? && r.states[j].entries[k].nextAttemptAt == at
    decreases j
  {
    hide Next, Inv;
    if n < j {
      var s, s', ev := r.states[j - 1], r.states[j], r.events[j - 1].0;
      RunInv(cfg, r, j - 1);
      assert Next(cfg, s, s', ev, r.events[j - 1].1);
      FirstGrows(cfg, r, n, j - 1);
      OwedBefore(cfg, r, j - 1, j, k, g);
      Waits(cfg, r, n, j - 1, k, g, at);
      InTheRun(cfg, r, j - 1, 0, k);
      StepLeaves(cfg, s, s', ev, r.events[j - 1].1, k, g);
    }
  }

  // ---------------------------------------------------------------- leases

  /** While a process has an entry nobody claims it before the lease, from the reading of its
      claim, is over. */
  lemma LeaseLasts(cfg: Config, r: Run, i: nat, j: nat, p: Owner, q: Owner, k: Id)
    requires IsRun(cfg, r) && i < j < |r.events| && Holds(r, i, j, p, k) && Takes(r, j, q, k)
    requires Taken(r, j, q).gen == Taken(r, i, p).gen
    ensures r.events[j].1 >= r.events[i].1 + cfg.leaseMs && Taken(r, i, p).attempts < cfg.maxAttempts
  {
    hide Next, Inv;
    RunInv(cfg, r, j);
    assert Next(cfg, r.states[j], r.states[j + 1], r.events[j].0, r.events[j].1);
    TakenEntry(cfg, r.states[j], r.states[j + 1], q, r.events[j].1, k);
    HeldLease(cfg, r, i, j, p, k);
  }

  /** From then on, when it is the only entry owed, the next claim takes it, if it has an
      attempt left; if not, none does. */
  lemma LeaseEnds(cfg: Config, r: Run, i: nat, j: nat, p: Owner, q: Owner, k: Id)
    requires IsRun(cfg, r) && i < j < |r.events| && Holds(r, i, j, p, k) && r.events[j].0 == Claim(q)
    requires Owed(r.states[j], k, Taken(r, i, p).gen) && Live(r.states[j].entries) == {k}
    requires r.events[j].1 >= r.events[i].1 + cfg.leaseMs
    ensures Takes(r, j, q, k) <==> Taken(r, i, p).attempts < cfg.maxAttempts
  {
    hide Next, Inv;
    RunInv(cfg, r, j);
    assert Next(cfg, r.states[j], r.states[j + 1], r.events[j].0, r.events[j].1);
    ClaimIsEvent(cfg, r.states[j], r.states[j + 1], q, r.events[j].1);
    HeldLease(cfg, r, i, j, p, k);
    ClaimTakes(cfg, r.states[j], r.states[j + 1], q, r.events[j].1, k);
  }

  /** The last claim of `k` before event `j`, from `i` on. */
  lemma {:induction false} LastTaken(r: Run, i: nat, j: nat, p: Owner, k: Id) returns (m: nat, o: Owner)
    requires Steps(r) && i < j <= |r.events| && Takes(r, i, p, k)
    ensures i <= m < j && Takes(r, m, o, k) && Untaken(r, m + 1, j, k)
    decreases j
  {
    var last := j - 1;
    if q :| Takes(r, last, q, k) {
      m, o := last, q;
    } else if i == last {
      m, o := i, p;
    } else {
      m, o := LastTaken(r, i, last, p, k);
      assert forall n, q :: m + 1 <= n < j && n != last ==> !Takes(r, n, q, k);
    }
  }

  /** Over any stretch of a run: after a claim no other claim of the same entry has a reading
      within its lease, unless in between whoever had the entry ended the delivery or handed
      it back. */
  lemma {:induction false} LeaseExcludes(cfg: Config, r: Run, i: nat, j: nat, p: Owner, q: Owner, k: Id)
    requires IsRun(cfg, r) && cfg.leaseMs >= 0 && i < j < |r.events| && Takes(r, i, p, k) && Takes(r, j, q, k)
    requires Taken(r, j, q).gen == Taken(r, i, p).gen && r.events[j].1 < r.events[i].1 + cfg.leaseMs
    ensures exists m, n, o :: i <= m < n < j && Takes(r, m, o, k) && GivesUp(r, n, o, k)
    decreases j
  {
    hide Next, Inv, GivesUp;
    var g := Taken(r, j, q).gen;
    var m, o := LastTaken(r, i, j, p, k);
    assert o in r.states[m + 1].inflight && Taken(r, m, o).gen == g by { SameEnqueue(cfg, r, i, m, j, p, o, q, k); }
    if forall n :: m < n < j ==> !GivesUp(r, n, o, k) {
      LeaseLasts(cfg, r, m, j, o, q, k);
      if m > i { LeaseExcludes(cfg, r, i, m, p, o, k); }
    }
  }

  lemma SameEnqueue(cfg: Config, r: Run, i: nat, m: nat, j: nat, p: Owner, o: Owner, q: Owner, k: Id)
    requires IsRun(cfg, r) && i <= m < j < |r.events| && Takes(r, i, p, k) && Takes(r, m, o, k) && Takes(r, j, q, k)
    requires Taken(r, j, q).gen == Taken(r, i, p).gen
    ensures Taken(r, m, o).gen == Taken(r, j, q).gen
  {
    hide Next, Inv;
    var g := Taken(r, j, q).gen;
    forall n, x | n in {i, m, j} && Takes(r, n, x, k)
      ensures Owed(r.states[n], k, Taken(r, n, x).gen) && Owed(r.states[n + 1], k, Taken(r, n, x).gen) && Taken(r, n, x).gen < |r.states[n + 1].first|
    {
      RunInv(cfg, r, n);
      assert Next(cfg, r.states[n], r.states[n + 1], r.events[n].0, r.events[n].1);
      TakenEntry(cfg, r.states[n], r.states[n + 1], x, r.events[n].1, k);
    }
    FirstGrows(cfg, r, i + 1, m + 1);
    OwedBefore(cfg, r, m + 1, j, k, g);
  }

  // ---------------------------------------------------------------- retries, hand-backs, new entries

  /** How long attempt number `attempts` waits for the next: the base delay doubled for each
      earlier one, up to the cap. */
  function RetryDelay(cfg: Config, attempts: nat): int {
    var d := cfg.baseDelayMs * Pow2(if attempts < 1 then 0 else attempts - 1);
    if d < cfg.maxDelayMs then d else cfg.maxDelayMs
  }

  /** The claim at event `j` of an entry that waits until `at`. */
  lemma WaitEnds(cfg: Config, r: Run, n: nat, j: nat, q: Owner, k: Id, g: nat, at: int)
    requires IsRun(cfg, r) && n <= j < |r.events| && r.events[j].0 == Claim(q) && Untaken(r, n, j, k)
    requires g < |r.states[n].first| && Owed(r.states[j], k, g)
    requires Owed(r.states[n], k, g) ==> r.states[n].entries[k].state.Pending? && r.states[n].entries[k].nextAttemptAt == at
    ensures Takes(r, j, q, k) ==> r.events[j].1 >= at
    ensures r.events[j].1 >= at && Live(r.states[j].entries) == {k} ==> Takes(r, j, q, k)
  {
    hide Next, Inv;
    RunInv(cfg, r, j);
    assert Next(cfg, r.states[j], r.states[j + 1], r.events[j].0, r.events[j].1);
    ClaimIsEvent(cfg, r.states[j], r.states[j + 1], q, r.events[j].1);
    Waits(cfg, r, n, j, k, g, at);
    if Takes(r, j, q, k) { TakenEntry(cfg, r.states[j], r.states[j + 1], q, r.events[j].1, k); }
    if r.events[j].1 >= at && Live(r.states[j].entries) == {k} { ClaimTakes(cfg, r.states[j], r.states[j + 1], q, r.events[j].1, k); }
  }

  /** The claim was of an entry owed, of an enqueue known by then. */
  lemma GenKnown(cfg: Config, r: Run, i: nat, n: nat, p: Owner, k: Id)
    requires IsRun(cfg, r) && i < n <= |r.events| && Takes(r, i, p, k)
    ensures Taken(r, i, p).gen < |r.states[n].first|
  {
    hide Next, Inv;
    RunInv(cfg, r, i);
    assert Next(cfg, r.states[i], r.states[i + 1], r.events[i].0, r.events[i].1);
    TakenEntry(cfg, r.states[i], r.states[i + 1], p, r.events[i].1, k);
    FirstGrows(cfg, r, i + 1, n);
  }

  /** A delivery that failed with an attempt left is tried again no sooner than its delay
      after, and from then on by the next claim, when it is the only entry owed. */
  lemma RetryWaits(cfg: Config, r: Run, i: nat, n: nat, j: nat, p: Owner, q: Owner, k: Id, error: string)
    requires IsRun(cfg, r) && i < n < j < |r.events| && Holds(r, i, n, p, k)
    requires r.events[n].0 == Fail(p, error) && p in r.states[n].inflight && r.states[n].inflight[p].id == k
    requires Taken(r, i, p).attempts < cfg.maxAttempts
    requires Untaken(r, n + 1, j, k) && r.events[j].0 == Claim(q) && Owed(r.states[j], k, Taken(r, i, p).gen)
    ensures var free := r.events[n].1 + RetryDelay(cfg, Taken(r, i, p).attempts);
      && (Takes(r, j, q, k) ==> r.events[j].1 >= free)
      && (r.events[j].1 >= free && Live(r.states[j].entries) == {k} ==> Takes(r, j, q, k))
  {
    hide Next, Inv, Holds, Untaken;
    HoldsTook(r, i, n, p, k);
    var c := Taken(r, i, p);
    var free := r.events[n].1 + RetryDelay(cfg, c.attempts);
    GenKnown(cfg, r, i, n, p, k);
    GenKnown(cfg, r, i, n + 1, p, k);
    if Owed(r.states[n + 1], k, c.gen) {
      OwedBefore(cfg, r, n, n + 1, k, c.gen);
      HeldLease(cfg, r, i, n, p, k);
      RunInv(cfg, r, n);
      assert Next(cfg, r.states[n], r.states[n + 1], r.events[n].0, r.events[n].1);
      FailureRetries(cfg, r.states[n], r.states[n + 1], p, error, r.events[n].1, k);
    }
    WaitEnds(cfg, r, n + 1, j, q, k, c.gen, free);
  }

  lemma HoldsTook(r: Run, i: nat, n: nat, p: Owner, k: Id)
    requires Steps(r) && i < n <= |r.events| && Holds(r, i, n, p, k)
    ensures Takes(r, i, p, k)
  {
  }

  lemma FailureRetries(cfg: Config, s: System, s': System, p: Owner, error: string, t: int, k: Id)
    requires Inv(cfg, s) && Next(cfg, s, s', Fail(p, error), t) && p in s.inflight && s.inflight[p].id == k
    requires k in s.entries && s.entries[k].state.Sending? && s.entries[k].leaseOwner == Some(p) && s.entries[k].attempts < cfg.maxAttempts
    requires k in s'.entries
    ensures s'.entries[k].state.Pending? && s'.entries[k].nextAttemptAt == t + RetryDelay(cfg, s.entries[k].attempts)
    ensures s'.entries[k].reason == Some(error) && s'.entries[k].attempts == s.entries[k].attempts && s'.entries[k].args == s.entries[k].args
  {
    assert CopyOk(s, p);
    var o := FailureOutcome(cfg, s.inflight[p].attempts, error);
    var applied :| FinishStep(cfg, p, s.entries, s'.entries, k, o, t, applied) && s' == s.(entries := s'.entries, inflight := s.inflight - {p}, acked := s.acked);
    PrunedAt(cfg, s.entries[k := Applied(s.entries[k], o, t)], s'.entries, t, k);
  }

  /** An entry handed back may be claimed at once: with no reading before the hand-back, and
      from then on by the next claim, when it is the only entry owed. */
  lemma HandBackFrees(cfg: Config, r: Run, i: nat, n: nat, j: nat, p: Owner, q: Owner, k: Id)
    requires IsRun(cfg, r) && i < n < j < |r.events| && Holds(r, i, n, p, k) && r.events[n].0 == Shutdown(p)
    requires Untaken(r, n + 1, j, k) && r.events[j].0 == Claim(q) && Owed(r.states[j], k, Taken(r, i, p).gen)
    ensures Takes(r, j, q, k) ==> r.events[j].1 >= r.events[n].1
    ensures r.events[j].1 >= r.events[n].1 && Live(r.states[j].entries) == {k} ==> Takes(r, j, q, k)
  {
    hide Next, Inv, Holds, Untaken;
    HoldsTook(r, i, n, p, k);
    var c := Taken(r, i, p);
    GenKnown(cfg, r, i, n, p, k);
    GenKnown(cfg, r, i, n + 1, p, k);
    if Owed(r.states[n + 1], k, c.gen) {
      OwedBefore(cfg, r, n, n + 1, k, c.gen);
      HeldLease(cfg, r, i, n, p, k);
      assert Next(cfg, r.states[n], r.states[n + 1], r.events[n].0, r.events[n].1);
      ShutdownReturns(cfg, r.states[n], r.states[n + 1], p, r.events[n].1, k);
    }
    WaitEnds(cfg, r, n + 1, j, q, k, c.gen, r.events[n].1);
  }

  lemma ShutdownReturns(cfg: Config, s: System, s': System, p: Owner, t: int, k: Id)
    requires Next(cfg, s, s', Shutdown(p), t) && k in s.entries && s.entries[k].state.Sending? && s.entries[k].leaseOwner == Some(p)
    ensures k in s'.entries && s'.entries[k].state.Pending? && s'.entries[k].nextAttemptAt == t
  {
  }

  /** So may one just enqueued. */
  lemma EnqueueFrees(cfg: Config, r: Run, n: nat, j: nat, q: Owner, args: Args)
    requires IsRun(cfg, r) && n < j < |r.events| && r.events[n].0 == Enqueue(args) && args.correlation !in r.states[n].entries
    requires var k := args.correlation;
      Untaken(r, n + 1, j, k) && r.events[j].0 == Claim(q) && Owed(r.states[j], k, |r.states[n].first|) && |r.states[n].first| < |r.states[n + 1].first|
    ensures var k := args.correlation;
      && (Takes(r, j, q, k) ==> r.events[j].1 >= r.events[n].1)
      && (r.events[j].1 >= r.events[n].1 && Live(r.states[j].entries) == {k} ==> Takes(r, j, q, k))
  {
    hide Next, Inv, Takes, Untaken;
    var k, g := args.correlation, |r.states[n].first|;
    if Owed(r.states[n + 1], k, g) {
      assert Next(cfg, r.states[n], r.states[n + 1], r.events[n].0, r.events[n].1);
      EnqueuedIs(cfg, r.states[n], r.states[n + 1], args, r.events[n].1);
    }
    WaitEnds(cfg, r, n + 1, j, q, k, g, r.events[n].1);
  }

  lemma EnqueuedIs(cfg: Config, s: System, s': System, args: Args, t: int)
    requires Next(cfg, s, s', Enqueue(args), t) && args.correlation !in s.entries && args.correlation in s'.entries
    ensures s'.entries[args.correlation].state.Pending? && s'.entries[args.correlation].nextAttemptAt == t
  {
  }
}
