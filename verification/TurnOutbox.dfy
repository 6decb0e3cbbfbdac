/** The durable delivery ledger for turns that need a person (app/turn-outbox.js).

    The ledger is a file that every process rewrites under one lock, so each locked
    section is one step.  The first half says what a step does to the entries; the second
    half runs any number of processes against one ledger; the last part is the code. */
module TurnOutbox {
  import opened Options

  type Id = string
  type Owner = nat

  /** The arguments of the relay call; `correlation` is the receiver's deduplication key. */
  datatype Args = Args(correlation: Id, body: string)

  datatype Phase = Pending | Sending | Delivered | Suppressed | Failed

  predicate Terminal(p: Phase) {
    p.Delivered? || p.Suppressed? || p.Failed?
  }

  datatype Entry = Entry(
    state: Phase, args: Option<Args>, attempts: nat, updatedAt: int, nextAttemptAt: int,
    leaseOwner: Option<Owner>, leaseUntil: int,
    receiverEventId: Option<string>, reason: Option<string>)

  type Entries = map<Id, Entry>

  datatype Config = Config(maxAttempts: int, maxPending: int, maxEntries: int, retentionMs: int, leaseMs: int,
                           baseDelayMs: int, maxDelayMs: int)

  // ---------------------------------------------------------------- one entry

  function New(args: Args, t: int): Entry {
    Entry(Pending, Some(args), 0, t, t, None, 0, None, None)
  }

  predicate Due(e: Entry, t: int) {
    (e.state.Pending? && e.nextAttemptAt <= t) || (e.state.Sending? && e.leaseUntil <= t)
  }

  /** A terminal entry keeps what deduplicates and explains it, and no message. */
  function Compact(e: Entry): Entry {
    if Terminal(e.state) then e.(args := None, nextAttemptAt := 0, leaseOwner := None, leaseUntil := 0) else e
  }

  function Leased(e: Entry, owner: Owner, t: int, leaseMs: int): Entry {
    e.(state := Sending, leaseOwner := Some(owner), leaseUntil := t + leaseMs, attempts := e.attempts + 1, updatedAt := t)
  }

  function LeaseExpired(e: Entry, t: int): Entry {
    Compact(e.(state := Failed, reason := Some("lease_expired"), updatedAt := t))
  }

  function Pow2(n: nat): nat {
    if n == 0 then 1 else 2 * Pow2(n - 1)
  }

  function BackoffMs(attempt: int, base: int, cap: int): int {
    var d := base * Pow2(if attempt < 1 then 0 else attempt - 1);
    if d < cap then d else cap
  }

  /** Retry delays double until they reach the cap and then stay there. */
  lemma {:induction false} BackoffDoubles(attempt: int, base: int, cap: int)
    requires base >= 0 && cap >= 0
    ensures BackoffMs(attempt, base, cap) <= cap
    ensures attempt <= 1 ==> BackoffMs(attempt, base, cap) == if base < cap then base else cap
    ensures attempt >= 1 ==> BackoffMs(attempt + 1, base, cap) == if 2 * BackoffMs(attempt, base, cap) < cap then 2 * BackoffMs(attempt, base, cap) else cap
  {
    if attempt >= 1 {
      var p := Pow2(attempt - 1);
      assert Pow2(attempt) == 2 * p;
      assert base * (2 * p) == 2 * (base * p);
      assert base * p >= 0;
    }
  }

  /** How one delivery attempt ended. */
  datatype Outcome =
    | Proof(eventId: string)
    | Retry(error: string, delay: int)
    | GiveUp(error: string)
    | Suppress(why: string)

  function Applied(e: Entry, o: Outcome, t: int): Entry {
    var e1 :=
      match o
      case Proof(id) => e.(state := Delivered, receiverEventId := Some(id), reason := None)
      case Retry(error, delay) => e.(state := Pending, nextAttemptAt := t + delay, reason := Some(error))
      case GiveUp(error) => e.(state := Failed, reason := Some(error))
      case Suppress(why) => e.(state := Suppressed, reason := Some(why));
    Compact(e1.(leaseOwner := None, leaseUntil := 0, updatedAt := t))
  }

  function FailureOutcome(cfg: Config, attempts: nat, error: string): Outcome {
    if attempts >= cfg.maxAttempts then GiveUp(error)
    else Retry(error, BackoffMs(attempts, cfg.baseDelayMs, cfg.maxDelayMs))
  }

  // ---------------------------------------------------------------- one locked section

  function Live(m: Entries): set<Id> {
    set k | k in m && !Terminal(m[k].state)
  }

  predicate Expired(cfg: Config, e: Entry, t: int) {
    Terminal(e.state) && t - e.updatedAt > cfg.retentionMs
  }

  function Unexpired(cfg: Config, m: Entries, t: int): Entries {
    map k | k in m && !Expired(cfg, m[k], t) :: m[k]
  }

  /** Pruning: expired terminal entries go, then the oldest terminal ones while there are
      too many entries, and never one that is still owed. */
  ghost predicate Pruned(cfg: Config, m: Entries, m': Entries, t: int) {
    var kept := Unexpired(cfg, m, t);
    && (forall k :: k in m' ==> k in kept && m'[k] == m[k])
    && (forall k :: k in m && !Terminal(m[k].state) ==> k in m')
    && (|m'| <= cfg.maxEntries || forall k :: k in m' ==> !Terminal(m'[k].state))
    && (m' == kept || |m'| >= cfg.maxEntries)
    && (forall j, k :: j in kept && j !in m' && k in m' && Terminal(m'[k].state) ==> m[j].updatedAt <= m[k].updatedAt)
  }

  datatype EnqueueResult = Enqueued | Deduplicated(state: Phase) | Refused

  ghost predicate EnqueueStep(cfg: Config, m: Entries, m': Entries, args: Args, t: int, r: EnqueueResult) {
    var id := args.correlation;
    if id in m then r == Deduplicated(m[id].state) && m' == m
    else if |Live(m)| >= cfg.maxPending then r.Refused? && m' == m
    else r.Enqueued? && Pruned(cfg, m[id := New(args, t)], m', t)
  }

  /** Some due leases that used every attempt have failed; nothing else differs. */
  ghost predicate Exhausted(cfg: Config, m: Entries, mid: Entries, t: int) {
    && mid.Keys == m.Keys
    && forall k :: k in m ==>
      || mid[k] == m[k]
      || (m[k].state.Sending? && Due(m[k], t) && m[k].attempts >= cfg.maxAttempts && mid[k] == LeaseExpired(m[k], t))
  }

  /** The claimed entry is due, has attempts left if its lease ran out, and no due entry is older. */
  ghost predicate Claimable(cfg: Config, m: Entries, id: Id, t: int) {
    && id in m && Due(m[id], t)
    && (m[id].state.Sending? ==> m[id].attempts < cfg.maxAttempts)
    && forall k :: k in m && Due(m[k], t) ==> m[id].nextAttemptAt <= m[k].nextAttemptAt
  }

  ghost predicate ClaimStep(cfg: Config, owner: Owner, m: Entries, m': Entries, t: int, r: Option<Id>) {
    exists mid: Entries :: Exhausted(cfg, m, mid, t) &&
      match r
      case None => m' == mid && forall k :: k in mid ==> !Due(mid[k], t)
      case Some(id) =>
        && Claimable(cfg, mid, id, t)
        && (forall k :: k in m && mid[k] != m[k] ==> m[k].nextAttemptAt <= mid[id].nextAttemptAt)
        && Pruned(cfg, mid[id := Leased(mid[id], owner, t, cfg.leaseMs)], m', t)
  }

  /** Proof of delivery applies whoever holds the lease, unless already delivered;
      any other outcome only for the holder. */
  predicate Accepts(m: Entries, id: Id, owner: Owner, o: Outcome) {
    id in m && !m[id].state.Delivered? && (o.Proof? || (m[id].state.Sending? && m[id].leaseOwner == Some(owner)))
  }

  ghost predicate FinishStep(cfg: Config, owner: Owner, m: Entries, m': Entries, id: Id, o: Outcome, t: int, applied: bool) {
    && applied == Accepts(m, id, owner, o)
    && if applied then Pruned(cfg, m[id := Applied(m[id], o, t)], m', t) else m' == m
  }

  function HandedBack(owner: Owner, m: Entries, t: int): Entries {
    map k | k in m ::
      if m[k].state.Sending? && m[k].leaseOwner == Some(owner)
      then m[k].(state := Pending, leaseOwner := None, leaseUntil := 0, nextAttemptAt := t, updatedAt := t)
      else m[k]
  }

  // ---------------------------------------------------------------- bounds of one section

  lemma SubsetCard(a: set<Id>, b: set<Id>)
    requires a <= b
    ensures |a| <= |b|
  {
    if a != {} {
      var x :| x in a;
      SubsetCard(a - {x}, b - {x});
    }
  }

  lemma PrunedKeepsLive(cfg: Config, m: Entries, m': Entries, t: int)
    requires Pruned(cfg, m, m', t)
    ensures Live(m') == Live(m)
    ensures |m'| <= cfg.maxEntries || |m'| == |Live(m)|
  {
    if |m'| > cfg.maxEntries { assert m'.Keys == Live(m); }
  }

  lemma LiveNotMore(m: Entries, m': Entries)
    requires Live(m') <= Live(m)
    ensures |Live(m')| <= |Live(m)|
  {
    SubsetCard(Live(m'), Live(m));
  }

  /** Right after an accepted enqueue the ledger is within its size limit. */
  lemma SizeAfterEnqueue(cfg: Config, m: Entries, m': Entries, args: Args, t: int)
    requires EnqueueStep(cfg, m, m', args, t, Enqueued)
    requires cfg.maxPending <= cfg.maxEntries
    ensures |m'| <= cfg.maxEntries && |Live(m')| <= cfg.maxPending
    ensures args.correlation in m' && m'[args.correlation] == New(args, t)
  {
    var id := args.correlation;
    var m1 := m[id := New(args, t)];
    assert Live(m1) == Live(m) + {id};
    PrunedKeepsLive(cfg, m1, m', t);
  }

  /** An enqueue is accepted exactly when the ID is new and fewer than `maxPending` entries
      are owed; the new entry may be claimed at once. */
  lemma EnqueuedIff(cfg: Config, m: Entries, m': Entries, args: Args, t: int, r: EnqueueResult)
    requires EnqueueStep(cfg, m, m', args, t, r)
    ensures r.Enqueued? <==> args.correlation !in m && |set k | k in m && !(m[k].state in {Delivered, Suppressed, Failed})| < cfg.maxPending
    ensures r.Enqueued? ==> args.correlation in m' && m'[args.correlation].state.Pending? &&
                            m'[args.correlation].args == Some(args) && m'[args.correlation].nextAttemptAt == t
    ensures !r.Enqueued? ==> m' == m
  {
    assert Live(m) == set k | k in m && !(m[k].state in {Delivered, Suppressed, Failed});
  }

  /** What pruning removes: every entry that ended more than the retention time ago, and
      others that have ended only while the ledger is full, the oldest first. */
  lemma PrunedIs(cfg: Config, m: Entries, m': Entries, t: int, k: Id)
    requires Pruned(cfg, m, m', t) && k in m
    ensures var ended := m[k].state in {Delivered, Suppressed, Failed};
      && (!ended ==> k in m')
      && (ended && t - m[k].updatedAt > cfg.retentionMs ==> k !in m')
      && (k !in m' ==> ended && (t - m[k].updatedAt > cfg.retentionMs || |m'| >= cfg.maxEntries))
      && (k !in m' && t - m[k].updatedAt <= cfg.retentionMs ==>
            forall j :: j in m' && m'[j].state in {Delivered, Suppressed, Failed} ==> m[k].updatedAt <= m[j].updatedAt)
  {
  }

  // ---------------------------------------------------------------- many processes

  /** The copy of an entry that a process works on after claiming it.  `gen` numbers the
      enqueue that created the entry, so a pruned and re-enqueued id is told apart. */
  datatype Copy = Copy(id: Id, gen: nat, attempts: nat, args: Args, sent: bool)

  datatype System = System(
    entries: Entries,
    gen: map<Id, nat>,            // the enqueue that created each entry
    handbacks: map<Id, nat>,      // shutdown hand-backs of that entry
    first: seq<Args>,             // what each accepted enqueue carried
    inflight: map<Owner, Copy>,
    sent: seq<(nat, Args)>,       // every send, with the generation it was for
    acked: set<Id>)               // correlation IDs validly acknowledged

  datatype Event =
    | Enqueue(args: Args)
    | Claim(owner: Owner)
    | Send(owner: Owner)
    | Acknowledge(owner: Owner, eventId: string)
    | Fail(owner: Owner, error: string)
    | Skip(owner: Owner, why: string)
    | Shutdown(owner: Owner)
    | Crash(owner: Owner)

  const EMPTY := System(map[], map[], map[], [], map[], [], {})

  /** One step of the whole system.  Each event reads its own clock: nothing is assumed
      of the readings of different processes. */
  ghost predicate Next(cfg: Config, s: System, s': System, ev: Event, t: int) {
    match ev
    case Enqueue(args) =>
      exists r :: EnqueueStep(cfg, s.entries, s'.entries, args, t, r) && s' == AfterEnqueue(s, s'.entries, args, r)
    case Claim(p) =>
      p !in s.inflight && exists r :: ClaimStep(cfg, p, s.entries, s'.entries, t, r) && s' == AfterClaim(s, s'.entries, p, r)
    case Send(p) =>
      p in s.inflight && !s.inflight[p].sent &&
        s' == s.(sent := s.sent + [(s.inflight[p].gen, s.inflight[p].args)],
                 inflight := s.inflight[p := s.inflight[p].(sent := true)])
    case Acknowledge(p, eventId) =>
      p in s.inflight && s.inflight[p].sent &&
        Finishes(cfg, s, s', p, Proof(eventId), t, s.acked + {s.inflight[p].args.correlation})
    case Fail(p, error) =>
      p in s.inflight && Finishes(cfg, s, s', p, FailureOutcome(cfg, s.inflight[p].attempts, error), t, s.acked)
    case Skip(p, why) =>
      p in s.inflight && !s.inflight[p].sent && Finishes(cfg, s, s', p, Suppress(why), t, s.acked)
    case Shutdown(p) =>
      s' == s.(entries := HandedBack(p, s.entries, t),
               handbacks := map k | k in s.handbacks ::
                 s.handbacks[k] + (if k in s.entries && s.entries[k].state.Sending? && s.entries[k].leaseOwner == Some(p) then 1 else 0))
    case Crash(p) => s' == s.(inflight := s.inflight - {p})
  }

  /** The bookkeeping of an enqueue that left the entries `m`. */
  function AfterEnqueue(s: System, m: Entries, args: Args, r: EnqueueResult): (s': System)
    ensures s'.entries == m
  {
    if r.Enqueued?
    then s.(entries := m, gen := s.gen[args.correlation := |s.first|],
            handbacks := s.handbacks[args.correlation := 0], first := s.first + [args])
    else s.(entries := m)
  }

  /** The process keeps a copy of the entry it claimed. */
  function AfterClaim(s: System, m: Entries, p: Owner, r: Option<Id>): (s': System)
    ensures s'.entries == m
  {
    if r.Some? && r.value in m && r.value in s.gen && m[r.value].args.Some?
    then s.(entries := m,
            inflight := s.inflight[p := Copy(r.value, s.gen[r.value], m[r.value].attempts, m[r.value].args.value, false)])
    else s.(entries := m)
  }

  ghost predicate Finishes(cfg: Config, s: System, s': System, p: Owner, o: Outcome, t: int, acked: set<Id>)
    requires p in s.inflight
  {
    exists applied ::
      && FinishStep(cfg, p, s.entries, s'.entries, s.inflight[p].id, o, t, applied)
      && s' == s.(entries := s'.entries, inflight := s.inflight - {p}, acked := acked)
  }

  // ---------------------------------------------------------------- the invariant

  function AttemptLimit(cfg: Config): int {
    if cfg.maxAttempts < 1 then 1 else cfg.maxAttempts
  }

  /** What holds of one ledger entry in every reachable state. */
  ghost predicate EntryOk(cfg: Config, s: System, k: Id)
    requires k in s.entries
  {
    var e := s.entries[k];
    && k in s.gen && k in s.handbacks && s.gen[k] < |s.first|
    && s.first[s.gen[k]].correlation == k
    && (!Terminal(e.state) ==> e.args == Some(s.first[s.gen[k]]))
    && (Terminal(e.state) ==> e.args.None?)
    && e.attempts <= AttemptLimit(cfg) + s.handbacks[k]
    && (e.state.Pending? ==> e.attempts < AttemptLimit(cfg) + s.handbacks[k] && e.leaseOwner.None?)
    && (e.state.Delivered? ==> k in s.acked && e.receiverEventId.Some?)
  }

  /** A process's copy is of an entry as first enqueued; while it holds the lease the
      copy's attempt number is the ledger's. */
  ghost predicate CopyOk(s: System, p: Owner)
    requires p in s.inflight
  {
    var c := s.inflight[p];
    && c.gen < |s.first| && c.args == s.first[c.gen] && c.args.correlation == c.id
    && (c.sent ==> (c.gen, c.args) in s.sent)
    && (c.id in s.entries && s.entries[c.id].state.Sending? && s.entries[c.id].leaseOwner == Some(p) ==>
          c.id in s.gen && s.gen[c.id] == c.gen && s.entries[c.id].attempts == c.attempts)
  }

  ghost predicate EntriesOk(cfg: Config, s: System) {
    forall k :: k in s.entries ==> EntryOk(cfg, s, k)
  }

  ghost predicate CopiesOk(s: System) {
    forall p :: p in s.inflight ==> CopyOk(s, p)
  }

  /** Every send carried the arguments of the enqueue it was for, and only what had been
      sent was ever acknowledged. */
  ghost predicate LogOk(s: System) {
    && (forall i :: 0 <= i < |s.sent| ==> s.sent[i].0 < |s.first| && s.sent[i].1 == s.first[s.sent[i].0])
    && (forall k :: k in s.acked ==> exists i :: 0 <= i < |s.sent| && s.sent[i].1.correlation == k)
  }

  ghost predicate Inv(cfg: Config, s: System) {
    && EntriesOk(cfg, s) && CopiesOk(s) && LogOk(s)
    && |Live(s.entries)| <= (if cfg.maxPending < 0 then 0 else cfg.maxPending)
  }

  // ---------------------------------------------------------------- every step keeps it

  lemma PruneKeepsInv(cfg: Config, s: System, m: Entries, t: int)
    requires Inv(cfg, s) && Pruned(cfg, s.entries, m, t)
    ensures Inv(cfg, s.(entries := m))
  {
    var s1 := s.(entries := m);
    PrunedKeepsLive(cfg, s.entries, m, t);
    forall k | k in m ensures EntryOk(cfg, s1, k) { assert EntryOk(cfg, s, k); }
    forall q | q in s1.inflight ensures CopyOk(s1, q) { assert CopyOk(s, q); }
  }

  /** Replacing one entry in place. */
  lemma UpdateKeepsInv(cfg: Config, s: System, s1: System, id: Id, e: Entry)
    requires Inv(cfg, s) && id in s.entries && s1 == s.(entries := s.entries[id := e])
    requires EntryOk(cfg, s1, id)
    requires Terminal(s.entries[id].state) ==> Terminal(e.state)
    requires e.state.Sending? ==> e == s.entries[id]
    ensures Inv(cfg, s1)
  {
    assert Live(s1.entries) <= Live(s.entries);
    LiveNotMore(s.entries, s1.entries);
    forall k | k in s1.entries ensures EntryOk(cfg, s1, k) {
      if k != id { assert EntryOk(cfg, s, k); }
    }
    forall q | q in s1.inflight ensures CopyOk(s1, q) { assert CopyOk(s, q); }
  }

  lemma NewEntriesOk(cfg: Config, s: System, args: Args, t: int, m1: Entries)
    requires EntriesOk(cfg, s) && m1 == s.entries[args.correlation := New(args, t)]
    ensures EntriesOk(cfg, AfterEnqueue(s, m1, args, Enqueued))
  {
    var s1 := AfterEnqueue(s, m1, args, Enqueued);
    forall k | k in m1 ensures EntryOk(cfg, s1, k) {
      if k != args.correlation { assert EntryOk(cfg, s, k); }
    }
  }

  lemma NewCopiesOk(s: System, args: Args, t: int, m1: Entries)
    requires CopiesOk(s) && m1 == s.entries[args.correlation := New(args, t)] && args.correlation !in s.entries
    ensures CopiesOk(AfterEnqueue(s, m1, args, Enqueued))
  {
    var s1 := AfterEnqueue(s, m1, args, Enqueued);
    forall p | p in s1.inflight ensures CopyOk(s1, p) { assert CopyOk(s, p); }
  }

  /** Adding the new entry, before pruning. */
  lemma NewKeepsInv(cfg: Config, s: System, args: Args, t: int, m1: Entries)
    requires Inv(cfg, s) && args.correlation !in s.entries && |Live(s.entries)| < cfg.maxPending
    requires m1 == s.entries[args.correlation := New(args, t)]
    ensures Inv(cfg, AfterEnqueue(s, m1, args, Enqueued))
  {
    hide EntriesOk, CopiesOk;
    NewEntriesOk(cfg, s, args, t, m1);
    NewCopiesOk(s, args, t, m1);
    assert Live(m1) == Live(s.entries) + {args.correlation};
  }

  lemma EnqueueKeepsInv(cfg: Config, s: System, m: Entries, args: Args, t: int, r: EnqueueResult)
    requires Inv(cfg, s) && EnqueueStep(cfg, s.entries, m, args, t, r)
    ensures Inv(cfg, AfterEnqueue(s, m, args, r))
  {
    hide EntriesOk, CopiesOk, LogOk, Pruned, Live;
    if r.Enqueued? {
      var m1 := s.entries[args.correlation := New(args, t)];
      NewKeepsInv(cfg, s, args, t, m1);
      PruneKeepsInv(cfg, AfterEnqueue(s, m1, args, r), m, t);
    }
  }

  lemma ExhaustedKeepsInv(cfg: Config, s: System, mid: Entries, t: int)
    requires Inv(cfg, s) && Exhausted(cfg, s.entries, mid, t)
    ensures Inv(cfg, s.(entries := mid))
  {
    var s1 := s.(entries := mid);
    LiveNotMore(s.entries, mid);
    forall k | k in mid ensures EntryOk(cfg, s1, k) { assert EntryOk(cfg, s, k); }
    forall q | q in s1.inflight ensures CopyOk(s1, q) { assert CopyOk(s, q); }
  }

  /** Taking the lease: the process's copy is made of the entry as leased. */
  lemma LeaseKeepsInv(cfg: Config, s: System, p: Owner, id: Id, t: int, m1: Entries)
    requires Inv(cfg, s) && p !in s.inflight && Claimable(cfg, s.entries, id, t)
    requires m1 == s.entries[id := Leased(s.entries[id], p, t, cfg.leaseMs)]
    ensures Inv(cfg, AfterClaim(s, m1, p, Some(id))) && p in AfterClaim(s, m1, p, Some(id)).inflight
  {
    var s1 := AfterClaim(s, m1, p, Some(id));
    assert EntryOk(cfg, s, id);
    assert Live(m1) == Live(s.entries);
    forall k | k in m1 ensures EntryOk(cfg, s1, k) {
      if k != id { assert EntryOk(cfg, s, k); }
    }
    forall q | q in s1.inflight ensures CopyOk(s1, q) {
      if q != p { assert CopyOk(s, q); }
    }
  }

  lemma ClaimKeepsInv(cfg: Config, s: System, m: Entries, p: Owner, t: int, r: Option<Id>)
    requires Inv(cfg, s) && p !in s.inflight && ClaimStep(cfg, p, s.entries, m, t, r)
    ensures Inv(cfg, AfterClaim(s, m, p, r))
    ensures r.Some? ==> p in AfterClaim(s, m, p, r).inflight
  {
    hide Inv, AfterClaim, Pruned, Due;
    var mid: Entries :| Exhausted(cfg, s.entries, mid, t) &&
      match r
      case None => m == mid
      case Some(id) => Claimable(cfg, mid, id, t) && Pruned(cfg, mid[id := Leased(mid[id], p, t, cfg.leaseMs)], m, t);
    ExhaustedKeepsInv(cfg, s, mid, t);
    if r.Some? {
      var id := r.value;
      var s1 := s.(entries := mid);
      var m1 := mid[id := Leased(mid[id], p, t, cfg.leaseMs)];
      LeaseKeepsInv(cfg, s1, p, id, t, m1);
      PruneKeepsInv(cfg, AfterClaim(s1, m1, p, r), m, t);
      ClaimAfterPrune(cfg, s, s1, m1, m, p, id, t);
    } else {
      ClaimNothing(s, m, p);
    }
  }

  lemma ClaimNothing(s: System, m: Entries, p: Owner)
    ensures AfterClaim(s, m, p, None) == s.(entries := m)
  {
  }

  /** Pruning does not touch the entry just leased, so the copy is the same. */
  lemma ClaimAfterPrune(cfg: Config, s: System, s1: System, m1: Entries, m: Entries, p: Owner, id: Id, t: int)
    requires s1 == s.(entries := s1.entries) && id in m1 && m1[id].state.Sending? && Pruned(cfg, m1, m, t)
    ensures AfterClaim(s, m, p, Some(id)) == AfterClaim(s1, m1, p, Some(id)).(entries := m)
    ensures p in AfterClaim(s1, m1, p, Some(id)).inflight ==> p in AfterClaim(s, m, p, Some(id)).inflight
  {
    assert id in m && m[id] == m1[id];
  }

  /** An accepted outcome: what the entry becomes is allowed. */
  lemma AppliedOk(cfg: Config, s: System, p: Owner, o: Outcome, t: int)
    requires Inv(cfg, s) && p in s.inflight
    requires var c := s.inflight[p]; Accepts(s.entries, c.id, p, o)
    requires o.Proof? ==> s.inflight[p].args.correlation in s.acked
    requires o.Retry? ==> s.inflight[p].attempts < cfg.maxAttempts
    ensures var c := s.inflight[p];
      EntryOk(cfg, s.(entries := s.entries[c.id := Applied(s.entries[c.id], o, t)]), c.id)
  {
    var c := s.inflight[p];
    assert CopyOk(s, p);
    assert EntryOk(cfg, s, c.id);
  }

  lemma AckKeepsInv(cfg: Config, s: System, p: Owner)
    requires Inv(cfg, s) && p in s.inflight && s.inflight[p].sent
    ensures Inv(cfg, s.(acked := s.acked + {s.inflight[p].args.correlation}))
  {
    var c := s.inflight[p];
    var s1 := s.(acked := s.acked + {c.args.correlation});
    assert CopyOk(s, p);
    var i :| 0 <= i < |s.sent| && s.sent[i] == (c.gen, c.args);
    assert s1.sent[i].1.correlation == c.args.correlation;
    forall k | k in s1.acked ensures exists j :: 0 <= j < |s1.sent| && s1.sent[j].1.correlation == k {
      if k in s.acked {
        var j :| 0 <= j < |s.sent| && s.sent[j].1.correlation == k;
        assert s1.sent[j].1.correlation == k;
      }
    }
    forall k | k in s1.entries ensures EntryOk(cfg, s1, k) { assert EntryOk(cfg, s, k); }
    forall q | q in s1.inflight ensures CopyOk(s1, q) { assert CopyOk(s, q); }
  }

  lemma DropKeepsInv(cfg: Config, s: System, p: Owner)
    requires Inv(cfg, s)
    ensures Inv(cfg, s.(inflight := s.inflight - {p}))
  {
    var s1 := s.(inflight := s.inflight - {p});
    forall k | k in s1.entries ensures EntryOk(cfg, s1, k) { assert EntryOk(cfg, s, k); }
    forall q | q in s1.inflight ensures CopyOk(s1, q) { assert CopyOk(s, q); }
  }

  lemma FinishKeepsInv(cfg: Config, s: System, m: Entries, p: Owner, o: Outcome, t: int, applied: bool)
    requires Inv(cfg, s) && p in s.inflight && FinishStep(cfg, p, s.entries, m, s.inflight[p].id, o, t, applied)
    requires o.Proof? ==> s.inflight[p].args.correlation in s.acked
    requires o.Retry? ==> s.inflight[p].attempts < cfg.maxAttempts
    ensures Inv(cfg, s.(entries := m, inflight := s.inflight - {p}))
  {
    hide Inv, EntryOk;
    var id := s.inflight[p].id;
    if applied {
      AppliedOk(cfg, s, p, o, t);
      var e := Applied(s.entries[id], o, t);
      var s1 := s.(entries := s.entries[id := e]);
      UpdateKeepsInv(cfg, s, s1, id, e);
      PruneKeepsInv(cfg, s1, m, t);
    }
    DropKeepsInv(cfg, s.(entries := m), p);
  }

  lemma FinishesKeepsInv(cfg: Config, s: System, s': System, p: Owner, o: Outcome, t: int, acked: set<Id>)
    requires Inv(cfg, s) && p in s.inflight && Finishes(cfg, s, s', p, o, t, acked)
    requires if o.Proof? then s.inflight[p].sent && acked == s.acked + {s.inflight[p].args.correlation} else acked == s.acked
    requires o.Retry? ==> s.inflight[p].attempts < cfg.maxAttempts
    ensures Inv(cfg, s')
  {
    hide Inv, FinishStep;
    var applied :| FinishStep(cfg, p, s.entries, s'.entries, s.inflight[p].id, o, t, applied) &&
                   s' == s.(entries := s'.entries, inflight := s.inflight - {p}, acked := acked);
    if o.Proof? { AckKeepsInv(cfg, s, p); }
    FinishKeepsInv(cfg, s.(acked := acked), s'.entries, p, o, t, applied);
  }

  lemma ShutdownKeepsInv(cfg: Config, s: System, s': System, p: Owner, t: int)
    requires Inv(cfg, s) && Next(cfg, s, s', Shutdown(p), t)
    ensures Inv(cfg, s')
  {
    assert Live(s'.entries) == Live(s.entries);
    forall k | k in s'.entries ensures EntryOk(cfg, s', k) { assert EntryOk(cfg, s, k); }
    forall q | q in s'.inflight ensures CopyOk(s', q) { assert CopyOk(s, q); }
  }

  lemma SendKeepsInv(cfg: Config, s: System, s': System, p: Owner, t: int)
    requires Inv(cfg, s) && Next(cfg, s, s', Send(p), t)
    ensures Inv(cfg, s')
  {
    assert CopyOk(s, p);
    var c := s.inflight[p];
    assert s'.sent[|s.sent|] == (c.gen, c.args);
    forall k | k in s'.entries ensures EntryOk(cfg, s', k) { assert EntryOk(cfg, s, k); }
    forall q | q in s'.inflight ensures CopyOk(s', q) { assert CopyOk(s, q); }
    forall k | k in s'.acked ensures exists i :: 0 <= i < |s'.sent| && s'.sent[i].1.correlation == k {
      var i :| 0 <= i < |s.sent| && s.sent[i].1.correlation == k;
      assert s'.sent[i] == s.sent[i];
    }
  }

  lemma NextKeepsInv(cfg: Config, s: System, s': System, ev: Event, t: int)
    requires Inv(cfg, s) && Next(cfg, s, s', ev, t)
    ensures Inv(cfg, s')
  {
    hide Inv, EnqueueStep, ClaimStep, Finishes, AfterEnqueue, AfterClaim;
    match ev
    case Enqueue(args) =>
      var r :| EnqueueStep(cfg, s.entries, s'.entries, args, t, r) && s' == AfterEnqueue(s, s'.entries, args, r);
      EnqueueKeepsInv(cfg, s, s'.entries, args, t, r);
    case Claim(p) =>
      var r :| ClaimStep(cfg, p, s.entries, s'.entries, t, r) && s' == AfterClaim(s, s'.entries, p, r);
      ClaimKeepsInv(cfg, s, s'.entries, p, t, r);
    case Send(p) => SendKeepsInv(cfg, s, s', p, t);
    case Acknowledge(p, eventId) =>
      FinishesKeepsInv(cfg, s, s', p, Proof(eventId), t, s.acked + {s.inflight[p].args.correlation});
    case Fail(p, error) => FinishesKeepsInv(cfg, s, s', p, FailureOutcome(cfg, s.inflight[p].attempts, error), t, s.acked);
    case Skip(p, why) => FinishesKeepsInv(cfg, s, s', p, Suppress(why), t, s.acked);
    case Shutdown(p) => ShutdownKeepsInv(cfg, s, s', p, t);
    case Crash(p) => DropKeepsInv(cfg, s, p);
  }

  // ---------------------------------------------------------------- what one step may change

  /** The same entry before and after a step: delivered is final, the other terminal
      states can only become delivered, and that only by an acknowledgement for it. */
  ghost predicate EntryMoves(s: System, s': System, ev: Event, k: Id)
    requires k in s.entries && k in s'.entries
  {
    var a, b := s.entries[k], s'.entries[k];
    && (a.state.Delivered? ==> b == a)
    && (Terminal(a.state) && !a.state.Delivered? ==> b == a || b.state.Delivered?)
    && (b.state.Delivered? && !a.state.Delivered? ==>
          ev.Acknowledge? && ev.owner in s.inflight && s.inflight[ev.owner].sent && s.inflight[ev.owner].id == k)
    && (b.attempts != a.attempts ==> ev.Claim? && b.attempts == a.attempts + 1)
  }

  /** The step that may end an owed entry: an outcome of its delivery, or the discovery
      that its last lease ran out. */
  predicate EndsHere(cfg: Config, s: System, ev: Event, t: int, k: Id) {
    match ev
    case Acknowledge(p, _) => p in s.inflight && s.inflight[p].id == k
    case Fail(p, _) => p in s.inflight && s.inflight[p].id == k && s.inflight[p].attempts >= cfg.maxAttempts
    case Skip(p, _) => p in s.inflight && s.inflight[p].id == k
    case Claim(p) => k in s.entries && s.entries[k].state.Sending? && s.entries[k].leaseUntil <= t && s.entries[k].attempts >= cfg.maxAttempts
    case _ => false
  }

  /** The entry `k` after a step is the entry `k` before it, moved as allowed. */
  ghost predicate KeyOk(s: System, s': System, ev: Event, k: Id) {
    && (k in s'.entries && k in s'.gen && s'.gen[k] < |s.first| ==> k in s.entries && k in s.gen && s.gen[k] == s'.gen[k])
    && (k in s.entries && k in s'.entries && k in s.gen ==> k in s'.gen && s'.gen[k] == s.gen[k] && EntryMoves(s, s', ev, k))
  }

  ghost predicate OwedKept(cfg: Config, s: System, s': System, ev: Event, t: int, k: Id) {
    k in s.entries && !Terminal(s.entries[k].state) && !EndsHere(cfg, s, ev, t, k) ==>
      k in s'.entries && !Terminal(s'.entries[k].state)
  }

  ghost predicate StepOk(cfg: Config, s: System, s': System, ev: Event, t: int) {
    && s.first <= s'.first
    && forall k :: KeyOk(s, s', ev, k) && OwedKept(cfg, s, s', ev, t, k)
  }

  lemma FinishesStepOk(cfg: Config, s: System, s': System, ev: Event, p: Owner, o: Outcome, t: int, acked: set<Id>)
    requires Inv(cfg, s) && p in s.inflight && Finishes(cfg, s, s', p, o, t, acked)
    requires match o
      case Proof(_) => ev.Acknowledge? && ev.owner == p && s.inflight[p].sent
      case Suppress(_) => ev.Skip? && ev.owner == p
      case GiveUp(_) => ev.Fail? && ev.owner == p && s.inflight[p].attempts >= cfg.maxAttempts
      case Retry(_, _) => ev.Fail? && ev.owner == p
    ensures StepOk(cfg, s, s', ev, t)
  {
    hide EntryOk, KeyOk, OwedKept, Accepts;
    var c := s.inflight[p];
    var applied :| FinishStep(cfg, p, s.entries, s'.entries, c.id, o, t, applied) &&
                   s' == s.(entries := s'.entries, inflight := s.inflight - {p}, acked := acked);
    forall k ensures KeyOk(s, s', ev, k) && OwedKept(cfg, s, s', ev, t, k) {
      if k in s.entries { AtMostFirst(cfg, s, k); }
      FinishKeyOk(cfg, s, s', ev, p, o, t, applied, k);
    }
  }

  lemma FinishKeyOk(cfg: Config, s: System, s': System, ev: Event, p: Owner, o: Outcome, t: int, applied: bool, k: Id)
    requires p in s.inflight && FinishStep(cfg, p, s.entries, s'.entries, s.inflight[p].id, o, t, applied)
    requires k in s.entries ==> k in s.gen
    requires s'.gen == s.gen && s'.first == s.first
    requires match o
      case Proof(_) => ev.Acknowledge? && ev.owner == p && s.inflight[p].sent
      case Suppress(_) => ev.Skip? && ev.owner == p
      case GiveUp(_) => ev.Fail? && ev.owner == p && s.inflight[p].attempts >= cfg.maxAttempts
      case Retry(_, _) => ev.Fail? && ev.owner == p
    ensures KeyOk(s, s', ev, k) && OwedKept(cfg, s, s', ev, t, k)
  {
    hide Pruned;
    var id := s.inflight[p].id;
    if applied { PrunedAt(cfg, s.entries[id := Applied(s.entries[id], o, t)], s'.entries, t, k); }
  }

  lemma EnqueueStepOk(cfg: Config, s: System, m: Entries, args: Args, t: int, r: EnqueueResult)
    requires Inv(cfg, s) && EnqueueStep(cfg, s.entries, m, args, t, r)
    ensures StepOk(cfg, s, AfterEnqueue(s, m, args, r), Enqueue(args), t)
  {
    var s' := AfterEnqueue(s, m, args, r);
    forall k ensures KeyOk(s, s', Enqueue(args), k) && OwedKept(cfg, s, s', Enqueue(args), t, k) {
      if k in s.entries { assert EntryOk(cfg, s, k); }
      if r.Enqueued? && k in m && k != args.correlation { assert k in s.entries && m[k] == s.entries[k]; }
    }
  }

  lemma ClaimKeyOk(cfg: Config, s: System, s': System, mid: Entries, p: Owner, t: int, r: Option<Id>, m1: Entries, k: Id)
    requires k in s.entries ==> EntryOk(cfg, s, k)
    requires Exhausted(cfg, s.entries, mid, t) && (r.Some? ==> Claimable(cfg, mid, r.value, t))
    requires m1 == if r.Some? then mid[r.value := Leased(mid[r.value], p, t, cfg.leaseMs)] else mid
    requires s'.gen == s.gen && s'.first == s.first
    requires k in s'.entries ==> k in m1 && s'.entries[k] == m1[k]
    requires k in m1 && !Terminal(m1[k].state) ==> k in s'.entries
    ensures KeyOk(s, s', Claim(p), k) && OwedKept(cfg, s, s', Claim(p), t, k)
  {
  }

  lemma AfterClaimKeeps(s: System, m: Entries, p: Owner, r: Option<Id>)
    ensures var s' := AfterClaim(s, m, p, r); s'.entries == m && s'.gen == s.gen && s'.first == s.first
  {
  }

  lemma PrunedAt(cfg: Config, m: Entries, m': Entries, t: int, k: Id)
    requires Pruned(cfg, m, m', t)
    ensures k in m' ==> k in m && m'[k] == m[k]
    ensures k in m && !Terminal(m[k].state) ==> k in m'
  {
  }

  lemma ClaimStepOk(cfg: Config, s: System, m: Entries, p: Owner, t: int, r: Option<Id>)
    requires Inv(cfg, s) && ClaimStep(cfg, p, s.entries, m, t, r)
    ensures StepOk(cfg, s, AfterClaim(s, m, p, r), Claim(p), t)
  {
    hide EntryOk, KeyOk, OwedKept, AfterClaim;
    var s' := AfterClaim(s, m, p, r);
    AfterClaimKeeps(s, m, p, r);
    var mid: Entries :| Exhausted(cfg, s.entries, mid, t) &&
      match r
      case None => m == mid
      case Some(id) => Claimable(cfg, mid, id, t) && id in mid && Pruned(cfg, mid[id := Leased(mid[id], p, t, cfg.leaseMs)], m, t);
    var m1 := if r.Some? then mid[r.value := Leased(mid[r.value], p, t, cfg.leaseMs)] else mid;
    forall k ensures KeyOk(s, s', Claim(p), k) && OwedKept(cfg, s, s', Claim(p), t, k) {
      if r.Some? { PrunedAt(cfg, m1, m, t, k); }
      ClaimKeyOk(cfg, s, s', mid, p, t, r, m1, k);
    }
  }

  /** Every step of every process respects the life of an entry. */
  lemma NextStepOk(cfg: Config, s: System, s': System, ev: Event, t: int)
    requires Inv(cfg, s) && Next(cfg, s, s', ev, t)
    ensures StepOk(cfg, s, s', ev, t)
  {
    hide EnqueueStep, ClaimStep, Finishes, AfterEnqueue, AfterClaim, StepOk;
    match ev
    case Enqueue(args) =>
      var r :| EnqueueStep(cfg, s.entries, s'.entries, args, t, r) && s' == AfterEnqueue(s, s'.entries, args, r);
      EnqueueStepOk(cfg, s, s'.entries, args, t, r);
    case Claim(p) =>
      var r :| ClaimStep(cfg, p, s.entries, s'.entries, t, r) && s' == AfterClaim(s, s'.entries, p, r);
      ClaimStepOk(cfg, s, s'.entries, p, t, r);
    case Acknowledge(p, eventId) =>
      FinishesStepOk(cfg, s, s', ev, p, Proof(eventId), t, s.acked + {s.inflight[p].args.correlation});
    case Fail(p, error) => FinishesStepOk(cfg, s, s', ev, p, FailureOutcome(cfg, s.inflight[p].attempts, error), t, s.acked);
    case Skip(p, why) => FinishesStepOk(cfg, s, s', ev, p, Suppress(why), t, s.acked);
    case Send(p) => QuietStepOk(cfg, s, s', ev, t);
    case Shutdown(p) => QuietStepOk(cfg, s, s', ev, t);
    case Crash(p) => QuietStepOk(cfg, s, s', ev, t);
  }

  lemma QuietStepOk(cfg: Config, s: System, s': System, ev: Event, t: int)
    requires Inv(cfg, s) && Next(cfg, s, s', ev, t) && (ev.Send? || ev.Shutdown? || ev.Crash?)
    ensures StepOk(cfg, s, s', ev, t)
  {
    forall k ensures KeyOk(s, s', ev, k) && OwedKept(cfg, s, s', ev, t, k) {
      if k in s.entries { assert EntryOk(cfg, s, k); }
    }
  }

  // ---------------------------------------------------------------- whole runs

  datatype Run = Run(states: seq<System>, events: seq<(Event, int)>)

  ghost predicate IsRun(cfg: Config, r: Run) {
    && |r.states| == |r.events| + 1 && r.states[0] == EMPTY
    && forall i :: 0 <= i < |r.events| ==> Next(cfg, r.states[i], r.states[i + 1], r.events[i].0, r.events[i].1)
  }

  lemma {:induction false} RunInv(cfg: Config, r: Run, i: nat)
    requires IsRun(cfg, r) && i < |r.states|
    ensures Inv(cfg, r.states[i])
  {
    if i == 0 {
      assert Live(EMPTY.entries) == {};
    } else {
      RunInv(cfg, r, i - 1);
      NextKeepsInv(cfg, r.states[i - 1], r.states[i], r.events[i - 1].0, r.events[i - 1].1);
    }
  }

  /** The entry with this id and generation is in the ledger at both ends of a stretch
      of the run, so it was there all along. */
  ghost predicate SameEntry(r: Run, i: nat, j: nat, k: Id)
    requires i <= j < |r.states|
  {
    var s, s' := r.states[i], r.states[j];
    k in s.entries && k in s'.entries && k in s.gen && k in s'.gen && s.gen[k] == s'.gen[k]
  }

  lemma FirstGrows(cfg: Config, r: Run, i: nat, j: nat)
    requires IsRun(cfg, r) && i <= j < |r.states|
    ensures r.states[i].first <= r.states[j].first
    decreases j - i
  {
    hide Next, KeyOk, OwedKept, Inv;
    if i < j {
      RunInv(cfg, r, j - 1);
      NextStepOk(cfg, r.states[j - 1], r.states[j], r.events[j - 1].0, r.events[j - 1].1);
      FirstGrows(cfg, r, i, j - 1);
    }
  }

  lemma EntryBefore(cfg: Config, r: Run, i: nat, j: nat, k: Id)
    requires IsRun(cfg, r) && i < j < |r.states| && SameEntry(r, i, j, k)
    ensures SameEntry(r, i, j - 1, k)
    ensures EntryMoves(r.states[j - 1], r.states[j], r.events[j - 1].0, k)
  {
    hide Next, EntryMoves, OwedKept;
    RunInv(cfg, r, i);
    RunInv(cfg, r, j - 1);
    assert EntryOk(cfg, r.states[i], k);
    FirstGrows(cfg, r, i, j - 1);
    NextStepOk(cfg, r.states[j - 1], r.states[j], r.events[j - 1].0, r.events[j - 1].1);
    assert KeyOk(r.states[j - 1], r.states[j], r.events[j - 1].0, k);
  }

  /** Delivered is final, and nothing else about a delivered entry changes any more. */
  lemma {:induction false} DeliveredIsFinal(cfg: Config, r: Run, i: nat, j: nat, k: Id)
    requires IsRun(cfg, r) && i <= j < |r.states| && SameEntry(r, i, j, k)
    requires r.states[i].entries[k].state.Delivered?
    ensures r.states[j].entries[k] == r.states[i].entries[k]
    decreases j - i
  {
    hide IsRun, Next;
    if i < j {
      EntryBefore(cfg, r, i, j, k);
      DeliveredIsFinal(cfg, r, i, j - 1, k);
    }
  }

  /** A failed or suppressed entry stays what it is until late proof delivers it. */
  lemma {:induction false} EndedOnlyDelivers(cfg: Config, r: Run, i: nat, j: nat, k: Id)
    requires IsRun(cfg, r) && i <= j < |r.states| && SameEntry(r, i, j, k)
    requires Terminal(r.states[i].entries[k].state)
    ensures r.states[j].entries[k] == r.states[i].entries[k] || r.states[j].entries[k].state.Delivered?
    decreases j - i
  {
    hide IsRun, Next;
    if i < j {
      EntryBefore(cfg, r, i, j, k);
      EndedOnlyDelivers(cfg, r, i, j - 1, k);
    }
  }

  /** An entry becomes delivered only in a step in which the receiver acknowledged a send
      of that very entry's correlation ID. */
  lemma {:induction false} DeliveredOnlyByProof(cfg: Config, r: Run, i: nat, j: nat, k: Id)
    requires IsRun(cfg, r) && i <= j < |r.states| && SameEntry(r, i, j, k)
    requires !r.states[i].entries[k].state.Delivered? && r.states[j].entries[k].state.Delivered?
    ensures exists n :: i <= n < j && r.events[n].0.Acknowledge? &&
              r.events[n].0.owner in r.states[n].inflight && r.states[n].inflight[r.events[n].0.owner].id == k &&
              r.states[n].inflight[r.events[n].0.owner].sent
    decreases j - i
  {
    EntryBefore(cfg, r, i, j, k);
    if r.states[j - 1].entries[k].state.Delivered? {
      DeliveredOnlyByProof(cfg, r, i, j - 1, k);
    } else {
      assert r.events[j - 1].0.Acknowledge?;
    }
  }

  /** Every send made for an entry that is still in the ledger carried the arguments of
      the enqueue that created it, whichever process sent it and however often. */
  lemma SendsAreIdentical(cfg: Config, r: Run, i: nat, k: Id, n: nat)
    requires IsRun(cfg, r) && i < |r.states| && k in r.states[i].entries && n < |r.states[i].sent|
    ensures k in r.states[i].gen && r.states[i].gen[k] < |r.states[i].first|
    ensures r.states[i].first[r.states[i].gen[k]].correlation == k
    ensures r.states[i].sent[n].0 == r.states[i].gen[k] ==> r.states[i].sent[n].1 == r.states[i].first[r.states[i].gen[k]]
  {
    RunInv(cfg, r, i);
    assert EntryOk(cfg, r.states[i], k);
  }

  /** The ledger's bounds in every reachable state. */
  lemma Bounds(cfg: Config, r: Run, i: nat, k: Id)
    requires IsRun(cfg, r) && i < |r.states| && k in r.states[i].entries
    ensures k in r.states[i].handbacks
    ensures r.states[i].entries[k].attempts <= (if cfg.maxAttempts < 1 then 1 else cfg.maxAttempts) + r.states[i].handbacks[k]
    ensures cfg.maxPending >= 0 ==> |Live(r.states[i].entries)| <= cfg.maxPending
  {
    RunInv(cfg, r, i);
    assert EntryOk(cfg, r.states[i], k);
  }

  // ---------------------------------------------------------------- how often an entry is sent

  function SentFor(sent: seq<(nat, Args)>, g: nat): nat {
    if sent == [] then 0
    else SentFor(sent[..|sent| - 1], g) + (if sent[|sent| - 1].0 == g then 1 else 0)
  }

  lemma SentForMore(sent: seq<(nat, Args)>, x: (nat, Args), g: nat)
    ensures SentFor(sent + [x], g) == SentFor(sent, g) + (if x.0 == g then 1 else 0)
  {
    assert (sent + [x])[..|sent|] == sent;
  }

  lemma {:induction false} NeverSent(sent: seq<(nat, Args)>, g: nat)
    requires forall i :: 0 <= i < |sent| ==> sent[i].0 < g
    ensures SentFor(sent, g) == 0
  {
    if sent != [] { NeverSent(sent[..|sent| - 1], g); }
  }

  /** Processes that claimed the entry of generation `g` and have not sent it yet. */
  function Unsent(s: System, g: nat): set<Owner> {
    set p | p in s.inflight && s.inflight[p].gen == g && !s.inflight[p].sent
  }

  /** Sends made, plus sends that may still be made, never exceed the attempts recorded. */
  ghost predicate SendBound(s: System, k: Id) {
    k in s.entries && k in s.gen ==>
      SentFor(s.sent, s.gen[k]) + |Unsent(s, s.gen[k])| <= s.entries[k].attempts
  }

  lemma ClaimSendBound(cfg: Config, s: System, s': System, p: Owner, t: int, k: Id)
    requires Inv(cfg, s) && Next(cfg, s, s', Claim(p), t) && SendBound(s, k) && k in s'.entries
    ensures SendBound(s', k)
  {
    hide Inv, Pruned, Exhausted, Claimable;
    NextStepOk(cfg, s, s', Claim(p), t);
    NextKeepsInv(cfg, s, s', Claim(p), t);
    var r :| ClaimStep(cfg, p, s.entries, s'.entries, t, r) && s' == AfterClaim(s, s'.entries, p, r);
    ClaimCounts(cfg, s, s'.entries, p, t, r, k);
  }

  /** The claimed entry gains one attempt and at most one pending send; others neither. */
  lemma ClaimCounts(cfg: Config, s: System, m: Entries, p: Owner, t: int, r: Option<Id>, k: Id)
    requires Inv(cfg, s) && p !in s.inflight && ClaimStep(cfg, p, s.entries, m, t, r)
    requires SendBound(s, k) && k in m
    ensures SendBound(AfterClaim(s, m, p, r), k)
  {
    hide Inv, AfterClaim;
    var s' := AfterClaim(s, m, p, r);
    AfterClaimKeeps(s, m, p, r);
    ClaimAttempts(cfg, s, m, p, t, r, k);
    ClaimUnsent(cfg, s, m, p, r, k);
  }

  lemma ClaimAttempts(cfg: Config, s: System, m: Entries, p: Owner, t: int, r: Option<Id>, k: Id)
    requires ClaimStep(cfg, p, s.entries, m, t, r) && k in m
    ensures k in s.entries && m[k].attempts == s.entries[k].attempts + (if r == Some(k) then 1 else 0)
    ensures r.Some? ==> r.value in s.entries
  {
  }

  /** Different entries are of different generations. */
  lemma GenerationsDiffer(cfg: Config, s: System, j: Id, k: Id)
    requires EntriesOk(cfg, s) && j in s.entries && k in s.entries && j != k
    ensures j in s.gen && k in s.gen && s.gen[j] != s.gen[k]
  {
    assert EntryOk(cfg, s, j) && EntryOk(cfg, s, k);
  }

  lemma ClaimUnsent(cfg: Config, s: System, m: Entries, p: Owner, r: Option<Id>, k: Id)
    requires Inv(cfg, s) && p !in s.inflight && k in s.entries && (r.Some? ==> r.value in s.entries)
    ensures var s' := AfterClaim(s, m, p, r);
      s'.sent == s.sent && (k in s.gen ==> |Unsent(s', s.gen[k])| <= |Unsent(s, s.gen[k])| + (if r == Some(k) then 1 else 0))
  {
    hide EntryOk, CopyOk, LogOk;
    if k in s.gen {
      var s' := AfterClaim(s, m, p, r);
      var g := s.gen[k];
      if r == Some(k) {
        FewerOwners(Unsent(s', g), Unsent(s, g) + {p});
      } else {
        if r.Some? { GenerationsDiffer(cfg, s, r.value, k); }
        FewerOwners(Unsent(s', g), Unsent(s, g));
      }
    }
  }

  lemma FewerOwners(a: set<Owner>, b: set<Owner>)
    requires a <= b
    ensures |a| <= |b|
  {
    assert b == a + (b - a);
  }

  lemma OtherSendBound(cfg: Config, s: System, s': System, ev: Event, t: int, k: Id)
    requires Inv(cfg, s) && Next(cfg, s, s', ev, t) && !ev.Claim? && SendBound(s, k) && k in s'.entries
    ensures SendBound(s', k)
  {
    hide EntryOk, CopyOk, Pruned, Finishes, EnqueueStep;
    NextStepOk(cfg, s, s', ev, t);
    assert KeyOk(s, s', ev, k);
    if k in s'.gen {
      var g := s'.gen[k];
      if k in s.entries && k in s.gen && s.gen[k] == g {
        if ev.Send? && s.inflight[ev.owner].gen == g {
          SentForMore(s.sent, (g, s.inflight[ev.owner].args), g);
          assert Unsent(s', g) == Unsent(s, g) - {ev.owner};
          assert ev.owner in Unsent(s, g);
        } else {
          if ev.Send? { SentForMore(s.sent, (s.inflight[ev.owner].gen, s.inflight[ev.owner].args), g); }
          SameSends(cfg, s, s', ev, t, g);
        }
      } else {
        FreshSends(cfg, s, s', ev, t, k);
      }
    }
  }

  lemma SameSends(cfg: Config, s: System, s': System, ev: Event, t: int, g: nat)
    requires Next(cfg, s, s', ev, t) && !ev.Claim? && (ev.Send? ==> s.inflight[ev.owner].gen != g)
    ensures |Unsent(s', g)| <= |Unsent(s, g)|
    ensures !ev.Send? ==> s'.sent == s.sent
  {
    hide FinishStep, EnqueueStep;
    FewerOwners(Unsent(s', g), Unsent(s, g));
  }

  lemma FreshSends(cfg: Config, s: System, s': System, ev: Event, t: int, k: Id)
    requires Inv(cfg, s) && Next(cfg, s, s', ev, t) && !ev.Claim? && KeyOk(s, s', ev, k)
    requires k in s'.entries && k in s'.gen && !(k in s.entries && k in s.gen && s.gen[k] == s'.gen[k])
    ensures SentFor(s'.sent, s'.gen[k]) == 0 && Unsent(s', s'.gen[k]) == {}
  {
    hide FinishStep, EntryOk;
    assert s'.gen[k] >= |s.first|;
    assert ev.Enqueue? by {
      if !ev.Enqueue? { NextKeepsInv(cfg, s, s', ev, t); AtMostFirst(cfg, s', k); }
    }
    NeverSent(s.sent, s'.gen[k]);
    forall p | p in s.inflight ensures s.inflight[p].gen < |s.first| { assert CopyOk(s, p); }
  }

  lemma AtMostFirst(cfg: Config, s: System, k: Id)
    requires EntriesOk(cfg, s) && k in s.entries
    ensures k in s.gen && s.gen[k] < |s.first|
  {
    assert EntryOk(cfg, s, k);
  }

  /** In every reachable state an entry has been sent at most as often as its attempts
      say, hence at most the attempt limit plus its hand-backs. */
  lemma {:induction false} SendsAreBounded(cfg: Config, r: Run, i: nat, k: Id)
    requires IsRun(cfg, r) && i < |r.states| && k in r.states[i].entries
    ensures k in r.states[i].gen && k in r.states[i].handbacks
    ensures SentFor(r.states[i].sent, r.states[i].gen[k]) <= (if cfg.maxAttempts < 1 then 1 else cfg.maxAttempts) + r.states[i].handbacks[k]
  {
    Bounds(cfg, r, i, k);
    RunInv(cfg, r, i);
    AtMostFirst(cfg, r.states[i], k);
    RunSendBound(cfg, r, i, k);
  }

  lemma {:induction false} RunSendBound(cfg: Config, r: Run, i: nat, k: Id)
    requires IsRun(cfg, r) && i < |r.states|
    ensures SendBound(r.states[i], k)
  {
    hide Inv, Next, SendBound;
    if i == 0 {
      EmptySendBound(k);
    } else {
      var s, s' := r.states[i - 1], r.states[i];
      RunInv(cfg, r, i - 1);
      RunSendBound(cfg, r, i - 1, k);
      if k in s'.entries {
        match r.events[i - 1].0
        case Claim(p) => ClaimSendBound(cfg, s, s', p, r.events[i - 1].1, k);
        case _ => OtherSendBound(cfg, s, s', r.events[i - 1].0, r.events[i - 1].1, k);
      } else {
        AbsentSendBound(s', k);
      }
    }
  }

  lemma EmptySendBound(k: Id)
    ensures SendBound(EMPTY, k)
  {
  }

  lemma AbsentSendBound(s: System, k: Id)
    requires k !in s.entries
    ensures SendBound(s, k)
  {
  }

  // ---------------------------------------------------------------- one delivery

  /** What the fresh look at the window said immediately before sending. */
  datatype Verdict = Clear | Withhold(why: string) | RecheckFailed(why: string)

  /** The relay client's answer; a send that throws is a failure too. */
  datatype SendResult = Ok(eventId: string) | Failure(error: string)

  predicate EventIdChar(c: char) {
    'A' <= c <= 'Z' || 'a' <= c <= 'z' || '0' <= c <= '9'
  }

  predicate ValidEventId(id: string) {
    && 1 <= |id| <= 128 && EventIdChar(id[0])
    && forall i :: 1 <= i < |id| ==> EventIdChar(id[i]) || id[i] in "._:-"
  }

  /** By character codes: a letter or digit, then up to 127 of letters, digits, dots,
      underscores, colons and dashes. */
  lemma ValidEventIdIff(id: string)
    ensures ValidEventId(id) <==>
            && id != "" && |id| <= 128
            && (forall i :: 0 <= i < |id| ==>
                  var c := id[i] as int;
                  48 <= c <= 57 || 65 <= c <= 90 || 97 <= c <= 122 || (i > 0 && c in {45, 46, 58, 95}))
  {
    if ValidEventId(id) {
      forall i | 0 <= i < |id|
        ensures var c := id[i] as int; 48 <= c <= 57 || 65 <= c <= 90 || 97 <= c <= 122 || (i > 0 && c in {45, 46, 58, 95})
      {
        if i > 0 { assert EventIdChar(id[i]) || id[i] in "._:-"; }
      }
    }
  }

  function DeliveryOutcome(cfg: Config, attempts: nat, verdict: Verdict, result: SendResult): (o: Outcome)
    ensures o.Proof? <==> verdict.Clear? && result.Ok? && ValidEventId(result.eventId)
    ensures o.Suppress? <==> verdict.Withhold?
    ensures o.GiveUp? ==> attempts >= cfg.maxAttempts
    ensures o.Retry? ==> attempts < cfg.maxAttempts
  {
    match verdict
    case Withhold(why) => Suppress(why)
    case RecheckFailed(why) => FailureOutcome(cfg, attempts, why)
    case Clear =>
      match result
      case Ok(eventId) => if ValidEventId(eventId) then Proof(eventId) else FailureOutcome(cfg, attempts, "no_result")
      case Failure(error) => FailureOutcome(cfg, attempts, error)
  }

  // ---------------------------------------------------------------- the code

  lemma MapWithout(m: Entries, k: Id)
    requires k in m
    ensures |m - {k}| == |m| - 1
  {
    assert (m - {k}).Keys == m.Keys - {k};
  }

  predicate SortedByUpdate(m: Entries, ids: seq<Id>)
    requires forall k :: k in ids ==> k in m
  {
    ids == [] || ((forall k :: k in ids[1..] ==> m[ids[0]].updatedAt <= m[k].updatedAt) && SortedByUpdate(m, ids[1..]))
  }

  /** Insertion behind the entries that are not younger, as a stable sort places it. */
  function Insert(m: Entries, ids: seq<Id>, id: Id): (r: seq<Id>)
    requires id in m && (forall k :: k in ids ==> k in m) && SortedByUpdate(m, ids)
    ensures forall k :: k in r <==> k in ids || k == id
    ensures SortedByUpdate(m, r)
  {
    if ids == [] || m[id].updatedAt < m[ids[0]].updatedAt then
      assert ([id] + ids)[1..] == ids;
      [id] + ids
    else
      var rest := Insert(m, ids[1..], id);
      assert ([ids[0]] + rest)[1..] == rest;
      assert forall k :: k in ids <==> k == ids[0] || k in ids[1..];
      [ids[0]] + rest
  }

  function DueIds(m: Entries, t: int): set<Id> {
    set k | k in m && Due(m[k], t)
  }

  lemma ProofApplies(cfg: Config, owner: Owner, m: Entries, m': Entries, id: Id, o: Outcome, t: int, applied: bool)
    requires FinishStep(cfg, owner, m, m', id, o, t, applied)
    ensures o.Proof? && id in m && !m[id].state.Delivered? ==> applied
  {
  }

  /** The ledger file: shared by every process, replaced as a whole under its lock. */
  class LedgerFile {
    var entries: Entries
    constructor ()
      ensures entries == map[]
    {
      entries := map[];
    }
  }

  datatype Traffic = Looked(id: Id, verdict: Verdict) | Sent(args: Args, result: SendResult)

  class TurnOutbox {
    const cfg: Config
    const ownerId: Owner
    const file: LedgerFile
    var closed: bool
    /** What this process has asked of the window and of the relay, in order. */
    ghost var traffic: seq<Traffic>

    constructor (cfg: Config, ownerId: Owner, file: LedgerFile)
      ensures this.cfg == cfg && this.ownerId == ownerId && this.file == file && !closed && traffic == []
    {
      this.cfg, this.ownerId, this.file, this.closed, traffic := cfg, ownerId, file, false, [];
    }

    /** Drop the expired terminal entries and list the others, oldest first. */
    method DropExpired(m: Entries, t: int) returns (m': Entries, sorted: seq<Id>)
      ensures m' == Unexpired(cfg, m, t)
      ensures forall k :: k in sorted <==> k in m && Terminal(m[k].state) && !Expired(cfg, m[k], t)
      ensures SortedByUpdate(m, sorted)
    {
      m', sorted := m, [];
      var todo := m.Keys;
      while todo != {}
        invariant todo <= m.Keys
        invariant forall k :: k in m' <==> k in m && (k in todo || !Expired(cfg, m[k], t))
        invariant forall k :: k in m' ==> m'[k] == m[k]
        invariant forall k :: k in sorted <==> k in m && k !in todo && Terminal(m[k].state) && !Expired(cfg, m[k], t)
        invariant SortedByUpdate(m, sorted)
        decreases |todo|
      {
        hide SortedByUpdate, Insert;
        var id :| id in todo;
        todo := todo - {id};
        if Terminal(m[id].state) {
          if Expired(cfg, m[id], t) {
            m' := m' - {id};
          } else {
            sorted := Insert(m, sorted, id);
          }
        }
      }
    }

    /** Terminal entries go after retentionMs, and the oldest of them whenever there are
        more than maxEntries. */
    method Prune(m: Entries, t: int) returns (m': Entries)
      ensures Pruned(cfg, m, m', t)
    {
      var rest;
      m', rest := DropExpired(m, t);
      ghost var kept := m';
      while rest != [] && |m'| > cfg.maxEntries
        invariant forall k :: k in m' ==> k in kept && m'[k] == m[k]
        invariant forall k :: k in kept && !Terminal(m[k].state) ==> k in m'
        invariant forall k :: k in m' && Terminal(m[k].state) ==> k in rest
        invariant (forall k :: k in rest ==> k in kept && Terminal(m[k].state)) && SortedByUpdate(m, rest)
        invariant forall j, k :: j in kept && j !in m' && k in rest ==> m[j].updatedAt <= m[k].updatedAt
        invariant m' == kept || |m'| >= cfg.maxEntries
        decreases |rest|
      {
        var id := rest[0];
        if id in m' { MapWithout(m', id); }
        assert forall k :: k in rest <==> k == id || k in rest[1..];
        m' := m' - {id};
        rest := rest[1..];
      }
    }

    /** Record a turn durably, once per correlation ID. */
    method Enqueue(args: Args, t: int) returns (r: EnqueueResult)
      modifies file
      ensures EnqueueStep(cfg, old(file.entries), file.entries, args, t, r)
    {
      var ledger := file.entries;
      if args.correlation in ledger { return Deduplicated(ledger[args.correlation].state); }
      if |Live(ledger)| >= cfg.maxPending { return Refused; }
      ledger := ledger[args.correlation := New(args, t)];
      ledger := Prune(ledger, t);
      file.entries := ledger;
      r := Enqueued;
    }

    /** The due entry with the earliest next attempt. */
    method OldestDue(m: Entries, t: int) returns (pick: Option<Id>)
      ensures pick.None? ==> forall k :: k in m ==> !Due(m[k], t)
      ensures pick.Some? ==> pick.value in m && Due(m[pick.value], t)
      ensures pick.Some? ==> forall k :: k in m && Due(m[k], t) ==> m[pick.value].nextAttemptAt <= m[k].nextAttemptAt
    {
      pick := None;
      var todo := m.Keys;
      while todo != {}
        invariant todo <= m.Keys
        invariant pick.None? ==> forall k :: k in m && k !in todo ==> !Due(m[k], t)
        invariant pick.Some? ==> pick.value in m && Due(m[pick.value], t)
        invariant pick.Some? ==> forall k :: k in m && k !in todo && Due(m[k], t) ==> m[pick.value].nextAttemptAt <= m[k].nextAttemptAt
        decreases |todo|
      {
        var e :| e in todo;
        todo := todo - {e};
        if Due(m[e], t) && (pick.None? || m[e].nextAttemptAt < m[pick.value].nextAttemptAt) { pick := Some(e); }
      }
    }

    /** Claim the oldest due entry.  A lease that ran out with no attempt left fails, and
        the search goes on. */
    method Claim(t: int) returns (r: Option<Id>)
      modifies file
      ensures ClaimStep(cfg, ownerId, old(file.entries), file.entries, t, r)
    {
      var ledger := file.entries;
      while true
        invariant Exhausted(cfg, old(file.entries), ledger, t) && file.entries == old(file.entries)
        invariant forall k, j :: k in ledger && ledger[k] != old(file.entries)[k] && j in ledger && Due(ledger[j], t) ==>
                    old(file.entries)[k].nextAttemptAt <= ledger[j].nextAttemptAt
        decreases DueIds(ledger, t)
      {
        var pick := OldestDue(ledger, t);
        if pick.None? {
          file.entries := ledger;
          return None;
        }
        var id := pick.value;
        if ledger[id].state.Sending? && ledger[id].attempts >= cfg.maxAttempts {
          ghost var before := ledger;
          ledger := ledger[id := LeaseExpired(ledger[id], t)];
          assert id in DueIds(before, t) && DueIds(ledger, t) == DueIds(before, t) - {id};
          continue;
        }
        ghost var mid := ledger;
        ledger := ledger[id := Leased(ledger[id], ownerId, t, cfg.leaseMs)];
        ledger := Prune(ledger, t);
        file.entries := ledger;
        return Some(id);
      }
    }

    /** Apply an outcome to an entry. */
    method Finish(id: Id, o: Outcome, t: int) returns (applied: bool)
      modifies file
      ensures FinishStep(cfg, ownerId, old(file.entries), file.entries, id, o, t, applied)
    {
      var ledger := file.entries;
      if id !in ledger { return false; }
      var e := ledger[id];
      if e.state.Delivered? { return false; }
      if !o.Proof? && (!e.state.Sending? || e.leaseOwner != Some(ownerId)) { return false; }
      ledger := ledger[id := Applied(e, o, t)];
      ledger := Prune(ledger, t);
      file.entries := ledger;
      applied := true;
    }

    /** A fresh look at the window; other processes go on meanwhile. */
    method Look(id: Id) returns (verdict: Verdict)
      modifies this`traffic, file
      ensures traffic == old(traffic) + [Looked(id, verdict)]
    {
      verdict := *;
      var others: Entries := *;
      file.entries := others;
      traffic := traffic + [Looked(id, verdict)];
    }

    /** One call of the relay; other processes go on meanwhile. */
    method Send(args: Args) returns (result: SendResult)
      modifies this`traffic, file
      ensures traffic == old(traffic) + [Sent(args, result)]
    {
      result := *;
      var others: Entries := *;
      file.entries := others;
      traffic := traffic + [Sent(args, result)];
    }

    /** One delivery of a claimed entry: when there is a recheck, one look and nothing before
        it; one send, and only after a look that had nothing against it; then the outcome
        both amount to, applied to the ledger as it is by then. */
    method Deliver(id: Id, attempts: nat, args: Args, recheck: bool, t: int)
      returns (applied: bool, ghost verdict: Verdict, ghost result: SendResult, ghost found: Entries)
      modifies this`traffic, file
      ensures !recheck ==> verdict == Clear
      ensures traffic == old(traffic) + (if recheck then [Looked(id, verdict)] else []) + (if verdict.Clear? then [Sent(args, result)] else [])
      ensures FinishStep(cfg, ownerId, found, file.entries, id, DeliveryOutcome(cfg, attempts, verdict, result), t, applied)
      ensures verdict.Clear? && result.Ok? && ValidEventId(result.eventId) && id in found && !found[id].state.Delivered? ==> applied
    {
      hide FinishStep;
      var look := Clear;
      if recheck { look := Look(id); }
      var answer := Failure("");
      var o;
      match look {
        case Withhold(why) => o := Suppress(why);
        case RecheckFailed(why) => o := FailureOutcome(cfg, attempts, why);
        case Clear =>
          answer := Send(args);
          match answer {
            case Ok(eventId) => o := if ValidEventId(eventId) then Proof(eventId) else FailureOutcome(cfg, attempts, "no_result");
            case Failure(error) => o := FailureOutcome(cfg, attempts, error);
          }
      }
      verdict, result, found := look, answer, file.entries;
      applied := Finish(id, o, t);
      ProofApplies(cfg, ownerId, found, file.entries, id, o, t, applied);
    }

    /** Stop, and hand back what this process is in the middle of sending. */
    method Shutdown(t: int)
      modifies this, file
      ensures closed && file.entries == HandedBack(ownerId, old(file.entries), t)
    {
      closed := true;
      var ledger := file.entries;
      var todo := ledger.Keys;
      while todo != {}
        invariant todo <= ledger.Keys && ledger.Keys == old(file.entries).Keys
        invariant forall k :: k in ledger ==>
                    ledger[k] == if k in todo then old(file.entries)[k] else HandedBack(ownerId, old(file.entries), t)[k]
        decreases |todo|
      {
        var id :| id in todo;
        todo := todo - {id};
        var e := ledger[id];
        if e.state.Sending? && e.leaseOwner == Some(ownerId) {
          ledger := ledger[id := e.(state := Pending, leaseOwner := None, leaseUntil := 0, nextAttemptAt := t, updatedAt := t)];
        }
      }
      file.entries := ledger;
    }

    /** When something is next due: the earliest retry or lease end. */
    method EarliestDue() returns (at: Option<int>)
      ensures at.None? <==> Live(file.entries) == {}
      ensures at.Some? ==> forall k, t :: k in file.entries && t < at.value ==> !Due(file.entries[k], t)
      ensures at.Some? ==> exists k :: k in file.entries && Due(file.entries[k], at.value)
    {
      at := None;
      var ledger := file.entries;
      var todo := ledger.Keys;
      while todo != {}
        invariant todo <= ledger.Keys
        invariant at.None? <==> forall k :: k in ledger && k !in todo ==> Terminal(ledger[k].state)
        invariant at.Some? ==> exists k :: k in ledger && Due(ledger[k], at.value)
        invariant at.Some? ==> forall k, t :: k in ledger && k !in todo && t < at.value ==> !Due(ledger[k], t)
        decreases |todo|
      {
        var id :| id in todo;
        todo := todo - {id};
        var e := ledger[id];
        if !Terminal(e.state) {
          var due := if e.state.Pending? then e.nextAttemptAt else e.leaseUntil;
          assert Due(e, due);
          if at.None? || due < at.value { at := Some(due); }
        }
      }
      assert at.None? ==> Live(ledger) == {};
      if at.Some? {
        ghost var k :| k in ledger && Due(ledger[k], at.value);
        assert k in Live(ledger);
      }
    }
  }
}