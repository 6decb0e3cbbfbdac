/** The promote slot (app/promote-requests.js:32-50, 125-171).

    The spool directory is the object's state.  The object's own operations run one at a
    time; at every `await` the clock may advance and the host's runner may move requests
    forward.  The host runner is not shown in this file: what is assumed of it is
    `RunnerMoved`. */
module PromoteRequests {
  import opened Options

  const APPROVAL_TTL: int := 86400000
  const DRY_RUN_FRESH: int := 86400000
  const LISTED: nat := 50

  /** The runner's status file; `Queued` is its absence. */
  datatype Status = Queued | Snapshotting | DryRunning | DryRunOk | DryRunFailed | Promoting | Promoted | Failed | Refused

  datatype Approval = Approval(digest: string, expiresAt: int)

  datatype Request = Request(
    status: Status, digest: string, finishedAt: int,
    approval: Option<Approval>, rejected: bool, superseded: bool)

  datatype State = Is(status: Status) | Stale | AwaitingApproval | Approved | Expired | Rejected | Superseded

  function DeriveState(r: Request, now: int): State {
    if r.status in {Promoting, Promoted, Failed, Refused} then Is(r.status)
    else if r.rejected then Rejected
    else if r.superseded then Superseded
    else if r.status == DryRunFailed then Is(DryRunFailed)
    else if r.approval.Some? then (if r.approval.value.expiresAt > now then Approved else Expired)
    else if r.status == DryRunOk then (if now - r.finishedAt > DRY_RUN_FRESH then Stale else AwaitingApproval)
    else Is(r.status)
  }

  predicate Pending(s: State) {
    s in {Is(Queued), Is(Snapshotting), Is(DryRunning), AwaitingApproval, Stale}
  }

  predicate Busy(s: State) {
    s in {Approved, Is(Promoting)}
  }

  /** The request occupies the slot. */
  predicate Active(r: Request, now: int) {
    Pending(DeriveState(r, now)) || Busy(DeriveState(r, now))
  }

  /** The dry run has ended well and nobody has decided since; it is at most a day old. */
  predicate Approvable(r: Request, now: int) {
    r.status == DryRunOk && !r.rejected && !r.superseded && r.approval.None? && now - r.finishedAt <= 86400000
  }

  /** Nothing has been decided, and nothing is being promoted. */
  predicate Rejectable(r: Request) {
    !r.rejected && !r.superseded &&
    ((r.status in {Queued, Snapshotting, DryRunning, DryRunOk} && r.approval.None?) || r.status == DryRunFailed)
  }

  lemma ApprovableIff(r: Request, now: int)
    ensures DeriveState(r, now) == AwaitingApproval <==> Approvable(r, now)
  {
  }

  lemma RejectableIff(r: Request, now: int)
    ensures Pending(DeriveState(r, now)) || DeriveState(r, now) == Is(DryRunFailed) <==> Rejectable(r)
  {
  }

  /** Who occupies the slot, on the request's files: what is being promoted, and what nobody
      has rejected or superseded before its dry run failed or its promotion began, unless it
      was approved and the approval has run out. */
  lemma OccupiesIff(r: Request, now: int)
    ensures var open := !r.rejected && !r.superseded && r.status in {Queued, Snapshotting, DryRunning, DryRunOk};
      && (Busy(DeriveState(r, now)) <==> r.status == Promoting || (open && r.approval.Some? && now < r.approval.value.expiresAt))
      && (Pending(DeriveState(r, now)) <==> open && r.approval.None?)
      && (Active(r, now) <==> r.status == Promoting || (open && (r.approval.Some? ==> now < r.approval.value.expiresAt)))
  {
  }

  /** An approved request that nothing moves leaves the slot when its approval runs out, and
      not before. */
  lemma ApprovedUntil(r: Request, a: Approval, from: int, t: int)
    requires Approvable(r, from) && from <= t
    ensures Active(r.(approval := Some(a)), t) <==> t < a.expiresAt
    ensures Busy(DeriveState(r.(approval := Some(a)), t)) <==> t < a.expiresAt
  {
    OccupiesIff(r.(approval := Some(a)), t);
  }

  // ---------------------------------------------------------------- reading a request

  /** The files of a request's directory. */
  datatype File = RequestFile | StatusFile | ApprovalFile | RejectedFile | SupersededFile

  /** What is read when these files cannot be read, or hold half a text: each of them counts
      as absent, and without its request file there is no request. */
  function ReadAs(r: Request, lost: set<File>): Option<Request> {
    if RequestFile in lost then None
    else
      var approval := if ApprovalFile in lost then None else r.approval;
      var rejected, superseded := r.rejected && RejectedFile !in lost, r.superseded && SupersededFile !in lost;
      Some(if StatusFile in lost then Request(Queued, "", 0, approval, rejected, superseded)
           else r.(approval := approval, rejected := rejected, superseded := superseded))
  }

  lemma ReadInFull(r: Request)
    ensures ReadAs(r, {}) == Some(r)
  {
  }

  /** A dry run is seen only in the status file. */
  lemma ReadWaiting(r: Request, lost: set<File>, now: int)
    requires ReadAs(r, lost).Some? && DeriveState(ReadAs(r, lost).value, now) == AwaitingApproval
    ensures r.status == DryRunOk && ReadAs(r, lost).value.digest == r.digest
  {
  }

  // ---------------------------------------------------------------- what the runner may do

  function Progress(s: Status): nat {
    match s
    case Queued => 0
    case Snapshotting => 1
    case DryRunning => 2
    case DryRunOk => 3
    case DryRunFailed => 3
    case Promoting => 4
    case _ => 5
  }

  /** Forward only; promoting only what is approved and not expired; the digest is fixed
      once the dry run has reported it. */
  predicate RunnerMoved(r: Request, s: Request, now: int) {
    && s.approval == r.approval && s.rejected == r.rejected && s.superseded == r.superseded
    && Progress(r.status) <= Progress(s.status)
    && (Progress(r.status) == Progress(s.status) ==> s == r)
    && (Progress(r.status) >= 3 ==> s.digest == r.digest && s.finishedAt == r.finishedAt)
    && (s.status == Promoting ==> r.status == Promoting || DeriveState(r, now) == Approved)
  }

  /** What is over stays over, and what is not busy becomes busy only by an approval. */
  lemma SlotOnlyEmpties(r: Request, s: Request, before: int, now: int)
    requires RunnerMoved(r, s, before) && before <= now
    ensures Active(s, now) ==> Active(r, before)
    ensures Busy(DeriveState(s, now)) ==> Busy(DeriveState(r, before))
  {
  }

  // ---------------------------------------------------------------- identifiers

  /** The creation second, then a random suffix; compared as text. */
  datatype Id = Id(second: int, suffix: nat)

  predicate Above(a: Id, b: Id) {
    a.second > b.second || (a.second == b.second && a.suffix > b.suffix)
  }

  function AboveIn(dirs: set<Id>, id: Id): set<Id> {
    set d | d in dirs && Above(d, id)
  }

  /** The fifty latest directories: those with fewer than fifty above them. */
  function Listed(dirs: set<Id>): set<Id> {
    set d | d in dirs && |AboveIn(dirs, d)| < LISTED
  }

  function InSecond(dirs: set<Id>, second: int): set<Id> {
    set d | d in dirs && d.second == second
  }

  lemma NewestAreListed(dirs: set<Id>, id: Id)
    requires id in dirs && |InSecond(dirs, id.second)| <= 50
    requires forall d :: d in dirs ==> d.second <= id.second
    ensures id in Listed(dirs)
  {
    assert AboveIn(dirs, id) <= InSecond(dirs, id.second) - {id};
    SubsetSize(AboveIn(dirs, id), InSecond(dirs, id.second) - {id});
  }

  lemma SubsetSize<T>(a: set<T>, b: set<T>)
    requires a <= b
    ensures |a| <= |b|
  {
    assert a + (b - a) == b;
  }

  // ---------------------------------------------------------------- the spool

  datatype Job = DryRunJob(id: Id) | PromoteJob(id: Id)

  datatype Error = Io | PromoteBusy | NotFound | NotApprovable | DigestMismatch | NotRejectable

  datatype Spool = Spool(dirs: set<Id>, requests: map<Id, Request>, queue: set<Job>, now: int)

  ghost predicate ActiveIn(s: Spool, id: Id) {
    id in s.requests && Active(s.requests[id], s.now)
  }

  ghost predicate OneSlot(s: Spool) {
    forall i, j :: ActiveIn(s, i) && ActiveIn(s, j) ==> i == j
  }

  /** The request in the slot is among the fifty latest. */
  ghost predicate SlotSeen(s: Spool) {
    forall i :: ActiveIn(s, i) ==> (forall d :: d in s.dirs ==> d.second <= i.second) && |InSecond(s.dirs, i.second)| <= 50
  }

  ghost predicate ApprovalOk(s: Spool, id: Id) {
    id in s.requests && (s.requests[id].approval.Some? ==>
      Progress(s.requests[id].status) >= 3 && s.requests[id].approval.value.digest == s.requests[id].digest)
  }

  /** An approval is for the digest its dry run reported, and every promote job has one. */
  ghost predicate ApprovalsOk(s: Spool) {
    && (forall id :: id in s.requests ==> ApprovalOk(s, id))
    && (forall id :: PromoteJob(id) in s.queue ==> id in s.requests && s.requests[id].approval.Some?)
  }

  /** `loose` when the slot may be shared. */
  ghost predicate Sound(s: Spool, loose: bool) {
    && s.requests.Keys <= s.dirs
    && (forall d :: d in s.dirs ==> d.second <= s.now / 1000)
    && ApprovalsOk(s)
    && (!loose ==> OneSlot(s) && SlotSeen(s))
  }

  /** The clock and the runner between two steps of an operation; the runner also removes
      old directories, though none that has a promote job. */
  predicate Meanwhile(s: Spool, t: Spool) {
    && t.dirs <= s.dirs && t.queue <= s.queue && s.now <= t.now
    && (forall job :: job in t.queue && job.PromoteJob? ==> job.id in s.dirs ==> job.id in t.dirs)
    && (forall id :: id in t.dirs && id in s.requests ==> id in t.requests) && t.requests.Keys <= t.dirs
    && (forall id :: id in t.requests ==> id in s.requests && RunnerMoved(s.requests[id], t.requests[id], s.now))
  }

  lemma MovedTwice(r: Request, s: Request, t: Request, a: int, b: int)
    requires RunnerMoved(r, s, a) && RunnerMoved(s, t, b) && a <= b
    ensures RunnerMoved(r, t, a)
  {
  }

  lemma MeanwhileTwice(s: Spool, t: Spool, u: Spool)
    requires Meanwhile(s, t) && Meanwhile(t, u)
    ensures Meanwhile(s, u)
  {
    hide RunnerMoved;
    forall id | id in u.requests ensures id in s.requests && RunnerMoved(s.requests[id], u.requests[id], s.now) {
      MovedTwice(s.requests[id], t.requests[id], u.requests[id], s.now, t.now);
    }
  }

  lemma MeanwhileActive(s: Spool, t: Spool, id: Id)
    requires Meanwhile(s, t)
    ensures ActiveIn(t, id) ==> ActiveIn(s, id)
    ensures BusyIn(t, id) ==> BusyIn(s, id)
  {
    if id in t.requests { SlotOnlyEmpties(s.requests[id], t.requests[id], s.now, t.now); }
  }

  ghost predicate BusyIn(s: Spool, id: Id) {
    id in s.requests && Busy(DeriveState(s.requests[id], s.now))
  }

  lemma MovedApproval(r: Request, s: Request, now: int)
    requires RunnerMoved(r, s, now)
    ensures s.approval == r.approval
    ensures Progress(r.status) >= 3 ==> Progress(s.status) >= 3 && s.digest == r.digest
  {
  }

  lemma SecondsShrink(a: set<Id>, b: set<Id>, second: int)
    requires b <= a
    ensures |InSecond(b, second)| <= |InSecond(a, second)|
  {
    SubsetSize(InSecond(b, second), InSecond(a, second));
  }

  lemma MeanwhileSound(s: Spool, t: Spool, loose: bool)
    requires Sound(s, loose) && Meanwhile(s, t)
    ensures Sound(t, loose)
  {
    hide RunnerMoved, Active, InSecond;
    forall id | id in t.requests ensures ApprovalOk(t, id) {
      assert ApprovalOk(s, id);
      MovedApproval(s.requests[id], t.requests[id], s.now);
    }
    forall id | PromoteJob(id) in t.queue ensures id in t.requests && t.requests[id].approval.Some? {
      assert PromoteJob(id) in s.queue && id in s.dirs && PromoteJob(id).id in t.dirs;
      MovedApproval(s.requests[id], t.requests[id], s.now);
    }
    forall i ensures (ActiveIn(t, i) ==> ActiveIn(s, i)) && |InSecond(t.dirs, i.second)| <= |InSecond(s.dirs, i.second)| {
      MeanwhileActive(s, t, i);
      SecondsShrink(s.dirs, t.dirs, i.second);
    }
  }

  // ---------------------------------------------------------------- the operations

  datatype Result<T> = Ok(value: T) | Err(error: Error)

  ghost predicate NoneActive(s: Spool) {
    forall i :: !ActiveIn(s, i)
  }

  /** What a listing says holds still for whatever is active after it. */
  ghost predicate Reported(s: Spool, states: map<Id, State>, id: Id) {
    && (ActiveIn(s, id) ==> id in states && (Pending(states[id]) || Busy(states[id])))
    && (BusyIn(s, id) ==> id in states && Busy(states[id]))
  }

  lemma ReportedMeanwhile(s: Spool, t: Spool, states: map<Id, State>, id: Id)
    requires Meanwhile(s, t) && Reported(s, states, id)
    ensures Reported(t, states, id)
  {
    hide Meanwhile, Pending, Busy, ActiveIn, BusyIn;
    MeanwhileActive(s, t, id);
  }

  /** Reading one more state. */
  lemma ReportedPush(s: Spool, states: map<Id, State>, id: Id, i: Id, read: Option<Request>)
    requires (i == id && read == (if id in s.requests then Some(s.requests[id]) else None)) || (i != id && Reported(s, states, i))
    ensures Reported(s, if read.Some? then states[id := DeriveState(read.value, s.now)] else states, i)
  {
  }

  lemma ListedSlot(s: Spool, t: Spool, states: map<Id, State>, id: Id)
    requires Sound(s, false) && Meanwhile(s, t)
    requires id in Listed(s.dirs) ==> Reported(t, states, id)
    ensures Reported(t, states, id)
  {
    MeanwhileActive(s, t, id);
    if ActiveIn(s, id) { NewestAreListed(s.dirs, id); }
  }

  lemma NoTime(s: Spool)
    requires s.requests.Keys <= s.dirs
    ensures Meanwhile(s, s)
  {
  }

  /** Waiting requests are withdrawn by a file of their own. */
  function Superseding(s: Spool, id: Id): Spool
    requires id in s.requests
  {
    s.(requests := s.requests[id := s.requests[id].(superseded := true)])
  }

  lemma SupersedingSound(s: Spool, id: Id, loose: bool)
    requires Sound(s, loose) && id in s.requests
    ensures Sound(Superseding(s, id), loose)
    ensures !BusyIn(s, id) ==> !ActiveIn(Superseding(s, id), id)
    ensures forall i :: (ActiveIn(Superseding(s, id), i) ==> ActiveIn(s, i)) && (BusyIn(Superseding(s, id), i) ==> BusyIn(s, i))
  {
    hide InSecond;
    var t := Superseding(s, id);
    forall i | i in t.requests ensures ApprovalOk(t, i) { assert ApprovalOk(s, i); }
    forall i ensures (ActiveIn(t, i) ==> ActiveIn(s, i)) && (BusyIn(t, i) ==> BusyIn(s, i)) { }
  }

  function Rejecting(s: Spool, id: Id): Spool
    requires id in s.requests
  {
    s.(requests := s.requests[id := s.requests[id].(rejected := true)])
  }

  lemma RejectingSound(s: Spool, id: Id, loose: bool)
    requires Sound(s, loose) && id in s.requests
    ensures Sound(Rejecting(s, id), loose)
    ensures !BusyIn(s, id) || s.requests[id].status != Promoting ==> !ActiveIn(Rejecting(s, id), id)
  {
    hide InSecond;
    var t := Rejecting(s, id);
    forall i | i in t.requests ensures ApprovalOk(t, i) { assert ApprovalOk(s, i); }
    forall i | ActiveIn(t, i) ensures ActiveIn(s, i) { }
  }

  function MakingDirectory(s: Spool, id: Id): Spool {
    s.(dirs := s.dirs + {id})
  }

  lemma MakingSound(s: Spool, id: Id, loose: bool)
    requires Sound(s, loose) && (!loose ==> NoneActive(s)) && id.second <= s.now / 1000
    ensures Sound(MakingDirectory(s, id), loose) && (!loose ==> NoneActive(MakingDirectory(s, id)))
  {
    hide InSecond;
    var t := MakingDirectory(s, id);
    forall i | i in t.requests ensures ApprovalOk(t, i) { assert ApprovalOk(s, i); }
    assert forall i :: ActiveIn(t, i) ==> ActiveIn(s, i);
  }

  const NEW := Request(Queued, "", 0, None, false, false)

  function Requesting(s: Spool, id: Id): Spool {
    s.(requests := s.requests[id := NEW])
  }

  lemma RequestingSound(s: Spool, id: Id, loose: bool)
    requires Sound(s, loose) && id in s.dirs && id !in s.requests
    requires !loose ==> NoneActive(s) && (forall d :: d in s.dirs ==> d.second <= id.second) && |InSecond(s.dirs, id.second)| <= LISTED
    ensures Sound(Requesting(s, id), loose)
    ensures !loose ==> forall i :: ActiveIn(Requesting(s, id), i) <==> i == id
  {
    hide InSecond;
    var t := Requesting(s, id);
    forall i | i in t.requests ensures ApprovalOk(t, i) { if i != id { assert ApprovalOk(s, i); } }
    if !loose {
      forall i ensures ActiveIn(t, i) <==> i == id { if i != id { assert !ActiveIn(s, i); } }
    }
  }

  function Approving(s: Spool, id: Id, a: Approval): Spool
    requires id in s.requests
  {
    s.(requests := s.requests[id := s.requests[id].(approval := Some(a))])
  }

  /** Only a request that holds the slot already can be approved. */
  lemma ApprovingSound(s: Spool, r: Request, at: int, id: Id, a: Approval, loose: bool)
    requires Sound(s, loose) && id in s.requests
    requires RunnerMoved(r, s.requests[id], at) && at <= s.now && r.status == DryRunOk && a.digest == r.digest
    requires loose || DeriveState(r, at) == AwaitingApproval
    ensures Sound(Approving(s, id, a), loose)
  {
    hide InSecond;
    var t := Approving(s, id, a);
    forall i | i in t.requests ensures ApprovalOk(t, i) { assert ApprovalOk(s, i); }
    if !loose {
      assert ActiveIn(t, id) ==> ActiveIn(s, id);
      forall i | ActiveIn(t, i) ensures ActiveIn(s, i) { }
    }
  }

  function Queueing(s: Spool, job: Job): Spool {
    s.(queue := s.queue + {job})
  }

  lemma QueueingSound(s: Spool, job: Job, loose: bool)
    requires Sound(s, loose)
    requires job.PromoteJob? ==> job.id in s.requests && s.requests[job.id].approval.Some?
    ensures Sound(Queueing(s, job), loose) && forall i :: ActiveIn(Queueing(s, job), i) <==> ActiveIn(s, i)
  {
    hide InSecond;
    var t := Queueing(s, job);
    forall i | i in t.requests ensures ApprovalOk(t, i) { assert ApprovalOk(s, i); }
    assert forall i :: ActiveIn(t, i) <==> ActiveIn(s, i);
  }

  /** The spool's dashboard side.  `Valid` holds at every `await`, so it is what the runner,
      a reader or a restart finds whenever it looks. */
  class PromoteSlot {
    var s: Spool
    /** Set once more than fifty requests were created within one second. */
    ghost var crowded: bool
    /** Set once a request was not read as it is. */
    ghost var misread: bool
    /** Set once the clock or the runner moved at an `await`. */
    ghost var moved: bool
    /** Set once a write failed, or the name for a new directory was taken. */
    ghost var failed: bool

    ghost predicate Valid()
      reads this
    {
      Sound(s, crowded || misread)
    }

    constructor ()
      ensures Valid() && s == EMPTY && !crowded && !misread && !moved && !failed
    {
      s, crowded, misread, moved, failed := EMPTY, false, false, false, false;
    }

    method Await()
      requires Valid()
      modifies this`s, this`moved
      ensures Valid() && Meanwhile(old(s), s)
      ensures (old(moved) ==> moved) && (!moved ==> s == old(s))
    {
      hide RunnerMoved;
      NoTime(s);
      var t: Spool := *;
      if Meanwhile(s, t) {
        MeanwhileSound(s, t, crowded || misread);
        moved := moved || t != s;
        s := t;
      }
    }

    /** One write; `taken` when the name it needs is. */
    method Write(taken: bool) returns (ok: bool)
      modifies this`failed
      ensures failed == (old(failed) || !ok)
      ensures taken ==> !ok
    {
      ok := *;
      if taken { ok := false; }
      failed := failed || !ok;
    }

    /** Read one request; any of its files may fail to be read. */
    method Load(id: Id) returns (read: Option<Request>, ghost lost: set<File>, ghost wrong: bool)
      requires Valid()
      modifies this`s, this`moved, this`misread
      ensures Valid() && Meanwhile(old(s), s)
      ensures (old(moved) ==> moved) && (!moved ==> s == old(s))
      ensures read == if id in s.requests then ReadAs(s.requests[id], lost) else None
      ensures wrong <==> id in s.requests && read != Some(s.requests[id])
      ensures misread == (old(misread) || wrong)
    {
      hide Meanwhile, ReadAs;
      Await();
      var failed: set<File> := *;
      lost := failed;
      read := if id in s.requests then ReadAs(s.requests[id], failed) else None;
      wrong := id in s.requests && read != Some(s.requests[id]);
      LooserSound(s, crowded || misread, crowded || misread || wrong);
      misread := misread || wrong;
    }

    /** The derived states of the fifty latest requests, read one by one; nothing when the
        directory cannot be read.  `wrong` are the requests not read as they were. */
    method List() returns (states: map<Id, State>, ghost wrong: set<Id>, ghost got: Reads)
      requires Valid()
      modifies this`s, this`moved, this`misread
      ensures Valid() && Meanwhile(old(s), s)
      ensures (old(moved) ==> moved) && (!moved ==> s == old(s) && states == StatesOf(s, got))
      ensures misread == (old(misread) || wrong != {})
      ensures forall id :: id in Listed(old(s.dirs)) && id !in wrong ==> Reported(s, states, id)
      ensures !crowded && !old(misread) ==> forall id :: id !in wrong ==> Reported(s, states, id)
      ensures forall id :: id in states && Busy(states[id]) ==> BusyIn(old(s), id) || id in wrong
    {
      hide Meanwhile, Sound, Reported, Listed, DeriveState, Busy;
      assert Meanwhile(s, s) by { SoundKeys(s, crowded || misread); NoTime(s); }
      states, wrong, got := map[], {}, Reads(true, map[]);
      var listed := *;
      if !listed {
        Unlisted();
        got, wrong := Reads(false, map[]), s.requests.Keys;
        LooserSound(s, crowded || misread, crowded || misread || wrong != {});
        misread := misread || wrong != {};
        forall id | id !in s.requests ensures Reported(s, states, id) { NoneReported(s, states, id); }
        return;
      }
      states, wrong, got := ListAll();
      if !crowded && !old(misread) {
        forall id | id !in wrong ensures Reported(s, states, id) { ListedSlot(old(s), s, states, id); }
      }
    }

    method ListAll() returns (states: map<Id, State>, ghost wrong: set<Id>, ghost got: Reads)
      requires Valid()
      modifies this`s, this`moved, this`misread
      ensures Valid() && Meanwhile(old(s), s)
      ensures (old(moved) ==> moved) && (!moved ==> s == old(s) && states == StatesOf(s, got))
      ensures misread == (old(misread) || wrong != {})
      ensures forall id :: id in Listed(old(s.dirs)) && id !in wrong ==> Reported(s, states, id)
      ensures forall id :: id in states && Busy(states[id]) ==> BusyIn(old(s), id) || id in wrong
    {
      hide Meanwhile, Sound, Reported, Listed, DeriveState, Busy, ReadOf;
      assert Meanwhile(s, s) by { SoundKeys(s, crowded || misread); NoTime(s); }
      states, wrong, got := map[], {}, Reads(true, map[]);
      var todo := Listed(s.dirs);
      NoneRead(s, got, todo);
      while todo != {}
        invariant Valid() && Meanwhile(old(s), s) && got.listed && got.lost.Keys !! todo
        invariant misread == (old(misread) || wrong != {})
        invariant forall id :: id in Listed(old(s.dirs)) && id !in todo && id !in wrong ==> Reported(s, states, id)
        invariant forall id :: id in states && Busy(states[id]) ==> BusyIn(old(s), id) || id in wrong
        invariant todo <= Listed(old(s.dirs)) && (old(moved) ==> moved)
        invariant !moved ==> s == old(s) && states == StatesBut(s, got, todo)
        decreases |todo|
      {
        var id :| id in todo;
        ghost var before, todo0, states0, reads0 := s, todo, states, got;
        todo := todo - {id};
        var read;
        ghost var lost, unlike;
        read, lost, unlike := Load(id);
        if unlike { wrong := wrong + {id}; }
        got := got.(lost := got.lost[id := lost]);
        MeanwhileTwice(old(s), before, s);
        MeanwhileActive(old(s), s, id);
        if read.Some? { states := states[id := DeriveState(read.value, s.now)]; }
        forall i | i in Listed(old(s.dirs)) && i !in todo && i !in wrong ensures Reported(s, states, i) {
          if i != id { ReportedMeanwhile(before, s, states0, i); }
          ReportedPush(s, states0, id, i, read);
        }
        if !unlike && read.Some? && Busy(states[id]) { ReadBusy(s, id); }
        if !moved { StatesPush(s, reads0, todo0, id, lost); }
      }
      NoneLeft(s, got);
    }

    /** Ask for a promote: refused while one is approved or running; replaces those still
        waiting for approval.  Whatever is in the slot beside the new request was not among
        the fifty listed, or not read as it was; with nothing moving meanwhile the result is
        `SubmitAlone`. */
    method Submit() returns (r: Result<Id>, ghost wrong: set<Id>, ghost got: Reads)
      requires Valid()
      modifies this
      ensures Valid() && misread == (old(misread) || wrong != {})
      ensures r == Err(PromoteBusy) ==> (exists i :: BusyIn(old(s), i) || i in wrong) && Meanwhile(old(s), s)
      ensures r.Ok? ==> DryRunJob(r.value) in s.queue && (!crowded && !misread ==> forall i :: ActiveIn(s, i) ==> i == r.value)
      ensures r.Ok? ==> forall i :: ActiveIn(s, i) && i != r.value ==> ActiveIn(old(s), i) && (i !in Listed(old(s.dirs)) || i in wrong)
      ensures r.Ok? && !crowded && !old(misread) ==> forall i :: ActiveIn(s, i) && i != r.value ==> i in wrong
      ensures r.Ok? && !moved ==>
        r.value.second == old(s.now) / 1000 && r.value !in old(s.dirs) && SubmitAlone(old(s), r.value, got) == Some(s)
      ensures old(failed) ==> failed
      ensures !moved && !failed ==> r != Err(Io)
      ensures r.Err? ==> r.error in {Io, PromoteBusy}
      ensures !moved ==> (r == Err(PromoteBusy) <==> BusyOf(StatesOf(old(s), got)) != {})
    {
      hide Meanwhile, Sound, Reported, ActiveIn, BusyIn, Busy, Pending, DeriveState, Listed, StatesOf;
      var states;
      states, wrong, got := List();
      var busy := set i | i in states && Busy(states[i]);
      if busy != {} {
        ghost var i :| i in busy;
        assert BusyIn(old(s), i) || i in wrong;
        r := Err(PromoteBusy);
        return;
      }
      assert forall i :: i in states && Busy(states[i]) ==> i in busy;
      var suffix: nat := *;
      var id := Id(s.now / 1000, suffix);
      SoundTimes(s, crowded || misread);
      var todo := set i | i in states && Pending(states[i]);
      ghost var listed := SeenIds(old(s), wrong, crowded || old(misread));
      SlotListed(old(s), s, crowded || old(misread));
      assert forall i :: i in Listed(old(s.dirs)) && i !in wrong ==> i in listed;
      NothingBusy(s, states, todo, listed);
      ghost var before := s;
      if !moved { forall i | i in todo ensures i in s.requests { OnlyRequests(s, got, i); } }
      r := Replace(id, todo, listed);
      if r.Err? { return; }
      forall i | ActiveIn(s, i) && i != id ensures ActiveIn(old(s), i) && i !in listed {
        assert ActiveIn(before, i);
        MeanwhileActive(old(s), before, i);
      }
      if !moved { AloneIs(old(s), id, todo, busy, got); }
    }

    /** The writes of a submission: withdraw what waits, create the request, queue its job. */
    method Replace(id: Id, todo: set<Id>, ghost listed: set<Id>) returns (r: Result<Id>)
      requires Valid()
      requires forall i :: i in listed ==> !BusyIn(s, i) && (ActiveIn(s, i) ==> i in todo)
      requires !crowded && !misread ==> forall i :: ActiveIn(s, i) ==> i in listed
      requires moved || todo <= s.requests.Keys
      requires id.second <= s.now / 1000 && forall d :: d in s.dirs ==> d.second <= id.second
      modifies this`s, this`moved, this`crowded, this`failed
      ensures Valid() && (old(moved) ==> moved) && (old(crowded) ==> crowded)
      ensures r.Err? ==> r.error == Io
      ensures r.Ok? ==> r.value == id && DryRunJob(id) in s.queue && (!crowded && !misread ==> forall i :: ActiveIn(s, i) ==> i == id)
      ensures r.Ok? ==> forall i :: ActiveIn(s, i) && i != id ==> ActiveIn(old(s), i) && i !in listed
      ensures r.Ok? && !moved ==>
        && id !in old(s).dirs
        && s == Queueing(Requesting(MakingDirectory(SupersedingAll(old(s), todo), id), id), DryRunJob(id))
      ensures old(failed) ==> failed
      ensures !moved && !failed ==> r != Err(Io)
    {
      hide Meanwhile, Sound, ActiveIn, BusyIn, RunnerMoved;
      var done := Supersede(todo, listed);
      if !done { return Err(Io); }
      done := Create(id);
      if !done { return Err(Io); }
      ghost var created := s;
      Await();
      forall i ensures ActiveIn(s, i) ==> ActiveIn(created, i) { MeanwhileActive(created, s, i); }
      done := Write(false);
      if !done { return Err(Io); }
      QueueingSound(s, DryRunJob(id), crowded || misread);
      s := Queueing(s, DryRunJob(id));
      r := Ok(id);
    }

    /** One waiting request. */
    method Withdraw(id: Id) returns (ok: bool)
      requires Valid()
      modifies this`s, this`moved, this`failed
      ensures Valid() && s.dirs <= old(s.dirs) && old(s.now) <= s.now && (old(moved) ==> moved) && (old(failed) ==> failed)
      ensures forall i :: (ActiveIn(s, i) ==> ActiveIn(old(s), i)) && (BusyIn(s, i) ==> BusyIn(old(s), i))
      ensures ok && !BusyIn(old(s), id) ==> !ActiveIn(s, id)
      ensures !moved && !failed && id in old(s).requests ==> ok
      ensures ok && !moved ==> id in old(s).requests && s == Superseding(old(s), id)
    {
      hide Sound, ActiveIn, BusyIn, RunnerMoved;
      Await();
      forall i ensures (ActiveIn(s, i) ==> ActiveIn(old(s), i)) && (BusyIn(s, i) ==> BusyIn(old(s), i)) { MeanwhileActive(old(s), s, i); }
      ok := Write(false);
      if !ok || id !in s.requests { return false; }
      SupersedingSound(s, id, crowded || misread);
      s := Superseding(s, id);
    }

    method Supersede(all: set<Id>, ghost listed: set<Id>) returns (ok: bool)
      requires Valid()
      requires forall i :: i in listed ==> !BusyIn(s, i) && (ActiveIn(s, i) ==> i in all)
      requires moved || all <= s.requests.Keys
      requires !crowded && !misread ==> forall i :: ActiveIn(s, i) ==> i in listed
      modifies this`s, this`moved, this`failed
      ensures Valid() && s.dirs <= old(s.dirs) && old(s.now) <= s.now && (old(moved) ==> moved)
      ensures forall i :: ActiveIn(s, i) ==> ActiveIn(old(s), i)
      ensures ok ==> forall i :: i in listed ==> !ActiveIn(s, i)
      ensures ok && !crowded && !misread ==> NoneActive(s)
      ensures ok && !moved ==> s == SupersedingAll(old(s), all)
      ensures old(failed) ==> failed
      ensures !moved && !failed ==> ok
    {
      hide Sound, ActiveIn, BusyIn, RunnerMoved, Superseding, SupersedingAll;
      var todo := all;
      ok := true;
      SupersedingNone(s, all);
      while todo != {}
        invariant Valid() && s.dirs <= old(s.dirs) && old(s.now) <= s.now && (old(moved) ==> moved)
        invariant forall i :: i in listed ==> !BusyIn(s, i) && (ActiveIn(s, i) ==> i in todo)
        invariant forall i :: ActiveIn(s, i) ==> ActiveIn(old(s), i)
        invariant ok && (old(failed) ==> failed) && (!moved ==> all <= old(s).requests.Keys)
        invariant todo <= all && (!moved ==> s == SupersedingAll(old(s), all - todo))
        decreases |todo|
      {
        var id :| id in todo;
        ghost var done := all - todo;
        todo := todo - {id};
        assert all - todo == done + {id};
        SupersedingKeys(old(s), done);
        ok := Withdraw(id);
        if !ok { return; }
        if !moved { SupersedingOne(old(s), done, id); }
      }
      assert all - todo == all;
    }

    /** The new directory, then the request in it. */
    method Create(id: Id) returns (ok: bool)
      requires Valid() && (!crowded && !misread ==> NoneActive(s))
      requires id.second <= s.now / 1000 && forall d :: d in s.dirs ==> d.second <= id.second
      modifies this`s, this`moved, this`crowded, this`failed
      ensures Valid() && (old(moved) ==> moved) && (old(crowded) ==> crowded)
      ensures forall i :: ActiveIn(s, i) && i != id ==> ActiveIn(old(s), i)
      ensures ok && !crowded && !misread ==> forall i :: ActiveIn(s, i) <==> i == id
      ensures ok && !moved ==> id !in old(s.dirs) && s == Requesting(MakingDirectory(old(s), id), id)
      ensures old(failed) ==> failed
      ensures !moved && !failed ==> ok
    {
      hide Sound, ActiveIn, RunnerMoved, InSecond;
      ghost var first := s;
      Await();
      forall i ensures ActiveIn(s, i) ==> ActiveIn(first, i) { MeanwhileActive(first, s, i); }
      ok := Write(id in s.dirs);
      if !ok { return; }
      assert first.now / 1000 <= s.now / 1000;
      MakingSound(s, id, crowded || misread);
      SoundKeys(s, crowded || misread);
      SameRequests(s, id);
      s := MakingDirectory(s, id);
      ghost var loose := crowded || misread;
      crowded := crowded || |InSecond(s.dirs, id.second)| > LISTED;
      LooserSound(s, loose, crowded || misread);
      ghost var made := s;
      Await();
      forall i ensures ActiveIn(s, i) ==> ActiveIn(made, i) { MeanwhileActive(made, s, i); }
      SecondsShrink(made.dirs, s.dirs, id.second);
      ok := Write(false);
      if !ok || id !in s.dirs { return false; }
      assert id !in s.requests;
      RequestingSound(s, id, crowded || misread);
      NewRequest(s, id);
      s := Requesting(s, id);
    }

    /** Approve the very snapshot that was reviewed. */
    method Approve(id: Id, digest: string) returns (r: Result<()>, ghost wrong: set<Id>, ghost seen: Spool)
      requires Valid()
      modifies this`s, this`moved, this`misread, this`failed
      ensures Valid() && misread == (old(misread) || wrong != {})
      ensures r.Ok? ==> PromoteJob(id) in s.queue && id in s.requests && s.requests[id].approval.Some? &&
                        s.requests[id].approval.value.digest == digest == s.requests[id].digest
      ensures r.Ok? ==> id in old(s.requests) && (id in wrong || (ActiveIn(old(s), id) && !BusyIn(old(s), id)))
      ensures Meanwhile(old(s), seen) && (!moved ==> seen == old(s))
      ensures id !in wrong ==>
        && (r == Err(NotFound) <==> id !in seen.requests)
        && (r == Err(NotApprovable) <==> id in seen.requests && !Approvable(seen.requests[id], seen.now))
        && (r == Err(DigestMismatch) <==> id in seen.requests && Approvable(seen.requests[id], seen.now) && (digest == "" || digest != seen.requests[id].digest))
        && (r.Ok? ==> id in seen.requests && Approvable(seen.requests[id], seen.now))
      ensures r.Ok? ==> digest != "" && old(s.now) + 86400000 <= s.requests[id].approval.value.expiresAt <= s.now + 86400000
      ensures r.Ok? ==> forall i :: BusyIn(s, i) && i != id && i in Listed(old(s.dirs)) ==> i in wrong
      ensures r == Err(PromoteBusy) ==> exists i :: BusyIn(old(s), i) || i in wrong
      ensures r.Err? && r.error != Io ==> Meanwhile(old(s), s)
      ensures old(failed) ==> failed
      ensures !moved && !failed ==> r != Err(Io)
      ensures r != Err(NotRejectable)
    {
      hide Sound, ActiveIn, BusyIn, RunnerMoved, Busy, Meanwhile, ReadAs, Reported, Listed, DeriveState, StatesOf, Approvable;
      wrong := {};
      var read;
      ghost var lost, unlike;
      read, lost, unlike := Load(id);
      if unlike { wrong := {id}; }
      seen := s;
      if id in s.requests { ApprovableIff(s.requests[id], s.now); }
      if read.None? { return Err(NotFound), wrong, seen; }
      if DeriveState(read.value, s.now) != AwaitingApproval { return Err(NotApprovable), wrong, seen; }
      ReadWaiting(s.requests[id], lost, s.now);
      RequestMoved(old(s), s, id);
      if !unlike { WasWaiting(old(s), s, id); }
      if digest == "" || digest != read.value.digest { return Err(DigestMismatch), wrong, seen; }
      var states;
      ghost var also, got;
      states, also, got := List();
      wrong := wrong + also;
      MeanwhileTwice(old(s), seen, s);
      var busy := set i | i in states && Busy(states[i]);
      if busy != {} {
        ghost var i :| i in busy;
        MeanwhileActive(old(s), seen, i);
        return Err(PromoteBusy), wrong, seen;
      }
      assert forall i :: i in states ==> Busy(states[i]) ==> i in busy;
      ghost var listed := s;
      forall i | i in Listed(old(s.dirs)) && i !in wrong ensures !BusyIn(s, i) {
        OthersFree(old(s), seen, s, states, i);
      }
      Later(old(s), s);
      r := Record(id, digest, seen);
      forall i | BusyIn(s, i) && i != id ensures BusyIn(listed, i) { }
    }

    /** The writes of an approval: the approval of what was read, then its job. */
    method Record(id: Id, digest: string, ghost loaded: Spool) returns (r: Result<()>)
      requires Valid() && Meanwhile(loaded, s) && id in loaded.requests && (moved || id in s.requests)
      requires loaded.requests[id].status == DryRunOk && digest == loaded.requests[id].digest
      requires crowded || misread || DeriveState(loaded.requests[id], loaded.now) == AwaitingApproval
      modifies this`s, this`moved, this`failed
      ensures Valid() && (r.Err? ==> r.error == Io) && (old(moved) ==> moved)
      ensures r.Ok? ==> PromoteJob(id) in s.queue && id in s.requests && s.requests[id].approval.Some? &&
                        s.requests[id].approval.value.digest == digest == s.requests[id].digest
      ensures r.Ok? ==> old(s.now) + 86400000 <= s.requests[id].approval.value.expiresAt <= s.now + 86400000
      ensures forall i :: BusyIn(s, i) && i != id ==> BusyIn(old(s), i)
      ensures old(failed) ==> failed
      ensures !moved && !failed ==> r != Err(Io)
    {
      hide Sound, ActiveIn, BusyIn, RunnerMoved, Meanwhile, DeriveState;
      var approvedAt := s.now;
      ghost var middle := s;
      Await();
      forall i ensures BusyIn(s, i) ==> BusyIn(middle, i) { MeanwhileActive(middle, s, i); }
      MeanwhileTwice(loaded, middle, s);
      Later(middle, s);
      var ok := Write(false);
      if !ok || id !in s.requests { return Err(Io); }
      var a := Approval(digest, approvedAt + APPROVAL_TTL);
      RequestMoved(loaded, s, id);
      ApprovingSound(s, loaded.requests[id], loaded.now, id, a, crowded || misread);
      ApprovingBusy(s, id, a);
      s := Approving(s, id, a);
      ghost var approved := s;
      Await();
      forall i ensures BusyIn(s, i) ==> BusyIn(approved, i) { MeanwhileActive(approved, s, i); }
      ok := Write(false);
      if !ok || id !in s.requests { return Err(Io); }
      RequestMoved(approved, s, id);
      SoundApproval(approved, id, crowded || misread);
      MovedApproval(approved.requests[id], s.requests[id], approved.now);
      QueueingSound(s, PromoteJob(id), crowded || misread);
      QueueingBusy(s, PromoteJob(id));
      s := Queueing(s, PromoteJob(id));
      r := Ok(());
    }

    method Reject(id: Id) returns (r: Result<()>, ghost wrong: bool, ghost seen: Spool)
      requires Valid()
      modifies this`s, this`moved, this`misread, this`failed
      ensures Valid() && misread == (old(misread) || wrong)
      ensures r.Ok? ==> id in s.requests && s.requests[id].rejected && (ActiveIn(s, id) ==> wrong && s.requests[id].status == Promoting)
      ensures Meanwhile(old(s), seen) && (!moved ==> seen == old(s))
      ensures !wrong ==>
        && (r == Err(NotFound) <==> id !in seen.requests)
        && (r == Err(NotRejectable) <==> id in seen.requests && !Rejectable(seen.requests[id]))
      ensures r == Err(NotRejectable) ==> id in old(s.requests)
      ensures r.Err? && r.error != Io ==> Meanwhile(old(s), s)
      ensures old(failed) ==> failed
      ensures !moved && !failed ==> r != Err(Io)
      ensures r.Err? ==> r.error in {Io, NotFound, NotRejectable}
    {
      hide Sound, ActiveIn, BusyIn, Meanwhile, ReadAs, DeriveState, Pending, Rejectable;
      var read;
      ghost var lost;
      read, lost, wrong := Load(id);
      seen := s;
      if id in s.requests { RejectableIff(s.requests[id], s.now); }
      if read.None? { return Err(NotFound), wrong, seen; }
      var st := DeriveState(read.value, s.now);
      if !Pending(st) && st != Is(DryRunFailed) {
        RequestMoved(old(s), s, id);
        return Err(NotRejectable), wrong, seen;
      }
      ghost var before := s;
      if !wrong { NotBusy(s, id); }
      Await();
      MeanwhileActive(before, s, id);
      var ok := Write(false);
      if !ok || id !in s.requests { return Err(Io), wrong, seen; }
      RejectingSound(s, id, crowded || misread);
      s := Rejecting(s, id);
      r := Ok(());
    }
  }

  lemma SoundKeys(s: Spool, loose: bool)
    requires Sound(s, loose)
    ensures s.requests.Keys <= s.dirs
  {
  }

  lemma SoundTimes(s: Spool, loose: bool)
    requires Sound(s, loose)
    ensures forall d :: d in s.dirs ==> d.second <= s.now / 1000
  {
  }

  lemma SoundApproval(s: Spool, id: Id, loose: bool)
    requires Sound(s, loose) && id in s.requests && s.requests[id].approval.Some?
    ensures Progress(s.requests[id].status) >= 3 && s.requests[id].approval.value.digest == s.requests[id].digest
  {
    assert ApprovalOk(s, id);
  }

  lemma LooserSound(s: Spool, tight: bool, loose: bool)
    requires Sound(s, tight) && (tight ==> loose)
    ensures Sound(s, loose)
  {
  }

  lemma NothingBusy(s: Spool, states: map<Id, State>, todo: set<Id>, listed: set<Id>)
    requires forall id :: id in listed ==> Reported(s, states, id)
    requires forall i :: i in states ==> !Busy(states[i]) && (Pending(states[i]) ==> i in todo)
    ensures forall i :: i in listed ==> !BusyIn(s, i) && (ActiveIn(s, i) ==> i in todo)
  {
    forall i | i in listed ensures !BusyIn(s, i) && (ActiveIn(s, i) ==> i in todo) { assert Reported(s, states, i); }
  }

  lemma NoneReported(s: Spool, states: map<Id, State>, id: Id)
    requires id !in s.requests
    ensures Reported(s, states, id)
  {
  }

  lemma ReadBusy(s: Spool, id: Id)
    requires id in s.requests && Busy(DeriveState(s.requests[id], s.now))
    ensures BusyIn(s, id)
  {
  }

  /** A listing with nothing busy in it, read right, says that nothing is. */
  lemma OthersFree(s: Spool, t: Spool, u: Spool, states: map<Id, State>, i: Id)
    requires Meanwhile(s, t) && i in Listed(s.dirs) && forall j :: j in states ==> !Busy(states[j])
    requires i in Listed(t.dirs) ==> Reported(u, states, i)
    requires Meanwhile(t, u)
    ensures !BusyIn(u, i)
  {
    if i in t.dirs {
      ListedStays(s.dirs, t.dirs, i);
    } else {
      RequestsGone(t, u, i);
    }
  }

  lemma RequestsGone(t: Spool, u: Spool, i: Id)
    requires Meanwhile(t, u) && i !in t.dirs
    ensures i !in u.requests
  {
  }

  lemma ListedStays(a: set<Id>, b: set<Id>, i: Id)
    requires b <= a && i in b && i in Listed(a)
    ensures i in Listed(b)
  {
    SubsetSize(AboveIn(b, i), AboveIn(a, i));
  }

  lemma ApprovingBusy(s: Spool, id: Id, a: Approval)
    requires id in s.requests
    ensures forall i :: i != id && BusyIn(Approving(s, id, a), i) ==> BusyIn(s, i)
  {
  }

  lemma QueueingBusy(s: Spool, job: Job)
    ensures forall i :: BusyIn(Queueing(s, job), i) ==> BusyIn(s, i)
  {
  }

  /** The requests a listing has read as they are; in a spool with one slot, whatever it did
      not get wrong. */
  ghost function SeenIds(s: Spool, wrong: set<Id>, loose: bool): set<Id> {
    (Listed(s.dirs) + (if loose then {} else s.requests.Keys)) - wrong
  }

  /** In an uncrowded spool whatever is in the slot is among the fifty listed. */
  lemma SlotListed(s: Spool, t: Spool, loose: bool)
    requires Sound(s, loose) && Meanwhile(s, t)
    ensures !loose ==> forall i :: ActiveIn(t, i) ==> i in Listed(s.dirs)
  {
    if !loose {
      forall i | ActiveIn(t, i) ensures i in Listed(s.dirs) {
        MeanwhileActive(s, t, i);
        NewestAreListed(s.dirs, i);
      }
    }
  }

  lemma SameRequests(s: Spool, id: Id)
    ensures forall i :: ActiveIn(MakingDirectory(s, id), i) <==> ActiveIn(s, i)
  {
  }

  lemma NewRequest(s: Spool, id: Id)
    ensures forall i :: i != id ==> (ActiveIn(Requesting(s, id), i) <==> ActiveIn(s, i))
  {
  }

  lemma Later(s: Spool, t: Spool)
    requires Meanwhile(s, t)
    ensures s.now <= t.now
  {
  }

  lemma RequestMoved(s: Spool, t: Spool, id: Id)
    requires Meanwhile(s, t) && id in t.requests
    ensures id in s.requests && RunnerMoved(s.requests[id], t.requests[id], s.now) && s.now <= t.now
  {
  }

  lemma NotBusy(s: Spool, id: Id)
    requires id in s.requests && (Pending(DeriveState(s.requests[id], s.now)) || DeriveState(s.requests[id], s.now) == Is(DryRunFailed))
    ensures !BusyIn(s, id)
  {
  }

  /** What is waiting for approval now was in the slot, and not approved, before. */
  lemma WasWaiting(s: Spool, t: Spool, id: Id)
    requires Meanwhile(s, t) && id in t.requests && DeriveState(t.requests[id], t.now) == AwaitingApproval
    ensures id in s.requests && ActiveIn(s, id) && !BusyIn(s, id)
  {
    MeanwhileActive(s, t, id);
  }

  // ---------------------------------------------------------------- why fifty a second

  const EMPTY := Spool({}, map[], {}, 0)

  /** Whether the directory was read, and which files of each request were not. */
  datatype Reads = Reads(listed: bool, lost: map<Id, set<File>>)

  const ALL_READ := Reads(true, map[])

  function ReadOf(s: Spool, got: Reads, id: Id): Option<Request> {
    if id in s.requests then ReadAs(s.requests[id], if id in got.lost then got.lost[id] else {}) else None
  }

  /** The derived states of what is listed and read, all at once. */
  function StatesOf(s: Spool, got: Reads): map<Id, State> {
    map id | id in Listed(s.dirs) && got.listed && ReadOf(s, got, id).Some? :: DeriveState(ReadOf(s, got, id).value, s.now)
  }

  /** The same while `todo` has yet to be read. */
  ghost function StatesBut(s: Spool, got: Reads, todo: set<Id>): map<Id, State> {
    map id | id in Listed(s.dirs) && id !in todo && ReadOf(s, got, id).Some? :: DeriveState(ReadOf(s, got, id).value, s.now)
  }

  lemma NoneRead(s: Spool, got: Reads, todo: set<Id>)
    requires todo == Listed(s.dirs)
    ensures StatesBut(s, got, todo) == map[]
  {
  }

  lemma NoneLeft(s: Spool, got: Reads)
    ensures got.listed ==> StatesBut(s, got, {}) == StatesOf(s, got)
  {
  }

  lemma Unlisted()
    ensures forall s :: StatesOf(s, Reads(false, map[])) == map[]
  {
  }

  lemma StatesPush(s: Spool, got: Reads, todo: set<Id>, id: Id, lost: set<File>)
    requires id in todo && todo <= Listed(s.dirs) && got.lost.Keys !! todo
    ensures var now := got.(lost := got.lost[id := lost]);
            var read := if id in s.requests then ReadAs(s.requests[id], lost) else None;
            StatesBut(s, now, todo - {id}) ==
              if read.Some? then StatesBut(s, got, todo)[id := DeriveState(read.value, s.now)] else StatesBut(s, got, todo)
  {
    hide Listed, DeriveState, ReadAs;
    var now := got.(lost := got.lost[id := lost]);
    assert forall i :: i != id ==> ReadOf(s, now, i) == ReadOf(s, got, i);
  }

  function SupersedingAll(s: Spool, all: set<Id>): Spool {
    s.(requests := map i | i in s.requests :: if i in all then s.requests[i].(superseded := true) else s.requests[i])
  }

  lemma SupersedingNone(s: Spool, all: set<Id>)
    ensures SupersedingAll(s, all - all) == s
  {
    assert SupersedingAll(s, all - all).requests == s.requests;
  }

  lemma SupersedingKeys(s: Spool, done: set<Id>)
    ensures SupersedingAll(s, done).requests.Keys == s.requests.Keys
  {
  }

  lemma SupersedingOne(s: Spool, done: set<Id>, id: Id)
    requires id in s.requests
    ensures Superseding(SupersedingAll(s, done), id) == SupersedingAll(s, done + {id})
  {
    assert Superseding(SupersedingAll(s, done), id).requests == SupersedingAll(s, done + {id}).requests;
  }

  function PendingOf(states: map<Id, State>): set<Id> {
    set i | i in states && Pending(states[i])
  }

  function BusyOf(states: map<Id, State>): set<Id> {
    set i | i in states && Busy(states[i])
  }

  /** A submission that nothing else moves in; None when it is refused. */
  function SubmitAlone(s: Spool, id: Id, got: Reads): Option<Spool> {
    var states := StatesOf(s, got);
    if BusyOf(states) != {} then None
    else Some(Queueing(Requesting(MakingDirectory(SupersedingAll(s, PendingOf(states)), id), id), DryRunJob(id)))
  }

  lemma AloneIs(s: Spool, id: Id, todo: set<Id>, busy: set<Id>, got: Reads)
    requires todo == (set i | i in StatesOf(s, got) && Pending(StatesOf(s, got)[i]))
    requires busy == (set i | i in StatesOf(s, got) && Busy(StatesOf(s, got)[i])) == {}
    ensures SubmitAlone(s, id, got) == Some(Queueing(Requesting(MakingDirectory(SupersedingAll(s, todo), id), id), DryRunJob(id)))
  {
  }

  /** A submission does not see that the request is in the slot: fifty directories are above
      it, the directory or the request was not read, it was read as one that is over, or it
      is being promoted and was read as one that waits. */
  ghost predicate NotSeen(s: Spool, got: Reads, a: Id)
    requires a in s.requests
  {
    || |AboveIn(s.dirs, a)| >= 50
    || !got.listed || ReadOf(s, got, a).None?
    || !Active(ReadOf(s, got, a).value, s.now)
    || (s.requests[a].status == Promoting && Pending(DeriveState(ReadOf(s, got, a).value, s.now)))
  }

  /** For every spool and whatever could not be read: a submission that is not refused leaves
      a second request in the slot exactly when it did not see one that was. */
  lemma SharesTheSlotIff(s: Spool, id: Id, got: Reads)
    requires id !in s.dirs && s.requests.Keys <= s.dirs && SubmitAlone(s, id, got).Some?
    ensures ActiveIn(SubmitAlone(s, id, got).value, id)
    ensures (exists a :: a != id && ActiveIn(SubmitAlone(s, id, got).value, a)) <==> (exists a :: ActiveIn(s, a) && NotSeen(s, got, a))
  {
    hide AboveIn, NotSeen;
    var t := SubmitAlone(s, id, got).value;
    forall a | a != id ensures ActiveIn(t, a) <==> ActiveIn(s, a) && NotSeen(s, got, a) { StaysIff(s, id, a, got); }
  }

  lemma StaysIff(s: Spool, id: Id, a: Id, got: Reads)
    requires id !in s.dirs && s.requests.Keys <= s.dirs && SubmitAlone(s, id, got).Some? && a != id
    ensures ActiveIn(SubmitAlone(s, id, got).value, a) <==> ActiveIn(s, a) && NotSeen(s, got, a)
  {
    hide AboveIn, ReadAs;
    var states := StatesOf(s, got);
    if a in s.requests {
      ReadStates(s, got, a);
      if a in states { assert a !in BusyOf(states) && (a in PendingOf(states) <==> Pending(states[a])); }
    }
  }

  lemma ReadStates(s: Spool, got: Reads, a: Id)
    requires a in s.requests && s.requests.Keys <= s.dirs
    ensures a in StatesOf(s, got) <==> |AboveIn(s.dirs, a)| < LISTED && got.listed && ReadOf(s, got, a).Some?
    ensures a in StatesOf(s, got) ==> StatesOf(s, got)[a] == DeriveState(ReadOf(s, got, a).value, s.now)
  {
  }

  /** When all is read, not to be seen is to have fifty directories above. */
  lemma AllReadSees(s: Spool, a: Id)
    requires ActiveIn(s, a)
    ensures NotSeen(s, ALL_READ, a) <==> |AboveIn(s.dirs, a)| >= 50
  {
    ReadInFull(s.requests[a]);
  }

  /** A submission is refused exactly when one of the fifty latest requests was read as
      approved or promoting; with everything read, when one of them is. */
  lemma RefusedIff(s: Spool, id: Id, got: Reads)
    requires s.requests.Keys <= s.dirs
    ensures SubmitAlone(s, id, got).None? <==>
            exists a :: a in s.requests && |AboveIn(s.dirs, a)| < 50 && got.listed && ReadOf(s, got, a).Some? &&
                        Busy(DeriveState(ReadOf(s, got, a).value, s.now))
    ensures SubmitAlone(s, id, ALL_READ).None? <==> exists a :: BusyIn(s, a) && |AboveIn(s.dirs, a)| < 50
  {
    hide AboveIn, Listed, ReadOf;
    forall a, g: Reads | a in s.requests
      ensures a in BusyOf(StatesOf(s, g)) <==>
              |AboveIn(s.dirs, a)| < 50 && g.listed && ReadOf(s, g, a).Some? && Busy(DeriveState(ReadOf(s, g, a).value, s.now))
    {
      ReadStates(s, g, a);
    }
    forall g: Reads, a | a in BusyOf(StatesOf(s, g)) ensures a in s.requests { OnlyRequests(s, g, a); }
    forall a | a in s.requests ensures ReadOf(s, ALL_READ, a) == Some(s.requests[a]) { ReadAll(s, a); }
  }

  lemma OnlyRequests(s: Spool, got: Reads, a: Id)
    requires a in StatesOf(s, got)
    ensures a in s.requests
  {
  }

  lemma ReadAll(s: Spool, a: Id)
    requires a in s.requests
    ensures ReadOf(s, ALL_READ, a) == Some(s.requests[a])
  {
  }

  /** An approved request whose approval cannot be read does not refuse the submission: it is
      read as one that waits, and withdrawn. */
  lemma UnreadApprovalIsWithdrawn(a: Id, b: Id, p: Request)
    requires a != b && p.status == DryRunOk && DeriveState(p, 0) == Approved
    ensures var s := Spool({a}, map[a := p], {}, 0);
            var two := SubmitAlone(s, b, Reads(true, map[a := {ApprovalFile}]));
            BusyIn(s, a) && two.Some? && two.value.requests[a].superseded && !ActiveIn(two.value, a)
  {
    hide AboveIn, Listed;
    var s, got := Spool({a}, map[a := p], {}, 0), Reads(true, map[a := {ApprovalFile}]);
    AllListed(s.dirs);
    assert forall i :: i in StatesOf(s, got) <==> i == a;
    assert Pending(StatesOf(s, got)[a]);
    assert BusyOf(StatesOf(s, got)) == {};
    assert a in PendingOf(StatesOf(s, got));
  }

  /** Two submissions into an empty spool leave two requests in the slot when the second one
      cannot read the directory, or the request of the first; and a request that is being
      promoted shares the slot when neither its status nor its approval can be read. */
  lemma UnreadSharesTheSlot(a: Id, b: Id, p: Request)
    requires a != b && p.status == Promoting && !p.rejected && !p.superseded
    ensures var one := SubmitAlone(EMPTY, a, ALL_READ).value;
            forall got :: got in {Reads(false, map[]), Reads(true, map[a := {RequestFile}])} ==>
              && SubmitAlone(one, b, got).Some?
              && ActiveIn(SubmitAlone(one, b, got).value, a) && ActiveIn(SubmitAlone(one, b, got).value, b)
    ensures var s := Spool({a}, map[a := p], {}, 0);
            var two := SubmitAlone(s, b, Reads(true, map[a := {StatusFile, ApprovalFile}]));
            two.Some? && ActiveIn(two.value, a) && ActiveIn(two.value, b)
  {
    hide AboveIn, Listed;
    var one := SubmitAlone(EMPTY, a, ALL_READ).value;
    assert StatesOf(EMPTY, ALL_READ) == map[];
    forall got | got in {Reads(false, map[]), Reads(true, map[a := {RequestFile}])}
      ensures SubmitAlone(one, b, got).Some? && ActiveIn(SubmitAlone(one, b, got).value, a) && ActiveIn(SubmitAlone(one, b, got).value, b)
    {
      assert StatesOf(one, got) == map[];
    }
    var s, got := Spool({a}, map[a := p], {}, 0), Reads(true, map[a := {StatusFile, ApprovalFile}]);
    assert forall i :: i in StatesOf(s, got) ==> i == a && StatesOf(s, got)[i] == Is(Queued);
    assert BusyOf(StatesOf(s, got)) == {};
  }

  /** Submissions one after the other, all within the same second. */
  function Submitted(ids: seq<Id>): Option<Spool> {
    if ids == [] then Some(EMPTY)
    else
      var s := Submitted(ids[..|ids| - 1]);
      if s.None? then None else SubmitAlone(s.value, ids[|ids| - 1], ALL_READ)
  }

  function Ascending(n: nat): seq<Id> {
    seq(n, i requires 0 <= i < n => Id(0, i + 1))
  }

  /** Nothing has happened to the requests but that all except the last were superseded. */
  ghost predicate OnlyLast(s: Spool, last: Id) {
    && s.now == 0 && last in s.requests && s.requests.Keys == s.dirs
    && (forall i :: i in s.requests ==> s.requests[i] == NEW.(superseded := i != last))
  }

  lemma AllListed(dirs: set<Id>)
    requires |dirs| <= LISTED
    ensures Listed(dirs) == dirs
  {
    forall d | d in dirs ensures d in Listed(dirs) {
      assert AboveIn(dirs, d) <= dirs - {d};
      SubsetSize(AboveIn(dirs, d), dirs - {d});
    }
  }

  /** Of requests of which only the last is not superseded, only the last is pending. */
  lemma OnlyLastIsPending(s: Spool, last: Id)
    requires OnlyLast(s, last)
    ensures BusyOf(StatesOf(s, ALL_READ)) == {} && PendingOf(StatesOf(s, ALL_READ)) <= {last}
    ensures last in Listed(s.dirs) ==> PendingOf(StatesOf(s, ALL_READ)) == {last}
  {
    hide Listed;
    var states := StatesOf(s, ALL_READ);
    forall i | i in states ensures states[i] == if i == last then Is(Queued) else Superseded { assert s.requests[i] == NEW.(superseded := i != last); }
    if last in Listed(s.dirs) { assert last in states; }
  }

  lemma NextIsOnlyLast(s: Spool, last: Id, id: Id)
    requires OnlyLast(s, last) && id !in s.dirs && |s.dirs| <= LISTED
    ensures SubmitAlone(s, id, ALL_READ).Some? && OnlyLast(SubmitAlone(s, id, ALL_READ).value, id) && SubmitAlone(s, id, ALL_READ).value.dirs == s.dirs + {id}
  {
    hide Listed, StatesOf, PendingOf, BusyOf;
    AllListed(s.dirs);
    OnlyLastIsPending(s, last);
    var t := SubmitAlone(s, id, ALL_READ).value;
    assert t.requests == SupersedingAll(s, {last}).requests[id := NEW];
    assert t.requests.Keys == s.requests.Keys + {id};
  }

  function Suffixes(n: nat): set<Id> {
    set i | 1 <= i <= n :: Id(0, i)
  }

  lemma SuffixesPush(n: nat)
    ensures Suffixes(n + 1) == Suffixes(n) + {Id(0, n + 1)} && Id(0, n + 1) !in Suffixes(n) && Id(0, 0) !in Suffixes(n) && Suffixes(0) == {}
  {
  }

  lemma {:induction false} AscendingSubmitted(n: nat)
    requires 1 <= n <= LISTED
    ensures Submitted(Ascending(n)).Some?
    ensures var s := Submitted(Ascending(n)).value;
            OnlyLast(s, Id(0, n)) && |s.dirs| == n && s.dirs == Suffixes(n)
  {
    hide SubmitAlone, OnlyLast, Suffixes, Submitted;
    var front := Ascending(n - 1);
    assert Ascending(n) == front + [Id(0, n)];
    SubmittedPush(front, Id(0, n));
    SuffixesPush(n - 1);
    if n == 1 {
      FirstSubmitted();
      NoneSubmitted();
      SuffixesPush(0);
      assert front == [];
    } else {
      AscendingSubmitted(n - 1);
      NextIsOnlyLast(Submitted(front).value, Id(0, n - 1), Id(0, n));
    }
  }

  lemma NoneSubmitted()
    ensures Submitted([]) == Some(EMPTY)
  {
  }

  lemma FirstSubmitted()
    ensures SubmitAlone(EMPTY, Id(0, 1), ALL_READ).Some?
    ensures var s := SubmitAlone(EMPTY, Id(0, 1), ALL_READ).value; OnlyLast(s, Id(0, 1)) && s.dirs == {Id(0, 1)}
  {
    assert StatesOf(EMPTY, ALL_READ) == map[];
    assert SupersedingAll(EMPTY, {}).requests == map[];
  }

  /** From an empty spool: fifty submissions within one second, another one whose suffix is
      the lowest, and one more leave two requests in the slot. */
  lemma HiddenRequestSharesTheSlot()
    ensures var ids := Ascending(LISTED) + [Id(0, 0)] + [Id(0, LISTED + 1)];
            Submitted(ids).Some? && !OneSlot(Submitted(ids).value)
  {
    hide SubmitAlone, Submitted, AboveIn;
    var ids := Ascending(LISTED);
    AscendingSubmitted(LISTED);
    var s := Submitted(ids).value;
    SuffixesPush(LISTED);
    NextIsOnlyLast(s, Id(0, LISTED), Id(0, 0));
    var t := SubmitAlone(s, Id(0, 0), ALL_READ).value;
    SubmittedPush(ids, Id(0, 0));
    assert AboveIn(t.dirs, Id(0, 0)) == s.dirs by { AllAbove(t.dirs, s.dirs); }
    LastIsHidden(t);
    AllReadSees(t, Id(0, 0));
    SharesTheSlotIff(t, Id(0, LISTED + 1), ALL_READ);
    SubmittedPush(ids + [Id(0, 0)], Id(0, LISTED + 1));
    var u := SubmitAlone(t, Id(0, LISTED + 1), ALL_READ).value;
    assert ActiveIn(t, Id(0, 0));
    var a :| a != Id(0, LISTED + 1) && ActiveIn(u, a);
  }

  lemma SubmittedPush(ids: seq<Id>, id: Id)
    ensures Submitted(ids + [id]) == if Submitted(ids).None? then None else SubmitAlone(Submitted(ids).value, id, ALL_READ)
  {
    hide SubmitAlone;
    assert (ids + [id])[..|ids|] == ids;
  }

  lemma AllAbove(dirs: set<Id>, above: set<Id>)
    requires dirs == above + {Id(0, 0)} && forall d :: d in above ==> d.second == 0 && d.suffix > 0
    ensures AboveIn(dirs, Id(0, 0)) == above
  {
  }

  /** The last request is waiting, and none is busy. */
  lemma LastIsHidden(s: Spool)
    requires OnlyLast(s, Id(0, 0))
    ensures ActiveIn(s, Id(0, 0)) && SubmitAlone(s, Id(0, LISTED + 1), ALL_READ).Some?
  {
    OnlyLastIsPending(s, Id(0, 0));
  }
}
