/** Deploying an image through the isolated builder and the runtime relay
    (app/deployment/container-executor.js).

    Every request to the relay may fail, before or after it took effect, and the job may be
    cancelled or interrupted while any of them is under way.  Between two steps the target's
    container may stop, vanish, or be restarted by its own unit onto the `latest` tag. */
module ContainerDeploy {
  import opened Options
  import opened RuntimeWorld

  datatype Job = Job(id: string, instance: string, project: string, target: string, revision: string)

  /** The runtime-side name an imported image has until it is promoted or removed. */
  datatype CandidateRef = CandidateRef(image: string, jobId: string)

  datatype Checkpoint = Checkpoint(job: Job, image: string, imageId: ImageId)

  datatype Built = Built(id: ImageId, revision: string)

  datatype Builder = Absent | Running | Stopped

  const CLEANUP_DEFERRED := "cleanup_deferred"
  const CLEANUP_FAILED := "cleanup_failed"

  /** The steps of building and checking, of sending the image, and of everything up to the
      rollback tag. */
  const BUILT := ["building_image", "build", "checking_image", "identity", "smoke", "smoke removed"]
  const SENT := ["checkpoint", "import", "sent"]
  const STAGED := ["preflight", "start", "building_image", "build", "checking_image", "identity", "smoke", "smoke removed",
                   "transferring_image", "checkpoint", "import", "sent", "stop"]

  /** The events that the job's own recovery and clean-up record. */
  const RECOVERY_EVENTS := {RESTORING, ROLLBACK_FAILED, CLEANUP_DEFERRED, CLEANUP_FAILED}

  /** The job's abort signal: it fires once, with a reason. */
  class Signal {
    var reason: Option<Code>

    constructor ()
      ensures reason.None?
    {
      reason := None;
    }
  }

  class Site {
    const job: Job
    const allowedImages: set<string>
    /** What the world does at each await, chosen before anything is known of it. */
    const env: Env
    /** How many awaits there have been. */
    var at: nat

    // the runtime host
    var candidates: map<CandidateRef, ImageId>
    var latest: Option<ImageId>
    var rollback: Option<ImageId>
    var container: Option<Container>
    // the job directory
    var journal: Option<Checkpoint>
    // the job's private builder
    var builder: Builder
    var built: Option<Built>

    /** Set once a candidate of the job was on the runtime without its checkpoint. */
    ghost var exposed: bool
    /** The image that passed the smoke test. */
    ghost var smoked: Option<ImageId>
    /** The last container seen, what the last health check reported, the unit's last state. */
    ghost var observed: Option<Container>
    ghost var reported: Option<string>
    ghost var unitActive: bool
    /** The phases whose event could not be saved. */
    ghost var unsaved: set<string>
    /** How often a step that is not a request to the runtime has failed, or the image built
        or imported was not the one asked for. */
    ghost var hitches: nat
    /** The steps of the job, as far as they were tried: its events, what it did to the
        builder and the sources, its checkpoint and its candidate. */
    ghost var trace: seq<string>

    constructor (job: Job, allowedImages: set<string>, env: Env, latest: Option<ImageId>, container: Option<Container>)
      ensures NothingLeft() && !exposed && hitches == 0 && this.job == job && this.env == env
      ensures this.latest == latest && this.container == container && at == 0
    {
      this.job, this.allowedImages, this.env := job, allowedImages, env;
      this.latest, this.container, rollback := latest, container, None;
      at, candidates, journal, builder, built := 0, map[], None, Absent, None;
      exposed, smoked, observed, reported, unitActive, unsaved, hitches := false, None, None, None, false, {}, 0;
      trace := [];
    }

    /** The runtime as the job with this signal finds it. */
    ghost function View(sig: Signal): World
      reads this, sig
    {
      World(at, latest, container, sig.reason, observed, reported, unitActive, unsaved)
    }

    predicate IsOurs(ref: CandidateRef) {
      ref.jobId == job.id
    }

    /** Whatever the job left on the runtime can be found from its journal. */
    ghost predicate Safe()
      reads this`candidates, this`journal
    {
      forall ref :: ref in candidates && IsOurs(ref) ==> journal == Some(Checkpoint(job, ref.image, candidates[ref]))
    }

    ghost predicate NothingLeft()
      reads this`candidates, this`journal
    {
      journal.None? && forall ref :: ref in candidates ==> !IsOurs(ref)
    }

    /** Candidates of other jobs are what they were. */
    twostate predicate OthersUntouched()
      reads this`candidates
    {
      forall ref :: !IsOurs(ref) ==> (ref in candidates <==> ref in old(candidates)) && (ref in candidates ==> candidates[ref] == old(candidates[ref]))
    }

    // -------------------------------------------------------------- one step each

    method Await(sig: Signal)
      modifies this`container, this`at, sig`reason
      ensures View(sig) == Awaited(env, old(View(sig)))
      ensures Churned(old(container), container, latest)
      ensures old(sig.reason).Some? ==> sig.reason == old(sig.reason)
    {
      var m := env(at);
      at := at + 1;
      if Churned(container, m.drift, latest) { container := m.drift; }
      if sig.reason.None? { sig.reason := m.abort; }
    }

    /** One request: refused before it is sent once the signal has fired; otherwise it may
        succeed, fail without effect or fail with effect. */
    method Reach(sig: Signal) returns (fault: Option<Code>, effect: bool)
      modifies this`container, this`at, sig`reason
      ensures (View(sig), fault, effect) == Reached(env, old(View(sig)))
      ensures Churned(old(container), container, latest)
      ensures old(sig.reason).Some? ==> sig.reason == old(sig.reason) && fault == old(sig.reason) && !effect
      ensures fault.None? ==> effect
      ensures Calm(env) && old(sig.reason).None? ==> sig.reason.None? && fault.None?
    {
      if sig.reason.Some? { return sig.reason, false; }
      var m := env(at);
      Await(sig);
      return m.fault, m.fault.None? || m.effect;
    }

    method TagLatest(sig: Signal, source: ImageId) returns (fault: Option<Code>)
      modifies this`container, this`at, this`latest, sig`reason
      ensures (View(sig), fault) == Tagged(env, old(View(sig)), source)
    {
      var effect;
      fault, effect := Reach(sig);
      if effect { latest := Some(source); }
    }

    method TagRollback(sig: Signal, source: ImageId) returns (fault: Option<Code>)
      modifies this`container, this`at, this`rollback, sig`reason
      ensures Churned(old(container), container, latest)
      ensures old(sig.reason).Some? ==> sig.reason == old(sig.reason)
      ensures fault.None? ==> rollback == Some(source)
      ensures rollback == old(rollback) || rollback == Some(source)
      ensures Calm(env) && old(sig.reason).None? ==> sig.reason.None? && fault.None?
    {
      var effect;
      fault, effect := Reach(sig);
      if effect { rollback := Some(source); }
    }

    /** The unit starts its container from `latest`. */
    method ServiceRestart(sig: Signal) returns (fault: Option<Code>)
      modifies this`container, this`at, sig`reason
      ensures (View(sig), fault) == Restarted(env, old(View(sig)))
    {
      var up := env(at).up;
      var effect;
      fault, effect := Reach(sig);
      if effect { container := if up && latest.Some? then Some(Container(latest.value, true)) else None; }
    }

    method ContainerStatus(sig: Signal) returns (r: Reply<Option<Container>>)
      modifies this`container, this`at, this`observed, sig`reason
      ensures (View(sig), r) == StatusRead(env, old(View(sig)))
      ensures Churned(old(container), container, latest)
      ensures old(sig.reason).Some? ==> sig.reason == old(sig.reason)
      ensures r.Answer? ==> r.value == container
      ensures Calm(env) && old(sig.reason).None? ==> sig.reason.None? && r.Answer?
    {
      var fault, _ := Reach(sig);
      if fault.Some? { return Fault(fault.value); }
      observed := container;
      r := Answer(container);
    }

    method ServiceIsActive(sig: Signal) returns (r: Reply<bool>)
      modifies this`container, this`at, this`unitActive, sig`reason
      ensures (View(sig), r) == ActiveRead(env, old(View(sig)))
    {
      var active := env(at).active;
      var fault, _ := Reach(sig);
      unitActive := fault.None? && active;
      r := if fault.Some? then Fault(fault.value) else Answer(active);
    }

    method HealthCheck(sig: Signal) returns (r: Reply<string>)
      modifies this`container, this`at, this`reported, sig`reason
      ensures (View(sig), r) == HealthRead(env, old(View(sig)))
    {
      var version := env(at).version;
      var fault, _ := Reach(sig);
      reported := if fault.Some? then None else Some(version);
      r := if fault.Some? then Fault(fault.value) else Answer(version);
    }

    /** The relay refuses an archive whose image is not the expected one, so only that
        image can appear under the candidate name. */
    method ImageImport(sig: Signal, ref: CandidateRef, expected: ImageId) returns (r: Reply<ImageId>)
      modifies this`container, this`at, this`hitches, this`trace, this`candidates, this`exposed, sig`reason
      ensures Churned(old(container), container, latest)
      ensures old(sig.reason).Some? ==> sig.reason == old(sig.reason)
      ensures candidates == old(candidates) || candidates == old(candidates)[ref := expected]
      ensures r.Answer? ==> candidates == old(candidates)[ref := expected]
      ensures exposed == (old(exposed) || !Safe())
      ensures hitches == old(hitches) + if (r.Answer? && r.value != expected) then 1 else 0
      ensures Calm(env) && hitches == old(hitches) && old(sig.reason).None? ==> sig.reason.None? && r == Answer(expected)
      ensures trace == old(trace) + ["import"]
    {
      trace := trace + ["import"];
      var fault, effect := Reach(sig);
      if effect { candidates := candidates[ref := expected]; }
      var told: ImageId := *;
      r := if fault.Some? then Fault(fault.value) else Answer(told);
      exposed := exposed || !Safe();
      hitches := hitches + if (r.Answer? && r.value != expected) then 1 else 0;
    }

    /** Removes the name only while it stands for the expected image. */
    method ImageRemoveCandidate(sig: Signal, ref: CandidateRef, expected: ImageId) returns (fault: Option<Code>)
      modifies this`container, this`at, this`trace, this`candidates, this`exposed, sig`reason
      ensures Churned(old(container), container, latest)
      ensures old(sig.reason).Some? ==> sig.reason == old(sig.reason)
      ensures candidates == old(candidates) || (ref in old(candidates) && old(candidates)[ref] == expected && candidates == old(candidates) - {ref})
      ensures fault.None? ==> ref !in candidates
      ensures exposed == (old(exposed) || !Safe())
      ensures Calm(env) && old(sig.reason).None? ==> sig.reason.None? && (old(ref in candidates ==> candidates[ref] == expected) ==> fault.None?)
      ensures trace == old(trace) + ["candidate removed"]
    {
      trace := trace + ["candidate removed"];
      var effect;
      fault, effect := Reach(sig);
      if ref in candidates {
        if candidates[ref] != expected {
          if fault.None? { fault := Some(Failed("resource_conflict")); }
        } else if effect {
          candidates := candidates - {ref};
        }
      }
      exposed := exposed || !Safe();
    }

    /** An atomic whole-file write: after a failure either version may be there. */
    method WriteJournal(sig: Signal, value: Checkpoint) returns (fault: Option<Code>)
      modifies this`container, this`at, this`hitches, this`trace, this`journal, this`exposed, sig`reason
      ensures Churned(old(container), container, latest)
      ensures old(sig.reason).Some? ==> sig.reason == old(sig.reason)
      ensures journal == old(journal) || journal == Some(value)
      ensures fault.None? ==> journal == Some(value)
      ensures exposed == (old(exposed) || !Safe())
      ensures hitches == old(hitches) + if !fault.None? then 1 else 0
      ensures (Calm(env) && old(sig.reason).None? ==> sig.reason.None?) && (hitches == old(hitches) ==> fault.None?)
      ensures trace == old(trace) + ["checkpoint"]
    {
      trace := trace + ["checkpoint"];
      Await(sig);
      fault := *;
      hitches := hitches + if !fault.None? then 1 else 0;
      var renamed := *;
      if fault.None? || renamed { journal := Some(value); }
      exposed := exposed || !Safe();
    }

    method ReadJournal(sig: Signal) returns (r: Reply<Option<Checkpoint>>)
      modifies this`container, this`at, this`hitches, this`trace, sig`reason
      ensures Churned(old(container), container, latest)
      ensures old(sig.reason).Some? ==> sig.reason == old(sig.reason)
      ensures r.Answer? ==> r.value == journal
      ensures hitches == old(hitches) + if !r.Answer? then 1 else 0
      ensures (Calm(env) && old(sig.reason).None? ==> sig.reason.None?) && (hitches == old(hitches) ==> r.Answer?)
      ensures trace == old(trace)
    {
      Await(sig);
      var fault: Option<Code> := *;
      hitches := hitches + if fault.Some? then 1 else 0;
      r := if fault.Some? then Fault(fault.value) else Answer(journal);
    }

    method RemoveJournal(sig: Signal) returns (fault: Option<Code>)
      modifies this`container, this`at, this`hitches, this`trace, this`journal, this`exposed, sig`reason
      ensures Churned(old(container), container, latest)
      ensures old(sig.reason).Some? ==> sig.reason == old(sig.reason)
      ensures journal == old(journal) || journal.None?
      ensures fault.None? ==> journal.None?
      ensures exposed == (old(exposed) || !Safe())
      ensures hitches == old(hitches) + if !fault.None? then 1 else 0
      ensures (Calm(env) && old(sig.reason).None? ==> sig.reason.None?) && (hitches == old(hitches) ==> fault.None?)
      ensures trace == old(trace) + ["checkpoint removed"]
    {
      trace := trace + ["checkpoint removed"];
      Await(sig);
      fault := *;
      hitches := hitches + if !fault.None? then 1 else 0;
      var unlinked := *;
      if fault.None? || unlinked { journal := None; }
      exposed := exposed || !Safe();
    }

    /** Record a phase of the job; saving it may fail. */
    method OnEvent(sig: Signal, phase: string) returns (fault: Option<Code>)
      modifies this`container, this`at, this`unsaved, this`hitches, this`trace, sig`reason
      ensures (View(sig), fault) == EventSaved(env, old(View(sig)), phase)
      ensures unsaved == old(unsaved) + if fault.Some? then {phase} else {}
      ensures Churned(old(container), container, latest)
      ensures old(sig.reason).Some? ==> sig.reason == old(sig.reason)
      ensures fault.Some? ==> fault.value.Failed?
      ensures Calm(env) ==> fault.None? && (old(sig.reason).None? ==> sig.reason.None?)
      ensures trace == old(trace) + [phase] && hitches == old(hitches) + if fault.Some? then 1 else 0
    {
      fault := env(at).fault;
      trace := trace + [phase];
      Await(sig);
      if fault.Some? && !fault.value.Failed? { fault := Some(Failed(phase)); }
      hitches := hitches + if fault.Some? then 1 else 0;
      if fault.Some? { unsaved := unsaved + {phase}; }
    }

    /** Anything that stays within the builder, the work directory or the sources. */
    method Elsewhere(sig: Signal, ghost step: string) returns (fault: Option<Code>)
      modifies this`container, this`at, this`hitches, this`trace, sig`reason
      ensures Churned(old(container), container, latest)
      ensures old(sig.reason).Some? ==> sig.reason == old(sig.reason)
      ensures hitches == old(hitches) + if !fault.None? then 1 else 0
      ensures (Calm(env) && old(sig.reason).None? ==> sig.reason.None?) && (hitches == old(hitches) ==> fault.None?)
      ensures trace == old(trace) + [step]
    {
      trace := trace + [step];
      Await(sig);
      fault := *;
      hitches := hitches + if !fault.None? then 1 else 0;
    }

    /** Idempotent; a stop that cannot be confirmed is always reported as such. */
    method StopBuilder(sig: Signal) returns (fault: Option<Code>)
      modifies this`container, this`at, this`hitches, this`trace, this`builder, sig`reason
      ensures Churned(old(container), container, latest)
      ensures old(sig.reason).Some? ==> sig.reason == old(sig.reason)
      ensures fault.Some? ==> fault.value.CancellationFailed?
      ensures old(builder).Stopped? ==> fault.None?
      ensures fault.None? ==> builder.Stopped?
      ensures old(hitches) <= hitches
      ensures (Calm(env) && old(sig.reason).None? ==> sig.reason.None?) && (hitches == old(hitches) ==> fault.None?)
      ensures fault.None? ==> hitches == old(hitches)
      ensures trace == old(trace) + if old(builder).Stopped? then [] else ["stop"]
      ensures fault.Some? ==> hitches > old(hitches)
    {
      if builder.Stopped? { return None; }
      var refused := Elsewhere(sig, "stop");
      if refused.Some? {
        if builder.Absent? { builder := Running; }
        return Some(CancellationFailed);
      }
      builder := Stopped;
      fault := None;
    }

    method StartBuilder(sig: Signal) returns (fault: Option<Code>)
      modifies this`container, this`at, this`hitches, this`trace, this`builder, sig`reason
      ensures Churned(old(container), container, latest)
      ensures old(sig.reason).Some? ==> sig.reason == old(sig.reason)
      ensures fault.None? ==> builder.Running?
      ensures old(hitches) <= hitches
      ensures Calm(env) && hitches == old(hitches) && old(sig.reason).None? && old(builder).Absent? ==> sig.reason.None? && fault.None?
      ensures fault.None? ==> hitches == old(hitches) && sig.reason.None? && trace == old(trace) + ["start"]
      ensures !old(builder).Absent? ==> fault.Some? && builder == old(builder)
    {
      if !builder.Absent? { return Some(Failed("resource_conflict")); }
      builder := Running;
      fault := Elsewhere(sig, "start");
      if fault.None? { fault := sig.reason; }
      if fault.Some? {
        var stop := StopBuilder(sig);
        if stop.Some? { fault := stop; }
      }
    }

    method RemoveBuilder(sig: Signal) returns (fault: Option<Code>)
      modifies this`container, this`at, this`hitches, this`trace, this`builder, sig`reason
      ensures Churned(old(container), container, latest)
      ensures old(sig.reason).Some? ==> sig.reason == old(sig.reason)
      ensures fault.Some? ==> fault.value.CancellationFailed?
      ensures fault.None? ==> builder.Absent?
      ensures old(hitches) <= hitches
      ensures (Calm(env) && old(sig.reason).None? ==> sig.reason.None?) && (hitches == old(hitches) ==> fault.None?)
      ensures fault.None? ==> hitches == old(hitches) && trace == old(trace) + (if old(builder).Stopped? then [] else ["stop"]) + ["remove"]
      ensures fault.Some? ==> hitches > old(hitches)
      ensures old(trace) <= trace
    {
      fault := StopBuilder(sig);
      if fault.Some? { return; }
      var refused := Elsewhere(sig, "remove");
      if refused.Some? { return Some(CancellationFailed); }
      builder := Absent;
    }

    // -------------------------------------------------------------- build and check

    /** Build the image, read its identity back, refuse one whose revision label is not
        the requested revision, and start it once without a network. */
    method BuildAndCheck(sig: Signal) returns (r: Reply<ImageId>)
      modifies this`container, this`at, this`hitches, this`trace, this`built, this`smoked, this`unsaved, sig`reason
      ensures Churned(old(container), container, latest)
      ensures old(sig.reason).Some? ==> sig.reason == old(sig.reason)
      ensures r.Answer? ==> built == Some(Built(r.value, job.revision)) && smoked == Some(r.value)
      ensures old(unsaved) <= unsaved
      ensures old(hitches) <= hitches
      ensures Calm(env) && hitches == old(hitches) && old(sig.reason).None? ==> sig.reason.None? && r.Answer?
      ensures r.Answer? ==> hitches == old(hitches) && trace == old(trace) + BUILT
    {
      hide EventSaved, Awaited, Calm;
      var fault := OnEvent(sig, "building_image");
      if fault.Some? { return Fault(fault.value); }
      fault := Elsewhere(sig, "build");
      if fault.Some? { return Fault(fault.value); }
      var id: ImageId, stamp: string := *, *;
      built := Some(Built(id, stamp));
      hitches := hitches + if stamp != job.revision then 1 else 0;
      r := CheckImage(sig, id, stamp);
    }

    /** Refuse an image of another revision, and start it once. */
    method CheckImage(sig: Signal, id: ImageId, stamp: string) returns (r: Reply<ImageId>)
      requires built == Some(Built(id, stamp))
      modifies this`container, this`at, this`hitches, this`trace, this`smoked, this`unsaved, sig`reason
      ensures Churned(old(container), container, latest)
      ensures old(sig.reason).Some? ==> sig.reason == old(sig.reason)
      ensures r.Answer? ==> r.value == id && stamp == job.revision && smoked == Some(id)
      ensures old(unsaved) <= unsaved
      ensures old(hitches) <= hitches
      ensures Calm(env) && hitches == old(hitches) && old(sig.reason).None? && stamp == job.revision ==> sig.reason.None? && r.Answer?
      ensures r.Answer? ==> hitches == old(hitches) && trace == old(trace) + ["checking_image", "identity", "smoke", "smoke removed"]
    {
      hide EventSaved, Awaited, Calm;
      var fault := OnEvent(sig, "checking_image");
      if fault.Some? { return Fault(fault.value); }
      fault := Elsewhere(sig, "identity");
      if fault.Some? { return Fault(fault.value); }
      if stamp != job.revision { return Fault(Failed("invalid_image")); }
      var smoke := Elsewhere(sig, "smoke");
      if smoke.None? { smoked := Some(id); }
      var removal := Elsewhere(sig, "smoke removed");
      if removal.Some? { return Fault(removal.value); }
      if smoke.Some? { return Fault(smoke.value); }
      r := Answer(id);
    }

    // -------------------------------------------------------------- transfer

    /** The checkpoint is durable before the first byte of the image is sent. */
    method TransferImage(sig: Signal, image: string, expected: ImageId) returns (r: Reply<ImageId>)
      requires NothingLeft()
      modifies this`container, this`at, this`hitches, this`trace, this`candidates, this`journal, this`builder, this`exposed, sig`reason
      ensures Safe() && exposed == old(exposed) && OthersUntouched()
      ensures Churned(old(container), container, latest)
      ensures old(sig.reason).Some? ==> sig.reason == old(sig.reason)
      ensures r.Answer? ==> r.value == expected && candidates == old(candidates)[CandidateRef(image, job.id) := expected]
      ensures journal.Some? ==> image in allowedImages
      ensures old(hitches) <= hitches
      ensures r.Answer? ==> journal == Some(Checkpoint(job, image, expected))
      ensures Calm(env) && hitches == old(hitches) && old(sig.reason).None? && image in allowedImages ==> sig.reason.None? && r.Answer?
      ensures r.Answer? ==> hitches == old(hitches) && sig.reason.None? && builder == old(builder) && trace == old(trace) + SENT
      ensures old(sig.reason).Some? || image !in allowedImages ==> r.Fault? && trace == old(trace)
      ensures old(trace) <= trace
      ensures r.Fault? && "import" in trace[|old(trace)|..] ==> old(builder).Absent? || builder.Stopped? || r.code.CancellationFailed?
    {
      if sig.reason.Some? { return Fault(sig.reason.value); }
      if image !in allowedImages { return Fault(Failed("invalid_state")); }
      var fault := WriteJournal(sig, Checkpoint(job, image, expected));
      if fault.Some? { return Fault(fault.value); }
      if sig.reason.Some? { return Fault(sig.reason.value); }
      r := ImageImport(sig, CandidateRef(image, job.id), expected);
      if r.Answer? {
        var saved := Elsewhere(sig, "sent");
        if sig.reason.Some? {
          r := Fault(sig.reason.value);
        } else if saved.Some? {
          r := Fault(Failed("artifact_transfer_failed"));
        } else if r.value != expected {
          r := Fault(Failed("invalid_image"));
        }
      }
      if r.Fault? { r := AbortTransfer(sig, r.code); }
    }

    /** Reap what was spawned and stop the builder; either can replace the error. */
    method AbortTransfer(sig: Signal, code: Code) returns (r: Reply<ImageId>)
      modifies this`container, this`at, this`hitches, this`trace, this`builder, sig`reason
      ensures r.Fault? && Churned(old(container), container, latest)
      ensures old(sig.reason).Some? ==> sig.reason == old(sig.reason)
      ensures r.code == code || r.code.CancellationFailed? || builder.Stopped? || old(builder).Absent?
      ensures old(hitches) <= hitches
      ensures old(trace) <= trace && (old(hitches) <= hitches)
      ensures old(builder).Absent? || builder.Stopped? || r.code.CancellationFailed?
    {
      var reaped := Elsewhere(sig, "reaped");
      if !builder.Absent? {
        var stop := StopBuilder(sig);
        if stop.Some? { return Fault(stop.value); }
      }
      r := Fault(if reaped.Some? then reaped.value else code);
    }

    // -------------------------------------------------------------- waiting for the unit

    /** Returns normally only straight after an answer that says the container is running
        the wanted image, and after a health check that reported the wanted version. */
    method WaitForRuntime(sig: Signal, recipe: Recipe, imageId: ImageId, probeHealth: bool) returns (fault: Option<Code>)
      requires View(sig).OnLatest()
      modifies this`container, this`at, this`observed, this`reported, this`unitActive, sig`reason
      ensures (View(sig), fault) == WaitedFor(env, old(View(sig)), recipe, job.revision, imageId, probeHealth)
      ensures WaitOk(old(View(sig)), View(sig), fault, recipe, job.revision, imageId, probeHealth)
      ensures fault.None? <==> old(sig.reason).None? && FoundWithin(env, old(at), old(container), old(latest), recipe, job.revision, imageId, probeHealth, 20)
    {
      WaitSucceedsIff(env, View(sig), recipe, job.revision, imageId, probeHealth);
      hide FoundWithin, Probed, Inspected, Waited, WaitOk, Awaited;
      WaitedOk(env, View(sig), recipe, job.revision, imageId, probeHealth, WAIT_ATTEMPTS, "health_failed");
      var failureCode := "health_failed";
      for attempt := 0 to WAIT_ATTEMPTS
        invariant WaitedFor(env, old(View(sig)), recipe, job.revision, imageId, probeHealth) ==
                  Waited(env, View(sig), recipe, job.revision, imageId, probeHealth, WAIT_ATTEMPTS - attempt, failureCode)
      {
        WaitedStep(env, View(sig), recipe, job.revision, imageId, probeHealth, WAIT_ATTEMPTS - attempt, failureCode);
        if sig.reason.Some? { return sig.reason; }
        var healthy, stop;
        healthy, stop, failureCode := Probe(sig, recipe, probeHealth, failureCode);
        if stop.Some? { return stop; }
        if healthy {
          var up;
          up, failureCode := Inspect(sig, imageId);
          if up.Fault? { return Some(up.code); }
          if up.value { return None; }
        }
        Await(sig);
        if sig.reason.Some? { return Some(Failed("ABORT_ERR")); }
      }
      WaitedStep(env, View(sig), recipe, job.revision, imageId, probeHealth, 0, failureCode);
      fault := Some(Failed(failureCode));
    }

    method Probe(sig: Signal, recipe: Recipe, probeHealth: bool, failure: string) returns (healthy: bool, stop: Option<Code>, failureCode: string)
      modifies this`container, this`at, this`reported, sig`reason
      ensures (View(sig), healthy, stop, failureCode) == Probed(env, old(View(sig)), recipe, job.revision, probeHealth, failure)
    {
      healthy, stop, failureCode := true, None, failure;
      if probeHealth && recipe.healthUrl {
        var health := HealthCheck(sig);
        match health
        case Answer(version) =>
          if recipe.versionField && version != ShortRevision(job.revision) { healthy, failureCode := false, "version_mismatch"; }
        case Fault(_) =>
          healthy, stop := false, sig.reason;
          if failureCode != "version_mismatch" { failureCode := "health_failed"; }
      }
    }

    method Inspect(sig: Signal, imageId: ImageId) returns (up: Reply<bool>, failureCode: string)
      modifies this`container, this`at, this`observed, this`unitActive, sig`reason
      ensures (View(sig), up, failureCode) == Inspected(env, old(View(sig)), imageId)
    {
      var active := ServiceIsActive(sig);
      if active.Fault? { return Fault(active.code), ""; }
      if !active.value { return Answer(false), "service_not_provisioned"; }
      var status := ContainerStatus(sig);
      if status.Fault? { return Fault(status.code), ""; }
      return Answer(status.value == Some(Container(imageId, true))), "version_mismatch";
    }

    // -------------------------------------------------------------- promote

    method Promote(sig: Signal, recipe: Recipe, imageId: ImageId) returns (fault: Option<Code>)
      modifies this`container, this`at, this`latest, this`observed, this`reported, this`unitActive, this`unsaved, this`hitches, this`trace, sig`reason
      ensures (View(sig), fault) == Promoted(env, old(View(sig)), recipe, job.revision, imageId)
      ensures old(trace) <= trace && (old(hitches) <= hitches)
      ensures fault.None? ==> hitches == old(hitches)
    {
      hide Tagged, Restarted, EventSaved, WaitedFor, WaitOk;
      RestartedOk(env, View(sig), imageId);
      fault := TagLatest(sig, imageId);
      if fault.Some? { return; }
      fault := ServiceRestart(sig);
      if fault.Some? { return; }
      EventKeeps(env, View(sig), WAITING);
      fault := OnEvent(sig, WAITING);
      if fault.Some? { return; }
      fault := WaitForRuntime(sig, recipe, imageId, true);
    }

    method RestorePrevious(recovery: Signal, recipe: Recipe, previous: ImageId) returns (fault: Option<Code>)
      modifies this`container, this`at, this`latest, this`observed, this`reported, this`unitActive, recovery`reason
      ensures (View(recovery), fault) == PutBack(env, old(View(recovery)), recipe, job.revision, previous)
    {
      hide Tagged, Restarted, WaitedFor, WaitOk;
      RestartedOk(env, View(recovery), previous);
      fault := TagLatest(recovery, previous);
      if fault.Some? { return; }
      fault := ServiceRestart(recovery);
      if fault.Some? { return; }
      fault := WaitForRuntime(recovery, recipe, previous, false);
    }

    /** Promote the candidate; put the previous image back when that fails. */
    method Activate(sig: Signal, recipe: Recipe, imageId: ImageId, previous: Option<ImageId>) returns (r: Option<Code>)
      modifies this`container, this`at, this`latest, this`observed, this`reported, this`unitActive, this`unsaved, this`hitches, this`trace, sig`reason
      ensures (View(sig), r) == Activated(env, old(View(sig)), recipe, job.revision, imageId, previous)
      ensures old(trace) <= trace && (old(hitches) <= hitches)
      ensures r.None? ==> hitches == old(hitches)
    {
      hide Promoted, Recovered;
      observed := None;
      r := Promote(sig, recipe, imageId);
      if r.None? { return; }
      var interrupted := sig.reason == Some(Interrupted) || r == Some(Interrupted);
      if previous.Some? && r.value != CancellationFailed && !interrupted {
        r := RollBack(sig, recipe, previous.value, r.value);
      }
    }

    /** The recovery, and what is thrown after it. */
    method RollBack(sig: Signal, recipe: Recipe, previous: ImageId, failure: Code) returns (r: Option<Code>)
      modifies this`container, this`at, this`latest, this`observed, this`reported, this`unitActive, this`unsaved, this`hitches, this`trace, sig`reason
      ensures (View(sig), r) == Recovered(env, old(View(sig)), recipe, job.revision, previous, failure)
      ensures old(trace) <= trace && (old(hitches) <= hitches)
      ensures r.Some?
    {
      hide PutBack, EventSaved;
      var e := OnEvent(sig, RESTORING);
      if e.Some? { return e; }
      var recovery := new Signal();
      ghost var before := View(sig);
      assert View(recovery) == before.(reason := None);
      e := RestorePrevious(recovery, recipe, previous);
      assert (View(sig), e) == PutBackAlone(env, before, recipe, job.revision, previous);
      if e.None? { e := OnEvent(sig, RESTORED); }
      if e.None? { return Some(failure); }
      e := OnEvent(sig, ROLLBACK_FAILED);
      r := if e.Some? then e else Some(CancellationFailed);
    }

    // -------------------------------------------------------------- clean up, recover

    /** Forget the checkpoint only after its candidate is confirmed gone. */
    method CleanupRuntimeCandidate(sig: Signal) returns (fault: Option<Code>)
      requires Safe()
      modifies this`container, this`at, this`hitches, this`trace, this`candidates, this`journal, this`exposed, sig`reason
      ensures Safe() && exposed == old(exposed) && OthersUntouched()
      ensures Churned(old(container), container, latest)
      ensures old(sig.reason).Some? ==> sig.reason == old(sig.reason)
      ensures fault.None? ==> NothingLeft()
      ensures old(hitches) <= hitches
      ensures Calm(env) && hitches == old(hitches) && old(sig.reason).None? && old(journal.Some? ==> journal.value.job == job && journal.value.image in allowedImages) ==> sig.reason.None? && fault.None?
      ensures fault.None? ==> hitches == old(hitches) && trace == old(trace) + (if old(journal).None? then [] else ["candidate removed", "checkpoint removed"])
      ensures old(journal.Some? && (journal.value.job != job || journal.value.image !in allowedImages)) ==> fault.Some? && journal == old(journal) && candidates == old(candidates)
      ensures old(trace) <= trace
    {
      var value := ReadJournal(sig);
      if value.Fault? { return Some(value.code); }
      if value.value.None? { return None; }
      var cp := value.value.value;
      if cp.job != job || cp.image !in allowedImages { return Some(Failed("invalid_state")); }
      fault := ImageRemoveCandidate(sig, CandidateRef(cp.image, job.id), cp.imageId);
      if fault.Some? { return; }
      fault := RemoveJournal(sig);
    }

    /** Startup recovery after a crash at any point of a deployment. */
    method Recover() returns (fault: Option<Code>)
      requires Safe()
      modifies this`container, this`at, this`hitches, this`trace, this`candidates, this`journal, this`exposed, this`builder
      ensures Safe() && exposed == old(exposed) && OthersUntouched()
      ensures Churned(old(container), container, latest)
      ensures fault.None? ==> NothingLeft() && builder.Absent?
      ensures old(hitches) <= hitches
      ensures Calm(env) && hitches == old(hitches) && old(journal.Some? ==> journal.value.job == job && journal.value.image in allowedImages) ==> fault.None?
      ensures fault.None? ==> hitches == old(hitches)
      ensures fault.None? ==> trace == old(trace) + (if old(builder).Stopped? then [] else ["stop"]) + ["remove"] + (if old(journal).None? then [] else ["candidate removed", "checkpoint removed"]) + ["work directory"]
    {
      var sig := new Signal();
      fault := RemoveBuilder(sig);
      if fault.Some? { return; }
      fault := CleanupRuntimeCandidate(sig);
      if fault.Some? { return; }
      fault := Elsewhere(sig, "work directory");
    }
  }

  // ---------------------------------------------------------------- a whole deployment

  /** What happened on the way, for the statement of the result: `start` is the runtime as
      the promotion found it. */
  datatype Trace = NotPromoted | Promotion(start: World, imageId: ImageId, previous: Option<ImageId>)

  /** Whether the promotion itself succeeded. */
  ghost predicate Succeeded(env: Env, t: Trace, recipe: Recipe, revision: string)
    requires t.Promotion?
  {
    Promoted(env, t.start.(observed := None), recipe, revision, t.imageId).1.None?
  }

  /** From the promotion on every answer of the world is good. */
  ghost predicate GoodAnswers(env: Env, t: Trace, recipe: Recipe, revision: string) {
    t.Promotion? ==> forall k :: k >= t.start.at ==> GoesWell(env(k), recipe, revision, t.imageId)
  }

  lemma GoodEnds(env: Env, t: Trace, recipe: Recipe, revision: string)
    requires t.Promotion? && GoodAnswers(env, t, recipe, revision) && t.start.reason.None?
    ensures Activated(env, t.start, recipe, revision, t.imageId, t.previous).1.None?
  {
    GoodAnswersPromote(env, t.start.(observed := None), recipe, revision, t.imageId);
  }

  /** Preflight, the job's own builder, and the image built in it and checked. */
  method Build(site: Site, sig: Signal) returns (r: Reply<ImageId>)
    modifies site`container, site`at, site`hitches, site`trace, site`builder, site`built, site`smoked, site`unsaved, sig`reason
    ensures Churned(old(site.container), site.container, site.latest)
    ensures old(sig.reason).Some? ==> sig.reason == old(sig.reason)
    ensures r.Answer? ==> site.built == Some(Built(r.value, site.job.revision)) && site.smoked == Some(r.value)
    ensures old(site.unsaved) <= site.unsaved
    ensures old(site.hitches) <= site.hitches
    ensures Calm(site.env) && site.hitches == old(site.hitches) && old(sig.reason).None? && old(site.builder).Absent? ==> sig.reason.None? && r.Answer?
    ensures r.Answer? ==> site.hitches == old(site.hitches) && site.builder.Running?
    ensures r.Answer? ==> site.trace == old(site.trace) + (["preflight", "start"] + BUILT)
  {
    hide EventSaved, Awaited, Reached, Calm;
    var fault := site.Elsewhere(sig, "preflight");
    if fault.Some? { return Fault(fault.value); }
    fault := site.StartBuilder(sig);
    if fault.Some? { return Fault(fault.value); }
    r := site.BuildAndCheck(sig);
  }

  /** Send the built image to the runtime, and stop its builder. */
  method Send(site: Site, sig: Signal, image: string, expected: ImageId) returns (r: Reply<ImageId>)
    requires site.NothingLeft() && site.builder.Running?
    modifies site`container, site`at, site`hitches, site`trace, site`candidates, site`journal, site`builder, site`exposed, site`unsaved, sig`reason
    ensures site.Safe() && site.exposed == old(site.exposed) && site.OthersUntouched()
    ensures Churned(old(site.container), site.container, site.latest)
    ensures old(sig.reason).Some? ==> sig.reason == old(sig.reason)
    ensures r.Answer? ==>
      && r.value == expected && site.builder.Stopped? && site.journal == Some(Checkpoint(site.job, image, r.value))
      && CandidateRef(image, site.job.id) in site.candidates && site.candidates[CandidateRef(image, site.job.id)] == r.value
    ensures old(site.unsaved) <= site.unsaved
    ensures old(site.hitches) <= site.hitches
    ensures Calm(site.env) && site.hitches == old(site.hitches) && old(sig.reason).None? && image in site.allowedImages ==> sig.reason.None? && r.Answer?
    ensures r.Answer? ==> site.hitches == old(site.hitches) && site.trace == old(site.trace) + ["transferring_image", "checkpoint", "import", "sent", "stop"]
  {
    hide EventSaved, Awaited, Reached, Calm;
    var fault := site.OnEvent(sig, "transferring_image");
    if fault.Some? { return Fault(fault.value); }
    r := site.TransferImage(sig, image, expected);
    if r.Fault? { return; }
    fault := site.StopBuilder(sig);
    if fault.Some? { return Fault(fault.value); }
  }

  /** The candidate, built, checked and on the runtime. */
  method Candidate(site: Site, sig: Signal, image: string) returns (r: Reply<ImageId>)
    requires site.NothingLeft()
    modifies site`container, site`at, site`hitches, site`trace, site`candidates, site`journal, site`builder, site`built, site`exposed, site`smoked, site`unsaved, sig`reason
    ensures site.Safe() && site.exposed == old(site.exposed) && site.OthersUntouched()
    ensures Churned(old(site.container), site.container, site.latest)
    ensures old(sig.reason).Some? ==> sig.reason == old(sig.reason)
    ensures r.Answer? ==>
      && site.built == Some(Built(r.value, site.job.revision)) && site.smoked == Some(r.value)
      && CandidateRef(image, site.job.id) in site.candidates && site.candidates[CandidateRef(image, site.job.id)] == r.value
      && site.builder.Stopped?
    ensures old(site.unsaved) <= site.unsaved
    ensures old(site.hitches) <= site.hitches
    ensures r.Answer? ==> site.journal == Some(Checkpoint(site.job, image, r.value))
    ensures Calm(site.env) && site.hitches == old(site.hitches) && old(sig.reason).None? && old(site.builder).Absent? && image in site.allowedImages ==> sig.reason.None? && r.Answer?
    ensures r.Answer? ==> site.hitches == old(site.hitches) && site.trace == old(site.trace) + STAGED
  {
    hide EventSaved, Awaited, Reached, Calm;
    var expected := Build(site, sig);
    if expected.Fault? { return Fault(expected.code); }
    r := Send(site, sig, image, expected.value);
  }

  /** Everything before the promotion: the candidate on the runtime, and what ran before
      tagged for a rollback. */
  method Stage(site: Site, sig: Signal, image: string) returns (r: Reply<(ImageId, Option<ImageId>)>)
    requires site.NothingLeft()
    modifies site, sig
    ensures site.Safe() && site.exposed == old(site.exposed) && site.OthersUntouched()
    ensures old(sig.reason).Some? ==> sig.reason == old(sig.reason)
    ensures site.latest == old(site.latest)
    ensures r.Answer? ==>
      && site.built == Some(Built(r.value.0, site.job.revision)) && site.smoked == Some(r.value.0)
      && CandidateRef(image, site.job.id) in site.candidates && site.candidates[CandidateRef(image, site.job.id)] == r.value.0
      && (r.value.1.Some? ==> site.rollback == r.value.1)
      && (r.value.1.None? ==> site.container.None?) && site.builder.Stopped?
    ensures old(site.unsaved) <= site.unsaved
    ensures old(site.hitches) <= site.hitches
    ensures r.Answer? ==> site.journal == Some(Checkpoint(site.job, image, r.value.0))
    ensures Calm(site.env) && site.hitches == old(site.hitches) && old(sig.reason).None? && old(site.builder).Absent? && image in site.allowedImages ==> sig.reason.None? && r.Answer?
    ensures r.Answer? ==> site.hitches == old(site.hitches)
    ensures r.Answer? ==> site.trace == old(site.trace) + STAGED + if r.value.1.Some? then ["rollback_saved"] else []
  {
    var id := Candidate(site, sig, image);
    if id.Fault? { return Fault(id.code); }
    var fault, previous := SaveRollback(site, sig);
    if fault.Some? { return Fault(fault.value); }
    r := Answer((id.value, previous));
  }

  method Podman(site: Site, sig: Signal, image: string, recipe: Recipe) returns (r: Reply<string>, ghost t: Trace)
    requires site.NothingLeft()
    modifies site, sig
    ensures site.Safe() && site.exposed == old(site.exposed) && site.OthersUntouched()
    ensures r.Answer? ==> t.Promotion? && site.journal == Some(Checkpoint(site.job, image, t.imageId)) && r.value == ShortRevision(site.job.revision)
    ensures t.NotPromoted? ==> site.latest == old(site.latest)
    ensures t.Promotion? ==>
      && site.built == Some(Built(t.imageId, site.job.revision)) && site.smoked == Some(t.imageId)
      && t.start.latest == old(site.latest)
      && (site.View(sig), if r.Answer? then None else Some(r.code)) == Activated(site.env, t.start, recipe, site.job.revision, t.imageId, t.previous)
    ensures t.Promotion? && t.previous.Some? ==> site.rollback == t.previous
    ensures old(site.unsaved) <= site.unsaved
    ensures old(site.hitches) <= site.hitches
    ensures Calm(site.env) && site.hitches == old(site.hitches) && old(sig.reason).None? && old(site.builder).Absent? && image in site.allowedImages && GoodAnswers(site.env, t, recipe, site.job.revision) ==> r.Answer?
    ensures r.Answer? ==> site.hitches == old(site.hitches) && old(site.trace) + STAGED <= site.trace
  {
    hide Activated, EventSaved, Awaited, Reached, Ends, Promoted, Calm, GoodAnswers, Churned;
    t := NotPromoted;
    var staged := Stage(site, sig, image);
    if staged.Fault? { return Fault(staged.code), t; }
    r, t := PromoteStaged(site, sig, recipe, staged.value.0, staged.value.1);
  }

  /** The promotion of a staged candidate. */
  method PromoteStaged(site: Site, sig: Signal, recipe: Recipe, imageId: ImageId, previous: Option<ImageId>) returns (r: Reply<string>, ghost t: Trace)
    modifies site`container, site`at, site`latest, site`observed, site`reported, site`unitActive, site`unsaved, site`hitches, site`trace, sig`reason
    ensures r.Answer? ==> t.Promotion? && r.value == ShortRevision(site.job.revision)
    ensures t.NotPromoted? ==> site.latest == old(site.latest)
    ensures t.Promotion? ==>
      && t.imageId == imageId && t.previous == previous && t.start.latest == old(site.latest)
      && (site.View(sig), if r.Answer? then None else Some(r.code)) == Activated(site.env, t.start, recipe, site.job.revision, imageId, previous)
    ensures old(site.unsaved) <= site.unsaved
    ensures Calm(site.env) && old(sig.reason).None? && GoodAnswers(site.env, t, recipe, site.job.revision) ==> r.Answer?
    ensures old(site.hitches) <= site.hitches
    ensures r.Answer? ==> site.hitches == old(site.hitches) && old(site.trace) + ["activating_image"] <= site.trace
  {
    hide Activated, EventSaved, Awaited, Reached, Ends, Promoted, Calm, GoodAnswers;
    t := NotPromoted;
    var fault := site.OnEvent(sig, "activating_image");
    if fault.Some? { return Fault(fault.value), t; }
    if sig.reason.Some? { return Fault(sig.reason.value), t; }
    t := Promotion(site.View(sig), imageId, previous);
    ActivatedUnsaved(site.env, t.start, recipe, site.job.revision, imageId, previous);
    if GoodAnswers(site.env, t, recipe, site.job.revision) { GoodEnds(site.env, t, recipe, site.job.revision); }
    fault := site.Activate(sig, recipe, imageId, previous);
    if fault.Some? { return Fault(fault.value), t; }
    r := Answer(ShortRevision(site.job.revision));
  }

  /** Tag what the container runs now, so that it can be put back. */
  method SaveRollback(site: Site, sig: Signal) returns (fault: Option<Code>, previous: Option<ImageId>)
    modifies site`container, site`at, site`observed, site`rollback, site`unsaved, site`hitches, site`trace, sig`reason
    ensures site.latest == old(site.latest) && old(site.unsaved) <= site.unsaved
    ensures fault.None? && previous.None? ==> site.container.None?
    ensures previous.Some? ==> previous == old(site.latest) || (old(site.container).Some? && previous.value == old(site.container).value.image)
    ensures old(sig.reason).Some? ==> sig.reason == old(sig.reason)
    ensures fault.None? && previous.Some? ==> site.rollback == previous
    ensures fault.None? && previous.None? ==> site.rollback == old(site.rollback)
    ensures Calm(site.env) && old(sig.reason).None? ==> sig.reason.None? && fault.None?
    ensures (old(site.hitches) <= site.hitches) && (fault.None? ==> site.hitches == old(site.hitches))
    ensures fault.None? ==> site.trace == old(site.trace) + if previous.Some? then ["rollback_saved"] else []
  {
    hide EventSaved, Awaited, Reached;
    previous := None;
    var status := site.ContainerStatus(sig);
    if status.Fault? { return Some(status.code), None; }
    fault := None;
    if status.value.Some? {
      previous := Some(status.value.value.image);
      fault := site.TagRollback(sig, previous.value);
      if fault.Some? { return; }
      fault := site.OnEvent(sig, "rollback_saved");
    }
  }

  method CleanupJobResources(site: Site, sig: Signal) returns (fault: Option<Code>)
    requires site.Safe()
    modifies site`container, site`at, site`hitches, site`trace, site`candidates, site`journal, site`exposed, site`builder, sig`reason
    ensures site.Safe() && site.exposed == old(site.exposed) && site.OthersUntouched()
    ensures Churned(old(site.container), site.container, site.latest)
    ensures fault.None? ==> site.NothingLeft() && site.builder.Absent?
    ensures old(site.hitches) <= site.hitches
    ensures Calm(site.env) && site.hitches == old(site.hitches) && old(sig.reason).None? && old(site.journal.Some? ==> site.journal.value.job == site.job && site.journal.value.image in site.allowedImages) ==> sig.reason.None? && fault.None?
    ensures fault.None? ==> site.hitches == old(site.hitches)
    ensures old(site.trace) <= site.trace
  {
    fault := None;
    if !site.builder.Absent? {
      fault := site.RemoveBuilder(sig);
      if fault.Some? { return; }
    }
    fault := site.CleanupRuntimeCandidate(sig);
  }

  /** The clean-up is left to recovery: the host's state is uncertain, or the service stops. */
  predicate Deferred(original: Option<Code>, reason: Option<Code>) {
    original == Some(CancellationFailed) || original == Some(Interrupted) || reason == Some(Interrupted)
  }

  /** Stop the builder and leave the rest to recovery. */
  method Defer(site: Site, sig: Signal, original: Option<Code>) returns (r: Option<Code>)
    modifies site`container, site`at, site`hitches, site`trace, site`builder, site`unsaved, sig`reason
    ensures Churned(old(site.container), site.container, site.latest)
    ensures old(sig.reason).Some? ==> sig.reason == old(sig.reason)
    ensures old(site.unsaved) <= site.unsaved && old(site.hitches) <= site.hitches
    ensures r == original || r == Some(CancellationFailed) || (r.Some? && CLEANUP_DEFERRED in site.unsaved)
    ensures r.None? ==> original.None? && site.hitches == old(site.hitches)
    ensures Calm(site.env) && site.hitches == old(site.hitches) ==> r == original
    ensures site.trace == old(site.trace) + (if old(site.builder).Running? then ["stop"] else []) + [CLEANUP_DEFERRED]
    ensures site.hitches == old(site.hitches) ==> !site.builder.Running? && r == original
  {
    hide EventSaved, Awaited, Calm;
    r := original;
    if !site.builder.Absent? {
      var stop := site.StopBuilder(sig);
      if stop.Some? { r := stop; }
    }
    var e := site.OnEvent(sig, CLEANUP_DEFERRED);
    if e.Some? { r := e; }
  }

  /** How a clean-up that was made has ended: put off after all, or with the work directory
      removed as well, or with its failure recorded. */
  ghost predicate CleanedUp(site: Site, before: nat, original: Option<Code>, cleanup: Option<Code>, r: Option<Code>)
    requires site.trace != []
    reads site
  {
    var last := site.trace[|site.trace| - 1];
    if cleanup == Some(CancellationFailed) then last == CLEANUP_DEFERRED && (CLEANUP_DEFERRED !in site.unsaved ==> r == cleanup)
    else
      && last in {"work directory", CLEANUP_FAILED}
      && (last == "work directory" ==> cleanup.None? && r == original)
      && (last == CLEANUP_FAILED ==> cleanup.Some? || site.hitches > before)
      && (last == CLEANUP_FAILED && CLEANUP_FAILED !in site.unsaved ==> r == if original.Some? then original else Some(Failed("cleanup_failed")))
  }

  /** Remove what the job left, now. */
  method CleanUp(site: Site, sig: Signal, original: Option<Code>) returns (r: Option<Code>, ghost cleanup: Option<Code>)
    requires site.Safe()
    modifies site`container, site`at, site`hitches, site`trace, site`candidates, site`journal, site`exposed, site`builder, site`unsaved, sig`reason
    ensures site.Safe() && site.exposed == old(site.exposed) && site.OthersUntouched()
    ensures Churned(old(site.container), site.container, site.latest)
    ensures old(sig.reason).Some? ==> sig.reason == old(sig.reason)
    ensures old(site.unsaved) <= site.unsaved && old(site.hitches) <= site.hitches && old(site.trace) <= site.trace
    ensures original.Some? ==> r.Some? && (r == original || r == Some(CancellationFailed) || !(site.unsaved !! RECOVERY_EVENTS))
    ensures r.None? ==> original.None? && site.NothingLeft() && site.builder.Absent? && site.hitches == old(site.hitches)
    ensures Calm(site.env) && site.hitches == old(site.hitches) && original.None? && old(site.journal.Some? ==> site.journal.value.job == site.job && site.journal.value.image in site.allowedImages) ==> r.None?
    ensures site.trace != [] && CleanedUp(site, old(site.hitches), original, cleanup, r)
  {
    hide EventSaved, Awaited, Calm;
    var own := new Signal();
    var cleanupError := CleanupJobResources(site, own);
    cleanup := cleanupError;
    if cleanupError == Some(CancellationFailed) {
      var e := site.OnEvent(sig, CLEANUP_DEFERRED);
      if e.Some? { return e, cleanup; }
      return cleanupError, cleanup;
    }
    var work := site.Elsewhere(sig, "work directory");
    if cleanupError.None? { cleanupError := work; }
    r := original;
    if cleanupError.Some? {
      var e := site.OnEvent(sig, CLEANUP_FAILED);
      if e.Some? { return e, cleanup; }
      if original.None? { r := Some(Failed("cleanup_failed")); }
    }
  }

  /** The `finally` part: either leave everything for recovery, or remove it now. */
  method Finish(site: Site, sig: Signal, original: Option<Code>) returns (r: Option<Code>, ghost cleanup: Option<Code>)
    requires site.Safe()
    modifies site`container, site`at, site`hitches, site`trace, site`candidates, site`journal, site`exposed, site`builder, site`unsaved, sig`reason
    ensures site.Safe() && site.exposed == old(site.exposed) && site.OthersUntouched()
    ensures Churned(old(site.container), site.container, site.latest)
    ensures old(sig.reason).Some? ==> sig.reason == old(sig.reason)
    ensures old(site.unsaved) <= site.unsaved
    ensures original.Some? ==> r.Some? && (r == original || r == Some(CancellationFailed) || !(site.unsaved !! RECOVERY_EVENTS))
    ensures r.None? ==> (site.NothingLeft() && site.builder.Absent?) || old(sig.reason) == Some(Interrupted)
    ensures r.None? ==> original.None?
    ensures old(site.hitches) <= site.hitches
    ensures Calm(site.env) && site.hitches == old(site.hitches) && original.None? && old(site.journal.Some? ==> site.journal.value.job == site.job && site.journal.value.image in site.allowedImages) ==> r.None?
    ensures old(site.trace) <= site.trace
    ensures r.None? ==> site.hitches == old(site.hitches)
    ensures Deferred(original, old(sig.reason)) ==>
      && site.candidates == old(site.candidates) && site.journal == old(site.journal)
      && site.trace == old(site.trace) + (if old(site.builder).Running? then ["stop"] else []) + [CLEANUP_DEFERRED]
      && (site.hitches == old(site.hitches) ==> !site.builder.Running?)
      && (site.hitches == old(site.hitches) ==> r == original)
    ensures !Deferred(original, old(sig.reason)) ==> site.trace != [] && CleanedUp(site, old(site.hitches), original, cleanup, r)
  {
    hide EventSaved, Awaited, Calm;
    cleanup := None;
    if Deferred(original, sig.reason) {
      r := Defer(site, sig, original);
    } else {
      r, cleanup := CleanUp(site, sig, original);
    }
  }

  /** A whole deployment job.
      `exposed` never rises: at every step, so also after a crash at any of them, a
      candidate on the runtime has its checkpoint.
      Success: the smoke-tested image of the requested revision is `latest`, was last seen
      running, and nothing else runs.  Failure after the previous image was known, without an
      interruption: the same is true of the previous image or, when the promotion itself had
      succeeded, of the new one; or the failure is reported as a failed cancellation; provided
      that the recovery's own events could be saved. */
  method Deploy(site: Site, sig: Signal, image: string, recipe: Recipe) returns (r: Reply<string>, ghost t: Trace)
    requires site.NothingLeft()
    modifies site, sig
    ensures site.Safe() && site.exposed == old(site.exposed) && site.OthersUntouched()
    ensures t.NotPromoted? ==> site.latest == old(site.latest)
    ensures r.Answer? ==>
      && r.value == ShortRevision(site.job.revision)
      && t.Promotion? && site.View(sig).Runs(t.imageId) && site.View(sig).OnLatest() && site.unitActive
      && (recipe.healthUrl ==> site.reported.Some?)
      && (recipe.healthUrl && recipe.versionField ==> site.reported == Some(ShortRevision(site.job.revision)))
      && site.built == Some(Built(t.imageId, site.job.revision)) && site.smoked == Some(t.imageId)
      && (t.previous.Some? ==> site.rollback == t.previous)
      && (sig.reason != Some(Interrupted) ==> site.NothingLeft() && site.builder.Absent?)
    ensures (r.Fault? && r.code.Failed? && t.Promotion? && t.previous.Some? && sig.reason != Some(Interrupted) && site.unsaved !! RECOVERY_EVENTS)
      ==> site.View(sig).OnLatest() && site.View(sig).Runs(if Succeeded(site.env, t, recipe, site.job.revision) then t.imageId else t.previous.value)
    ensures old(site.hitches) <= site.hitches
    ensures Calm(site.env) && site.hitches == old(site.hitches) && old(sig.reason).None? && old(site.builder).Absent? && image in site.allowedImages && GoodAnswers(site.env, t, recipe, site.job.revision) ==> r.Answer?
    ensures r.Answer? ==> site.hitches == old(site.hitches) && old(site.trace) + ["preparing_source"] + STAGED <= site.trace
    ensures old(sig.reason).Some? ==> r.Fault? && site.trace == old(site.trace)
  {
    hide EventSaved, Awaited, Promoted, Calm, GoodAnswers;
    t := NotPromoted;
    if sig.reason.Some? { return Fault(sig.reason.value), t; }
    var fault := site.OnEvent(sig, "preparing_source");
    if fault.Some? { return Fault(fault.value), t; }
    r, t := PodmanAndFinish(site, sig, image, recipe);
  }

  /** The adapter, and the `finally` part after it. */
  method PodmanAndFinish(site: Site, sig: Signal, image: string, recipe: Recipe) returns (r: Reply<string>, ghost t: Trace)
    requires site.NothingLeft()
    modifies site, sig
    ensures site.Safe() && site.exposed == old(site.exposed) && site.OthersUntouched()
    ensures t.NotPromoted? ==> site.latest == old(site.latest)
    ensures r.Answer? ==>
      && r.value == ShortRevision(site.job.revision)
      && t.Promotion? && site.View(sig).Runs(t.imageId) && site.View(sig).OnLatest() && site.unitActive
      && (recipe.healthUrl ==> site.reported.Some?)
      && (recipe.healthUrl && recipe.versionField ==> site.reported == Some(ShortRevision(site.job.revision)))
      && site.built == Some(Built(t.imageId, site.job.revision)) && site.smoked == Some(t.imageId)
      && (t.previous.Some? ==> site.rollback == t.previous)
      && (sig.reason != Some(Interrupted) ==> site.NothingLeft() && site.builder.Absent?)
    ensures (r.Fault? && r.code.Failed? && t.Promotion? && t.previous.Some? && sig.reason != Some(Interrupted) && site.unsaved !! RECOVERY_EVENTS)
      ==> site.View(sig).OnLatest() && site.View(sig).Runs(if Succeeded(site.env, t, recipe, site.job.revision) then t.imageId else t.previous.value)
    ensures old(site.hitches) <= site.hitches
    ensures Calm(site.env) && site.hitches == old(site.hitches) && old(sig.reason).None? && old(site.builder).Absent? && image in site.allowedImages && GoodAnswers(site.env, t, recipe, site.job.revision) ==> r.Answer?
    ensures r.Answer? ==> site.hitches == old(site.hitches) && old(site.trace) + STAGED <= site.trace
  {
    hide Activated, Promoted, Recovers, EventSaved, Awaited, Reached, Calm, GoodAnswers;
    r, t := Podman(site, sig, image, recipe);
    if t.Promotion? { ActivatedEnds(site.env, t.start, recipe, site.job.revision, t.imageId, t.previous); }
    var fault, _ := Finish(site, sig, if r.Fault? then Some(r.code) else None);
    if fault.Some? { r := Fault(fault.value); }
  }
}
