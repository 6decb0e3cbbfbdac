/** Promoting an image on the runtime host, and putting the previous one back
    (app/deployment/container-executor.js:491-543, 649-700), as a function of the state and
    of what the world answers at each `await`. */
module RuntimeWorld {
  import opened Options

  type ImageId = string

  datatype Code = Interrupted | CancellationFailed | Failed(code: string)

  datatype Reply<T> = Answer(value: T) | Fault(code: Code)

  datatype Container = Container(image: ImageId, running: bool)

  datatype Recipe = Recipe(healthUrl: bool, versionField: bool)

  const WAITING := "waiting_for_health"
  const RESTORING := "restoring_previous_image"
  const RESTORED := "rollback_restored"
  const ROLLBACK_FAILED := "rollback_failed"

  const WAIT_ATTEMPTS: nat := 20

  /** What happens at one `await`: whether the request fails and took effect all the same,
      where the container drifts meanwhile, whether the signal fires, and what is answered. */
  datatype Move = Move(
    fault: Option<Code>, effect: bool, drift: Option<Container>, abort: Option<Code>,
    version: string, active: bool, up: bool)

  type Env = nat -> Move

  /** `at` counts the awaits so far.  `observed` is the last container a status request
      answered with, `reported` what the last health check answered, `unsaved` the phases
      whose event could not be saved. */
  datatype World = World(
    at: nat, latest: Option<ImageId>, container: Option<Container>, reason: Option<Code>,
    observed: Option<Container>, reported: Option<string>, unitActive: bool, unsaved: set<string>)
  {
    /** The container, if there is one, runs what `latest` names. */
    predicate OnLatest() {
      container.Some? ==> latest == Some(container.value.image)
    }

    /** The image is tagged and was last seen running. */
    predicate Runs(image: ImageId) {
      latest == Some(image) && observed == Some(Container(image, true))
    }
  }

  function ShortRevision(revision: string): string {
    if |revision| <= 12 then revision else revision[..12]
  }

  /** What may become of the container while nobody asks for anything. */
  predicate Churned(before: Option<Container>, after: Option<Container>, latest: Option<ImageId>) {
    || after.None?
    || (before.Some? && after.value.image == before.value.image)
    || latest == Some(after.value.image)
  }

  // ---------------------------------------------------------------- single steps

  function Awaited(env: Env, w: World): World {
    var m := env(w.at);
    w.(at := w.at + 1,
       container := if Churned(w.container, m.drift, w.latest) then m.drift else w.container,
       reason := if w.reason.Some? then w.reason else m.abort)
  }

  /** A request is not sent any more once the signal has fired. */
  function Reached(env: Env, w: World): (World, Option<Code>, bool) {
    if w.reason.Some? then (w, w.reason, false)
    else (Awaited(env, w), env(w.at).fault, env(w.at).fault.None? || env(w.at).effect)
  }

  function Tagged(env: Env, w: World, image: ImageId): (World, Option<Code>) {
    var (v, fault, effect) := Reached(env, w);
    (if effect then v.(latest := Some(image)) else v, fault)
  }

  /** The unit starts its container from `latest`. */
  function Restarted(env: Env, w: World): (World, Option<Code>) {
    var (v, fault, effect) := Reached(env, w);
    (if effect then v.(container := if env(w.at).up && v.latest.Some? then Some(Container(v.latest.value, true)) else None) else v, fault)
  }

  function StatusRead(env: Env, w: World): (World, Reply<Option<Container>>) {
    var (v, fault, _) := Reached(env, w);
    if fault.Some? then (v, Fault(fault.value)) else (v.(observed := v.container), Answer(v.container))
  }

  function ActiveRead(env: Env, w: World): (World, Reply<bool>) {
    var (v, fault, _) := Reached(env, w);
    if fault.Some? then (v.(unitActive := false), Fault(fault.value))
    else (v.(unitActive := env(w.at).active), Answer(env(w.at).active))
  }

  function HealthRead(env: Env, w: World): (World, Reply<string>) {
    var (v, fault, _) := Reached(env, w);
    if fault.Some? then (v.(reported := None), Fault(fault.value))
    else (v.(reported := Some(env(w.at).version)), Answer(env(w.at).version))
  }

  /** Saving an event fails with codes of its own. */
  function EventSaved(env: Env, w: World, phase: string): (World, Option<Code>) {
    var fault := env(w.at).fault;
    if fault.None? then (Awaited(env, w), None)
    else (Awaited(env, w).(unsaved := w.unsaved + {phase}), if fault.value.Failed? then fault else Some(Failed(phase)))
  }

  // ---------------------------------------------------------------- waiting for the unit

  /** One health check, when there is one to make: whether it lets the attempt go on, or
      ends the wait. */
  function Probed(env: Env, w: World, recipe: Recipe, revision: string, probe: bool, failure: string): (World, bool, Option<Code>, string) {
    if !(probe && recipe.healthUrl) then (w, true, None, failure)
    else
      var (v, health) := HealthRead(env, w);
      match health
      case Answer(version) =>
        if recipe.versionField && version != ShortRevision(revision) then (v, false, None, "version_mismatch") else (v, true, None, failure)
      case Fault(_) => (v, false, v.reason, if failure == "version_mismatch" then failure else "health_failed")
  }

  /** The unit's state and its container: `Answer(true)` when the image is running. */
  function Inspected(env: Env, w: World, image: ImageId): (World, Reply<bool>, string) {
    var (v, active) := ActiveRead(env, w);
    if active.Fault? then (v, Fault(active.code), "")
    else if !active.value then (v, Answer(false), "service_not_provisioned")
    else
      var (u, status) := StatusRead(env, v);
      if status.Fault? then (u, Fault(status.code), "")
      else (u, Answer(status.value == Some(Container(image, true))), "version_mismatch")
  }

  /** `left` more attempts. */
  function Waited(env: Env, w: World, recipe: Recipe, revision: string, image: ImageId, probe: bool, left: nat, failure: string): (World, Option<Code>)
    decreases left, 0
  {
    if left == 0 then (w, Some(Failed(failure)))
    else if w.reason.Some? then (w, w.reason)
    else
      var (v, healthy, stop, failed) := Probed(env, w, recipe, revision, probe, failure);
      if stop.Some? then (v, stop)
      else if !healthy then Slept(env, v, recipe, revision, image, probe, left - 1, failed)
      else
        var (u, up, why) := Inspected(env, v, image);
        if up.Fault? then (u, Some(up.code))
        else if up.value then (u, None)
        else Slept(env, u, recipe, revision, image, probe, left - 1, why)
  }

  function Slept(env: Env, w: World, recipe: Recipe, revision: string, image: ImageId, probe: bool, left: nat, failure: string): (World, Option<Code>)
    decreases left, 1
  {
    var v := Awaited(env, w);
    if v.reason.Some? then (v, Some(Failed("ABORT_ERR"))) else Waited(env, v, recipe, revision, image, probe, left, failure)
  }

  function WaitedFor(env: Env, w: World, recipe: Recipe, revision: string, image: ImageId, probe: bool): (World, Option<Code>) {
    Waited(env, w, recipe, revision, image, probe, WAIT_ATTEMPTS, "health_failed")
  }

  // ---------------------------------------------------------------- promotion and recovery

  function Promoted(env: Env, w: World, recipe: Recipe, revision: string, image: ImageId): (World, Option<Code>) {
    var (a, f) := Tagged(env, w, image);
    if f.Some? then (a, f)
    else
      var (b, g) := Restarted(env, a);
      if g.Some? then (b, g)
      else
        var (c, h) := EventSaved(env, b, WAITING);
        if h.Some? then (c, h) else WaitedFor(env, c, recipe, revision, image, true)
  }

  function PutBack(env: Env, w: World, recipe: Recipe, revision: string, previous: ImageId): (World, Option<Code>) {
    var (a, f) := Tagged(env, w, previous);
    if f.Some? then (a, f)
    else
      var (b, g) := Restarted(env, a);
      if g.Some? then (b, g) else WaitedFor(env, b, recipe, revision, previous, false)
  }

  /** Recovery runs under a signal of its own. */
  function PutBackAlone(env: Env, w: World, recipe: Recipe, revision: string, previous: ImageId): (World, Option<Code>) {
    var (v, f) := PutBack(env, w.(reason := None), recipe, revision, previous);
    (v.(reason := w.reason), f)
  }

  /** After a failed promotion: what is thrown in its place. */
  function Recovered(env: Env, w: World, recipe: Recipe, revision: string, previous: ImageId, failure: Code): (World, Option<Code>) {
    var (a, f) := EventSaved(env, w, RESTORING);
    if f.Some? then (a, f)
    else
      var (b, g) := PutBackAlone(env, a, recipe, revision, previous);
      var (c, h) := if g.Some? then (b, g) else EventSaved(env, b, RESTORED);
      if h.None? then (c, Some(failure))
      else
        var (d, i) := EventSaved(env, c, ROLLBACK_FAILED);
        (d, if i.Some? then i else Some(CancellationFailed))
  }

  /** A recovery is attempted unless there is nothing to go back to, the host's state is
      already known to be uncertain, or the service is stopping. */
  predicate Recovers(w: World, previous: Option<ImageId>, failure: Code) {
    previous.Some? && failure.Failed? && w.reason != Some(Interrupted)
  }

  function Activated(env: Env, w: World, recipe: Recipe, revision: string, image: ImageId, previous: Option<ImageId>): (World, Option<Code>) {
    var (v, f) := Promoted(env, w.(observed := None), recipe, revision, image);
    if f.Some? && Recovers(v, previous, f.value) then Recovered(env, v, recipe, revision, previous.value, f.value) else (v, f)
  }

  // ---------------------------------------------------------------- what the steps keep

  lemma ReachedKeeps(env: Env, w: World)
    ensures var v := Reached(env, w).0;
            && v.latest == w.latest && v.unsaved == w.unsaved && v.observed == w.observed && v.reported == w.reported && v.unitActive == w.unitActive
            && (w.OnLatest() ==> v.OnLatest()) && (w.reason.Some? ==> v == w)
  {
  }

  /** Either the wait ends with the image just seen running, or not with that; and whatever
      it sees stands on `latest`. */
  ghost predicate WaitOk(w: World, v: World, f: Option<Code>, recipe: Recipe, revision: string, image: ImageId, probe: bool) {
    && v.latest == w.latest && v.unsaved == w.unsaved && v.OnLatest()
    && (w.reason.Some? ==> v == w && f.Some?)
    && (f.None? ==> v.container == v.observed == Some(Container(image, true)) && v.unitActive)
    && (f.None? && probe && recipe.healthUrl ==> v.reported.Some?)
    && (f.None? && probe && recipe.healthUrl && recipe.versionField ==> v.reported == Some(ShortRevision(revision)))
    && (f.Some? ==> v.observed == w.observed || Unfit(v, image))
  }

  /** The last status seen was not the image running, and was of what `latest` names. */
  predicate Unfit(w: World, image: ImageId) {
    w.observed.Some? ==> w.latest == Some(w.observed.value.image) && w.observed.value != Container(image, true)
  }

  lemma ProbedOk(env: Env, w: World, recipe: Recipe, revision: string, probe: bool, failure: string)
    requires w.OnLatest() && w.reason.None?
    ensures var (v, healthy, stop, _) := Probed(env, w, recipe, revision, probe, failure);
            && v.latest == w.latest && v.unsaved == w.unsaved && v.observed == w.observed && v.OnLatest()
            && (healthy && probe && recipe.healthUrl ==> v.reported.Some?)
            && (healthy && probe && recipe.healthUrl && recipe.versionField ==> v.reported == Some(ShortRevision(revision)))
  {
    ReachedKeeps(env, w);
  }

  lemma InspectedOk(env: Env, w: World, image: ImageId)
    requires w.OnLatest()
    ensures var (v, up, _) := Inspected(env, w, image);
            && v.latest == w.latest && v.unsaved == w.unsaved && v.reported == w.reported && v.OnLatest()
            && (up == Answer(true) ==> v.container == v.observed == Some(Container(image, true)) && v.unitActive)
            && (up != Answer(true) ==> v.observed == w.observed || Unfit(v, image))
  {
    hide Reached;
    ReachedKeeps(env, w);
    var (v, active) := ActiveRead(env, w);
    ReachedKeeps(env, v);
  }

  lemma {:induction false} WaitedOk(env: Env, w: World, recipe: Recipe, revision: string, image: ImageId, probe: bool, left: nat, failure: string)
    requires w.OnLatest()
    ensures var (v, f) := Waited(env, w, recipe, revision, image, probe, left, failure);
            WaitOk(w, v, f, recipe, revision, image, probe)
    decreases left
  {
    hide Probed, Inspected, Waited;
    WaitedStep(env, w, recipe, revision, image, probe, left, failure);
    if left > 0 && w.reason.None? {
      ProbedOk(env, w, recipe, revision, probe, failure);
      var (v, healthy, stop, failed) := Probed(env, w, recipe, revision, probe, failure);
      if stop.None? && !healthy {
        WaitedOk(env, Awaited(env, v), recipe, revision, image, probe, left - 1, failed);
      } else if stop.None? {
        InspectedOk(env, v, image);
        var (u, up, why) := Inspected(env, v, image);
        if up == Answer(false) {
          WaitedOk(env, Awaited(env, u), recipe, revision, image, probe, left - 1, why);
        }
      }
    }
  }

  /** The definition, to be used once. */
  lemma WaitedStep(env: Env, w: World, recipe: Recipe, revision: string, image: ImageId, probe: bool, left: nat, failure: string)
    ensures Waited(env, w, recipe, revision, image, probe, left, failure) ==
            if left == 0 then (w, Some(Failed(failure)))
            else if w.reason.Some? then (w, w.reason)
            else
              var (v, healthy, stop, failed) := Probed(env, w, recipe, revision, probe, failure);
              if stop.Some? then (v, stop)
              else if !healthy then Slept(env, v, recipe, revision, image, probe, left - 1, failed)
              else
                var (u, up, why) := Inspected(env, v, image);
                if up.Fault? then (u, Some(up.code))
                else if up.value then (u, None)
                else Slept(env, u, recipe, revision, image, probe, left - 1, why)
  {
    hide Probed, Inspected;
  }

  /** No image has been seen running. */
  predicate NoneSeen(w: World) {
    w.observed.Some? ==> !w.observed.value.running
  }

  /** Tag and restart: only a restart that was confirmed lets the wait begin. */
  lemma RestartedOk(env: Env, w: World, image: ImageId)
    ensures var (a, f) := Tagged(env, w, image);
            && a.observed == w.observed && a.unsaved == w.unsaved && a.latest in {w.latest, Some(image)}
            && (f.None? ==> a.latest == Some(image))
            && var (b, g) := Restarted(env, a);
               && b.observed == a.observed && b.unsaved == a.unsaved && b.latest == a.latest
               && (g.None? ==> b.OnLatest())
  {
    hide Reached;
    ReachedKeeps(env, w);
    ReachedKeeps(env, Tagged(env, w, image).0);
    FaultOrEffect(env, w);
    FaultOrEffect(env, Tagged(env, w, image).0);
  }

  lemma FaultOrEffect(env: Env, w: World)
    ensures Reached(env, w).1.None? ==> Reached(env, w).2
  {
  }

  lemma EventKeeps(env: Env, w: World, phase: string)
    ensures var (v, f) := EventSaved(env, w, phase);
            && v.latest == w.latest && v.observed == w.observed && v.reported == w.reported && v.unitActive == w.unitActive
            && v.unsaved == w.unsaved + (if f.Some? then {phase} else {})
            && (w.OnLatest() ==> v.OnLatest()) && (w.reason.Some? ==> v.reason == w.reason)
            && (f.Some? ==> f.value.Failed?)
            && (f.None? <==> env(w.at).fault.None?)
  {
  }

  lemma PromotedOk(env: Env, w: World, recipe: Recipe, revision: string, image: ImageId)
    requires w.observed.None?
    ensures var (v, f) := Promoted(env, w, recipe, revision, image);
            && v.latest in {w.latest, Some(image)} && w.unsaved <= v.unsaved <= w.unsaved + {WAITING}
            && (f.None? ==> v.Runs(image) && v.OnLatest() && v.unitActive)
            && (f.None? && recipe.healthUrl ==> v.reported.Some?)
            && (f.None? && recipe.healthUrl && recipe.versionField ==> v.reported == Some(ShortRevision(revision)))
            && (f.Some? ==> NoneSeen(v))
  {
    hide Tagged, Restarted, EventSaved, Waited;
    RestartedOk(env, w, image);
    var (a, _) := Tagged(env, w, image);
    var (b, g) := Restarted(env, a);
    EventKeeps(env, b, WAITING);
    var (c, h) := EventSaved(env, b, WAITING);
    if g.None? { WaitedOk(env, c, recipe, revision, image, true, WAIT_ATTEMPTS, "health_failed"); }
  }

  lemma PutBackOk(env: Env, w: World, recipe: Recipe, revision: string, previous: ImageId)
    requires NoneSeen(w)
    ensures var (v, f) := PutBackAlone(env, w, recipe, revision, previous);
            && v.latest in {w.latest, Some(previous)} && v.unsaved == w.unsaved && v.reason == w.reason
            && (f.None? ==> v.Runs(previous) && v.OnLatest())
            && (f.Some? ==> NoneSeen(v))
  {
    hide Tagged, Restarted, Waited;
    var w0 := w.(reason := None);
    RestartedOk(env, w0, previous);
    var (a, _) := Tagged(env, w0, previous);
    var (b, g) := Restarted(env, a);
    if g.None? { WaitedOk(env, b, recipe, revision, previous, false, WAIT_ATTEMPTS, "health_failed"); }
  }

  // ---------------------------------------------------------------- when the wait ends well

  /** What stands as the container before the await numbered `b`, starting with `c` at `at`. */
  function Standing(env: Env, at: nat, c: Option<Container>, latest: Option<ImageId>, b: nat): Option<Container>
    decreases b - at
  {
    if b <= at then c
    else Standing(env, at + 1, if Churned(c, env(at).drift, latest) then env(at).drift else c, latest, b)
  }

  /** How many awaits an attempt spends on its health check. */
  function Checks(recipe: Recipe, probe: bool): nat {
    if probe && recipe.healthUrl then 1 else 0
  }

  /** The health check that is await `b`, if there is one, is answered with the wanted version. */
  predicate HealthyAt(env: Env, recipe: Recipe, revision: string, probe: bool, b: nat) {
    Checks(recipe, probe) == 1 ==>
      env(b).fault.None? && (recipe.versionField ==> env(b).version == if |revision| <= 12 then revision else revision[..12])
  }

  /** Where the attempt after the one that begins with await `b` begins. */
  function NextAttempt(env: Env, recipe: Recipe, revision: string, probe: bool, b: nat): nat {
    var unit := b + Checks(recipe, probe);
    if !HealthyAt(env, recipe, revision, probe, b) then b + 2
    else if !env(unit).active then unit + 2
    else unit + 3
  }

  /** Where attempt `n` begins, counted from 0 at the one that begins with await `b`. */
  function AttemptAt(env: Env, recipe: Recipe, revision: string, probe: bool, b: nat, n: nat): nat
    decreases n
  {
    if n == 0 then b else AttemptAt(env, recipe, revision, probe, NextAttempt(env, recipe, revision, probe, b), n - 1)
  }

  /** No request for the unit or the container that the attempt makes fails. */
  predicate Unfailing(env: Env, recipe: Recipe, revision: string, probe: bool, b: nat) {
    var unit := b + Checks(recipe, probe);
    HealthyAt(env, recipe, revision, probe, b) ==> env(unit).fault.None? && (env(unit).active ==> env(unit + 1).fault.None?)
  }

  /** Attempt `n` is reached and finds the image running: nothing has aborted the wait and no
      request has failed it, the version is the wanted one, the unit is active, and the
      container that is read is the image, running. */
  predicate FoundAt(env: Env, at: nat, c: Option<Container>, latest: Option<ImageId>, recipe: Recipe, revision: string, image: ImageId, probe: bool, n: nat) {
    var b := AttemptAt(env, recipe, revision, probe, at, n);
    var unit := b + Checks(recipe, probe);
    && (forall k :: at <= k <= unit ==> env(k).abort.None?)
    && (forall m :: 0 <= m <= n ==> Unfailing(env, recipe, revision, probe, AttemptAt(env, recipe, revision, probe, at, m)))
    && HealthyAt(env, recipe, revision, probe, b) && env(unit).active
    && Standing(env, at, c, latest, unit + 2) == Some(Container(image, true))
  }

  /** Some attempt among the first `left` is reached and finds the image running. */
  ghost predicate FoundWithin(env: Env, at: nat, c: Option<Container>, latest: Option<ImageId>, recipe: Recipe, revision: string, image: ImageId, probe: bool, left: nat) {
    exists n :: 0 <= n < left && FoundAt(env, at, c, latest, recipe, revision, image, probe, n)
  }

  lemma {:induction false} AttemptsFollow(env: Env, recipe: Recipe, revision: string, probe: bool, b: nat, n: nat)
    ensures AttemptAt(env, recipe, revision, probe, b, n) >= b
    ensures n > 0 ==> AttemptAt(env, recipe, revision, probe, b, n) >= NextAttempt(env, recipe, revision, probe, b) >= b + 2
    decreases n
  {
    if n > 0 { AttemptsFollow(env, recipe, revision, probe, NextAttempt(env, recipe, revision, probe, b), n - 1); }
  }

  /** The container at two points of a wait. */
  lemma {:induction false} StandingFurther(env: Env, at: nat, c: Option<Container>, latest: Option<ImageId>, mid: nat, b: nat)
    requires at <= mid <= b
    ensures Standing(env, at, c, latest, b) == Standing(env, mid, Standing(env, at, c, latest, mid), latest, b)
    decreases mid - at
  {
    if at < mid {
      StandingFurther(env, at + 1, if Churned(c, env(at).drift, latest) then env(at).drift else c, latest, mid, b);
    }
  }

  /** Attempt `n` after the first one is attempt `n - 1` from where the second one begins. */
  lemma FoundLater(env: Env, at: nat, c: Option<Container>, latest: Option<ImageId>, recipe: Recipe, revision: string, image: ImageId, probe: bool, n: nat)
    requires n > 0
    ensures var next := NextAttempt(env, recipe, revision, probe, at);
            FoundAt(env, at, c, latest, recipe, revision, image, probe, n) <==>
              && (forall k :: at <= k < next ==> env(k).abort.None?) && Unfailing(env, recipe, revision, probe, at)
              && FoundAt(env, next, Standing(env, at, c, latest, next), latest, recipe, revision, image, probe, n - 1)
  {
    hide HealthyAt, Unfailing, Churned, NextAttempt;
    var next := NextAttempt(env, recipe, revision, probe, at);
    AttemptsFollow(env, recipe, revision, probe, at, n);
    AttemptsFollow(env, recipe, revision, probe, next, n - 1);
    var unit := AttemptAt(env, recipe, revision, probe, at, n) + Checks(recipe, probe);
    StandingFurther(env, at, c, latest, next, unit + 2);
    assert AttemptAt(env, recipe, revision, probe, at, 0) == at;
    if Unfailing(env, recipe, revision, probe, at) &&
       forall m :: 0 <= m <= n - 1 ==> Unfailing(env, recipe, revision, probe, AttemptAt(env, recipe, revision, probe, next, m)) {
      forall m | 0 <= m <= n ensures Unfailing(env, recipe, revision, probe, AttemptAt(env, recipe, revision, probe, at, m)) {
        if m > 0 { assert AttemptAt(env, recipe, revision, probe, at, m) == AttemptAt(env, recipe, revision, probe, next, m - 1); }
      }
    }
    if forall m :: 0 <= m <= n ==> Unfailing(env, recipe, revision, probe, AttemptAt(env, recipe, revision, probe, at, m)) {
      forall m | 0 <= m <= n - 1 ensures Unfailing(env, recipe, revision, probe, AttemptAt(env, recipe, revision, probe, next, m)) {
        assert AttemptAt(env, recipe, revision, probe, at, m + 1) == AttemptAt(env, recipe, revision, probe, next, m);
      }
    }
  }

  lemma OneAwait(env: Env, w: World)
    ensures var v := Awaited(env, w);
            v.at == w.at + 1 && v.latest == w.latest && v.container == Standing(env, w.at, w.container, w.latest, w.at + 1)
  {
    assert Standing(env, w.at + 1, Awaited(env, w).container, w.latest, w.at + 1) == Awaited(env, w).container;
  }

  lemma ProbeAnswers(env: Env, w: World, recipe: Recipe, revision: string, probe: bool, failure: string)
    requires w.reason.None?
    ensures var (v, healthy, stop, why) := Probed(env, w, recipe, revision, probe, failure);
            && v.at == w.at + Checks(recipe, probe) && v.latest == w.latest
            && v.container == Standing(env, w.at, w.container, w.latest, v.at)
            && v.reason == (if v.at == w.at then None else env(w.at).abort)
            && (healthy <==> HealthyAt(env, recipe, revision, probe, w.at))
            && (stop.Some? ==> !healthy && v.reason.Some?)
            && (!healthy ==> why == Finding(env, recipe, revision, probe, w.at, failure))
  {
    OneAwait(env, w);
  }

  lemma InspectionAnswers(env: Env, w: World, image: ImageId)
    ensures var (v, up, why) := Inspected(env, w, image);
            var unit, status := env(w.at), env(w.at + 1);
            && (up.Fault? <==> w.reason.Some? || unit.fault.Some? || (unit.active && (unit.abort.Some? || status.fault.Some?)))
            && (up.Answer? ==>
                  && v.at == w.at + (if unit.active then 2 else 1) && v.latest == w.latest
                  && v.container == Standing(env, w.at, w.container, w.latest, v.at)
                  && v.reason == (if unit.active then status.abort else unit.abort)
                  && why == (if unit.active then "version_mismatch" else "service_not_provisioned")
                  && (up.value <==> unit.active && v.container == Some(Container(image, true))))
  {
    OneAwait(env, w);
    var (a, active) := ActiveRead(env, w);
    if active == Answer(true) {
      OneAwait(env, a);
      StandingFurther(env, w.at, w.container, w.latest, w.at + 1, w.at + 2);
    }
  }

  /** After an attempt that found nothing: the pause, and the next attempt. */
  lemma PauseFollows(env: Env, w: World, v: World, recipe: Recipe, revision: string, image: ImageId, probe: bool, left: nat, failure: string)
    requires v.at >= w.at && v.latest == w.latest && v.container == Standing(env, w.at, w.container, w.latest, v.at)
    ensures var r, u := Slept(env, v, recipe, revision, image, probe, left, failure), Awaited(env, v);
            if v.reason.Some? || env(v.at).abort.Some? then r.1.Some?
            else
              && r == Waited(env, u, recipe, revision, image, probe, left, failure) && u.reason.None?
              && u.at == v.at + 1 && u.latest == w.latest && u.container == Standing(env, w.at, w.container, w.latest, v.at + 1)
  {
    hide Waited;
    OneAwait(env, v);
    StandingFurther(env, w.at, w.container, w.latest, v.at, v.at + 1);
  }

  lemma FoundFirst(env: Env, at: nat, c: Option<Container>, latest: Option<ImageId>, recipe: Recipe, revision: string, image: ImageId, probe: bool)
    ensures var unit := at + Checks(recipe, probe);
            FoundAt(env, at, c, latest, recipe, revision, image, probe, 0) <==>
              && env(at).abort.None? && env(unit).abort.None? && Unfailing(env, recipe, revision, probe, at)
              && HealthyAt(env, recipe, revision, probe, at) && env(unit).active
              && Standing(env, at, c, latest, unit + 2) == Some(Container(image, true))
  {
    hide HealthyAt, Unfailing, Standing;
    assert AttemptAt(env, recipe, revision, probe, at, 0) == at;
  }

  /** Whether a signal fires before the next attempt. */
  lemma FewAwaits(env: Env, recipe: Recipe, revision: string, probe: bool, at: nat)
    ensures var unit, next := at + Checks(recipe, probe), NextAttempt(env, recipe, revision, probe, at);
            (forall k :: at <= k < next ==> env(k).abort.None?) <==>
              && env(at).abort.None? && env(at + 1).abort.None?
              && (HealthyAt(env, recipe, revision, probe, at) ==> env(unit).abort.None? && env(unit + 1).abort.None? && (env(unit).active ==> env(unit + 2).abort.None?))
  {
    hide HealthyAt;
    var next := NextAttempt(env, recipe, revision, probe, at);
    assert at + 2 <= next <= at + 4;
  }

  /** The next attempt after this one, when there is one. */
  ghost predicate GoesOn(env: Env, w: World, recipe: Recipe, revision: string, image: ImageId, probe: bool, left: nat, r: (World, Option<Code>), v: World, why: string) {
    var next := NextAttempt(env, recipe, revision, probe, w.at);
    && v.at == next && v.container == Standing(env, w.at, w.container, w.latest, next) && v.latest == w.latest && v.reason.None?
    && r == Waited(env, v, recipe, revision, image, probe, left, why)
  }

  /** What an attempt that finds nothing leaves as the code to fail with. */
  function Finding(env: Env, recipe: Recipe, revision: string, probe: bool, b: nat, before: string): string {
    if !HealthyAt(env, recipe, revision, probe, b) then
      if env(b).fault.None? || before == "version_mismatch" then "version_mismatch" else "health_failed"
    else if !env(b + Checks(recipe, probe)).active then "service_not_provisioned"
    else "version_mismatch"
  }

  /** The code after `n` attempts that found nothing. */
  function CodeAfter(env: Env, recipe: Recipe, revision: string, probe: bool, b: nat, n: nat, before: string): string
    decreases n
  {
    if n == 0 then before
    else CodeAfter(env, recipe, revision, probe, NextAttempt(env, recipe, revision, probe, b), n - 1, Finding(env, recipe, revision, probe, b, before))
  }

  /** How one attempt ends: with the image found, in the next attempt, or in failure. */
  lemma AttemptEnds(env: Env, w: World, recipe: Recipe, revision: string, image: ImageId, probe: bool, left: nat, failure: string)
    returns (v: World, why: string)
    requires left > 0 && w.reason.None?
    ensures var next := NextAttempt(env, recipe, revision, probe, w.at);
            var r := Waited(env, w, recipe, revision, image, probe, left, failure);
            if FoundAt(env, w.at, w.container, w.latest, recipe, revision, image, probe, 0) then r.1.None?
            else if (forall k :: w.at <= k < next ==> env(k).abort.None?) && Unfailing(env, recipe, revision, probe, w.at)
            then GoesOn(env, w, recipe, revision, image, probe, left - 1, r, v, why) && why == Finding(env, recipe, revision, probe, w.at, failure)
            else r.1.Some?
  {
    hide Waited, Slept, Probed, Inspected, Standing, FoundAt;
    WaitedStep(env, w, recipe, revision, image, probe, left, failure);
    ProbeAnswers(env, w, recipe, revision, probe, failure);
    FoundFirst(env, w.at, w.container, w.latest, recipe, revision, image, probe);
    FewAwaits(env, recipe, revision, probe, w.at);
    var (a, healthy, stop, failed) := Probed(env, w, recipe, revision, probe, failure);
    v, why := Awaited(env, a), failed;
    PauseFollows(env, w, a, recipe, revision, image, probe, left - 1, failed);
    if healthy {
      InspectionAnswers(env, a, image);
      var (b, up, reason) := Inspected(env, a, image);
      if up.Answer? {
        StandingFurther(env, w.at, w.container, w.latest, a.at, b.at);
        v, why := Awaited(env, b), reason;
        PauseFollows(env, w, b, recipe, revision, image, probe, left - 1, reason);
      }
    }
  }

  /** The attempts but the first, from where the second begins. */
  lemma FoundAmongLater(env: Env, at: nat, c: Option<Container>, latest: Option<ImageId>, recipe: Recipe, revision: string, image: ImageId, probe: bool, left: nat)
    requires left > 0
    ensures var next := NextAttempt(env, recipe, revision, probe, at);
            FoundWithin(env, at, c, latest, recipe, revision, image, probe, left) <==>
              || FoundAt(env, at, c, latest, recipe, revision, image, probe, 0)
              || ((forall k :: at <= k < next ==> env(k).abort.None?) && Unfailing(env, recipe, revision, probe, at) &&
                  FoundWithin(env, next, Standing(env, at, c, latest, next), latest, recipe, revision, image, probe, left - 1))
  {
    hide FoundAt, Unfailing, NextAttempt, Standing;
    var next := NextAttempt(env, recipe, revision, probe, at);
    var d := Standing(env, at, c, latest, next);
    if n: nat :| 0 <= n < left && FoundAt(env, at, c, latest, recipe, revision, image, probe, n) {
      if n > 0 {
        FoundLater(env, at, c, latest, recipe, revision, image, probe, n);
        assert FoundAt(env, next, d, latest, recipe, revision, image, probe, n - 1);
      }
    }
    if (forall k :: at <= k < next ==> env(k).abort.None?) && Unfailing(env, recipe, revision, probe, at) {
      if n: nat :| 0 <= n < left - 1 && FoundAt(env, next, d, latest, recipe, revision, image, probe, n) {
        FoundLater(env, at, c, latest, recipe, revision, image, probe, n + 1);
        assert FoundAt(env, at, c, latest, recipe, revision, image, probe, n + 1);
      }
    }
  }

  lemma NoneWithin(env: Env, at: nat, c: Option<Container>, latest: Option<ImageId>, recipe: Recipe, revision: string, image: ImageId, probe: bool)
    ensures !FoundWithin(env, at, c, latest, recipe, revision, image, probe, 0)
  {
  }

  /** For all answers of the world: the wait ends well exactly when some attempt among the
      first `left` is reached and finds the image running. */
  lemma {:induction false} WaitedIff(env: Env, w: World, recipe: Recipe, revision: string, image: ImageId, probe: bool, left: nat, failure: string)
    ensures Waited(env, w, recipe, revision, image, probe, left, failure).1.None? <==>
            w.reason.None? && FoundWithin(env, w.at, w.container, w.latest, recipe, revision, image, probe, left)
    decreases left
  {
    hide Waited, FoundAt, FoundWithin, Unfailing, NextAttempt, Standing;
    WaitedStep(env, w, recipe, revision, image, probe, left, failure);
    NoneWithin(env, w.at, w.container, w.latest, recipe, revision, image, probe);
    if left > 0 && w.reason.None? {
      var v, why := AttemptEnds(env, w, recipe, revision, image, probe, left, failure);
      WaitedIff(env, v, recipe, revision, image, probe, left - 1, why);
      var next := NextAttempt(env, recipe, revision, probe, w.at);
      var d := Standing(env, w.at, w.container, w.latest, next);
      var r := Waited(env, w, recipe, revision, image, probe, left, failure);
      if GoesOn(env, w, recipe, revision, image, probe, left - 1, r, v, why) {
        assert v.at == next && v.container == d && v.latest == w.latest;
        assert r.1.None? <==> FoundWithin(env, next, d, w.latest, recipe, revision, image, probe, left - 1);
      }
      FoundAmongLater(env, w.at, w.container, w.latest, recipe, revision, image, probe, left);
    }
  }

  /** A wait that is neither aborted nor failed by a request, and finds nothing, fails with
      the code its attempts have come to. */
  lemma {:induction false} WaitedCode(env: Env, w: World, recipe: Recipe, revision: string, image: ImageId, probe: bool, left: nat, failure: string)
    requires w.reason.None? && !FoundWithin(env, w.at, w.container, w.latest, recipe, revision, image, probe, left)
    requires forall k :: k >= w.at ==> env(k).abort.None?
    requires forall k :: k >= w.at ==> Unfailing(env, recipe, revision, probe, k)
    ensures Waited(env, w, recipe, revision, image, probe, left, failure).1 == Some(Failed(CodeAfter(env, recipe, revision, probe, w.at, left, failure)))
    decreases left
  {
    hide Waited, FoundAt, FoundWithin, Unfailing, NextAttempt, Standing, Finding;
    WaitedStep(env, w, recipe, revision, image, probe, left, failure);
    if left > 0 {
      var v, why := AttemptEnds(env, w, recipe, revision, image, probe, left, failure);
      FoundAmongLater(env, w.at, w.container, w.latest, recipe, revision, image, probe, left);
      AttemptsFollow(env, recipe, revision, probe, w.at, 1);
      WaitedCode(env, v, recipe, revision, image, probe, left - 1, why);
    }
  }

  /** The wait as it is made: twenty attempts. */
  lemma WaitSucceedsIff(env: Env, w: World, recipe: Recipe, revision: string, image: ImageId, probe: bool)
    ensures WaitedFor(env, w, recipe, revision, image, probe).1.None? <==>
            w.reason.None? && FoundWithin(env, w.at, w.container, w.latest, recipe, revision, image, probe, 20)
  {
    hide Waited, FoundAt;
    WaitedIff(env, w, recipe, revision, image, probe, WAIT_ATTEMPTS, "health_failed");
  }

  /** What the unit starts from `latest`, when it comes up. */
  function Started(up: bool, image: ImageId): Option<Container> {
    if up then Some(Container(image, true)) else None
  }

  /** The request is done, and nobody interrupts meanwhile. */
  predicate Done(m: Move) {
    m.fault.None? && m.abort.None?
  }

  /** For all answers of the world: a promotion succeeds exactly when nothing has aborted it,
      the tag, the restart and the event are done, and then some attempt among the first
      twenty finds the image running. */
  lemma PromotionSucceedsIff(env: Env, w: World, recipe: Recipe, revision: string, image: ImageId)
    ensures Promoted(env, w, recipe, revision, image).1.None? <==>
            && w.reason.None? && Done(env(w.at)) && Done(env(w.at + 1)) && Done(env(w.at + 2))
            && FoundWithin(env, w.at + 3, Standing(env, w.at + 2, Started(env(w.at + 1).up, image), Some(image), w.at + 3), Some(image),
                           recipe, revision, image, true, 20)
  {
    hide WaitedFor, FoundWithin, Churned, Standing;
    var (a, f) := Tagged(env, w, image);
    var (b, g) := Restarted(env, a);
    var (c, h) := EventSaved(env, b, WAITING);
    StartedOnce(env, w.at + 2, Started(env(w.at + 1).up, image), Some(image));
    if f.None? && g.None? && h.None? { WaitSucceedsIff(env, c, recipe, revision, image, true); }
  }

  /** The same for putting the previous image back, which checks no version. */
  lemma PutBackSucceedsIff(env: Env, w: World, recipe: Recipe, revision: string, previous: ImageId)
    ensures PutBackAlone(env, w, recipe, revision, previous).1.None? <==>
            && Done(env(w.at)) && Done(env(w.at + 1))
            && FoundWithin(env, w.at + 2, Started(env(w.at + 1).up, previous), Some(previous), recipe, revision, previous, false, 20)
  {
    hide WaitedFor, FoundWithin, Churned;
    var (a, f) := Tagged(env, w.(reason := None), previous);
    var (b, g) := Restarted(env, a);
    if f.None? && g.None? { WaitSucceedsIff(env, b, recipe, revision, previous, false); }
  }

  /** No request fails and nothing interrupts, at any time. */
  ghost predicate Calm(env: Env) {
    forall n :: Done(env(n))
  }

  lemma StartedOnce(env: Env, at: nat, c: Option<Container>, latest: Option<ImageId>)
    ensures Standing(env, at, c, latest, at + 1) == if Churned(c, env(at).drift, latest) then env(at).drift else c
  {
    var d := if Churned(c, env(at).drift, latest) then env(at).drift else c;
    assert Standing(env, at + 1, d, latest, at + 1) == d;
  }

  /** An answer with which everything goes on: the request is done, nobody interrupts, the
      version is the wanted one, the unit is active and keeps its container. */
  predicate GoesWell(m: Move, recipe: Recipe, revision: string, image: ImageId) {
    && m.fault.None? && m.abort.None? && m.active && m.up && m.drift == Some(Container(image, true))
    && (recipe.versionField ==> m.version == if |revision| <= 12 then revision else revision[..12])
  }

  /** When every answer is good the promotion succeeds. */
  lemma GoodAnswersPromote(env: Env, w: World, recipe: Recipe, revision: string, image: ImageId)
    requires w.reason.None? && forall k :: k >= w.at ==> GoesWell(env(k), recipe, revision, image)
    ensures Promoted(env, w, recipe, revision, image).1.None?
  {
    hide FoundAt, Promoted, Standing;
    PromotionSucceedsIff(env, w, recipe, revision, image);
    var c := Standing(env, w.at + 2, Started(env(w.at + 1).up, image), Some(image), w.at + 3);
    GoodStanding(env, w.at + 2, Some(image), recipe, revision, image, w.at + 3);
    GoodStanding(env, w.at + 3, Some(image), recipe, revision, image, w.at + 3 + Checks(recipe, true) + 2);
    FoundFirst(env, w.at + 3, c, Some(image), recipe, revision, image, true);
    assert FoundWithin(env, w.at + 3, c, Some(image), recipe, revision, image, true, 20);
  }

  lemma {:induction false} GoodStanding(env: Env, at: nat, latest: Option<ImageId>, recipe: Recipe, revision: string, image: ImageId, b: nat)
    requires forall k :: k >= at ==> GoesWell(env(k), recipe, revision, image)
    ensures Standing(env, at, Some(Container(image, true)), latest, b) == Some(Container(image, true))
    decreases b - at
  {
    if b > at { GoodStanding(env, at + 1, latest, recipe, revision, image, b); }
  }

  // ---------------------------------------------------------------- the rollback promise

  /** What a failed promotion promises: the previous image is tagged and was seen running,
      or the failure to put it back is reported. */
  predicate Promise(final: (World, Option<Code>), previous: ImageId) {
    final.0.Runs(previous) || final.1 == Some(CancellationFailed)
  }

  /** The state in which recovery saves its first event, and the one in which it has put the
      previous image back or failed to. */
  function AtRestoring(env: Env, w: World, recipe: Recipe, revision: string, image: ImageId): World {
    Promoted(env, w.(observed := None), recipe, revision, image).0
  }

  function AfterPutBack(env: Env, w: World, recipe: Recipe, revision: string, image: ImageId, previous: ImageId): (World, Option<Code>) {
    PutBackAlone(env, EventSaved(env, AtRestoring(env, w, recipe, revision, image), RESTORING).0, recipe, revision, previous)
  }

  /** For every state and all answers of the world: a failed promotion that recovery is
      attempted for ends with the previous image tagged and seen running, or with a failed
      cancellation, exactly when the event before the recovery could be saved and either the
      recovery put the previous image back (tag, restart and wait all succeeded) or the event
      after it could be saved. */
  lemma RolledBackOrReportedIff(env: Env, w: World, recipe: Recipe, revision: string, image: ImageId, previous: ImageId)
    requires var (v, f) := Promoted(env, w.(observed := None), recipe, revision, image);
             f.Some? && Recovers(v, Some(previous), f.value)
    ensures var (b, g) := AfterPutBack(env, w, recipe, revision, image, previous);
            Promise(Activated(env, w, recipe, revision, image, Some(previous)), previous)
            <==>
            env(AtRestoring(env, w, recipe, revision, image).at).fault.None? && (g.None? || env(b.at).fault.None?)
  {
    hide Promoted, PutBackAlone, EventSaved;
    PromotedOk(env, w.(observed := None), recipe, revision, image);
    var v := AtRestoring(env, w, recipe, revision, image);
    var (a, f) := EventSaved(env, v, RESTORING);
    EventKeeps(env, v, RESTORING);
    PutBackOk(env, a, recipe, revision, previous);
    var (b, g) := PutBackAlone(env, a, recipe, revision, previous);
    EventKeeps(env, b, RESTORED);
    EventKeeps(env, b, ROLLBACK_FAILED);
    EventKeeps(env, EventSaved(env, b, RESTORED).0, ROLLBACK_FAILED);
    var failure := Promoted(env, w.(observed := None), recipe, revision, image).1.value;
    var final := Recovered(env, v, recipe, revision, previous, failure);
    assert Activated(env, w, recipe, revision, image, Some(previous)) == final;
    if f.Some? {
      assert final == (a, f) && NoneSeen(a);
    } else if g.None? {
      assert final.0.Runs(previous);
    } else {
      var (d, i) := EventSaved(env, b, ROLLBACK_FAILED);
      assert final == (d, if i.Some? then i else Some(CancellationFailed)) && NoneSeen(d);
    }
  }

  /** The error of an event that was not saved. */
  function SaveError(c: Code, phase: string): Code {
    if c.Failed? then c else Failed(phase)
  }

  /** What is thrown after a failed promotion that recovery is attempted for: the promotion's
      own failure when the previous image was put back and both events were saved; otherwise a
      failed cancellation; or the error of the event that could not be saved. */
  lemma ThrownIs(env: Env, w: World, recipe: Recipe, revision: string, image: ImageId, previous: ImageId)
    requires var (v, f) := Promoted(env, w.(observed := None), recipe, revision, image);
             f.Some? && Recovers(v, Some(previous), f.value)
    ensures var first := env(AtRestoring(env, w, recipe, revision, image).at).fault;
            var (b, g) := AfterPutBack(env, w, recipe, revision, image, previous);
            var last := env(if g.None? then b.at + 1 else b.at).fault;
            Activated(env, w, recipe, revision, image, Some(previous)).1 == Some(
              if first.Some? then SaveError(first.value, "restoring_previous_image")
              else if g.None? && env(b.at).fault.None? then Promoted(env, w.(observed := None), recipe, revision, image).1.value
              else if last.Some? then SaveError(last.value, "rollback_failed")
              else CancellationFailed)
  {
    hide Promoted, PutBackAlone, Awaited;
    var (v, f) := Promoted(env, w.(observed := None), recipe, revision, image);
    var final := Recovered(env, v, recipe, revision, previous, f.value);
    assert Activated(env, w, recipe, revision, image, Some(previous)) == final;
    var (a, e) := EventSaved(env, v, RESTORING);
    if e.None? {
      var (b, g) := PutBackAlone(env, a, recipe, revision, previous);
      var (c, h) := if g.Some? then (b, g) else EventSaved(env, b, RESTORED);
      assert c.at == (if g.None? then b.at + 1 else b.at) by { OneAwait(env, b); }
      if h.Some? {
        var (d, i) := EventSaved(env, c, ROLLBACK_FAILED);
        assert final.1 == if i.Some? then i else Some(CancellationFailed);
      }
    }
  }

  /** What an activation ends in, for its callers. */
  ghost predicate Ends(w: World, v: World, thrown: Option<Code>, recipe: Recipe, revision: string, image: ImageId, previous: Option<ImageId>, promoted: bool) {
    && v.latest in {w.latest, Some(image), previous} && w.unsaved <= v.unsaved
    && (promoted ==>
          && thrown.None? && v.Runs(image) && v.OnLatest() && v.unitActive
          && (recipe.healthUrl ==> v.reported.Some?)
          && (recipe.healthUrl && recipe.versionField ==> v.reported == Some(ShortRevision(revision))))
    && (!promoted ==> thrown.Some?)
    && (!promoted && thrown.value.Failed? && previous.Some? && v.reason != Some(Interrupted) && v.unsaved !! {RESTORING, ROLLBACK_FAILED} ==>
          v.Runs(previous.value) && v.OnLatest())
  }

  lemma RecoveredOk(env: Env, v: World, recipe: Recipe, revision: string, previous: ImageId, failure: Code)
    requires NoneSeen(v) && failure.Failed?
    ensures var (d, thrown) := Recovered(env, v, recipe, revision, previous, failure);
            && d.latest in {v.latest, Some(previous)} && v.unsaved <= d.unsaved && thrown.Some?
            && (v.reason.Some? ==> d.reason == v.reason)
            && (thrown.value.Failed? && d.unsaved !! {RESTORING, ROLLBACK_FAILED} ==> d.Runs(previous) && d.OnLatest())
  {
    hide PutBackAlone, EventSaved;
    EventKeeps(env, v, RESTORING);
    var (a, f) := EventSaved(env, v, RESTORING);
    PutBackOk(env, a, recipe, revision, previous);
    var (b, g) := PutBackAlone(env, a, recipe, revision, previous);
    EventKeeps(env, b, RESTORED);
    EventKeeps(env, b, ROLLBACK_FAILED);
    EventKeeps(env, EventSaved(env, b, RESTORED).0, ROLLBACK_FAILED);
    if f.Some? { assert RESTORING in Recovered(env, v, recipe, revision, previous, failure).0.unsaved; }
  }

  lemma ActivatedEnds(env: Env, w: World, recipe: Recipe, revision: string, image: ImageId, previous: Option<ImageId>)
    ensures var (v, thrown) := Activated(env, w, recipe, revision, image, previous);
            Ends(w, v, thrown, recipe, revision, image, previous, Promoted(env, w.(observed := None), recipe, revision, image).1.None?)
  {
    hide Promoted, Recovered;
    PromotedOk(env, w.(observed := None), recipe, revision, image);
    var (v, f) := Promoted(env, w.(observed := None), recipe, revision, image);
    if f.Some? && Recovers(v, previous, f.value) { RecoveredOk(env, v, recipe, revision, previous.value, f.value); }
  }

  lemma ActivatedUnsaved(env: Env, w: World, recipe: Recipe, revision: string, image: ImageId, previous: Option<ImageId>)
    ensures w.unsaved <= Activated(env, w, recipe, revision, image, previous).0.unsaved
  {
    hide Activated, Promoted;
    ActivatedEnds(env, w, recipe, revision, image, previous);
  }

  // ---------------------------------------------------------------- a full disk

  /** The requests succeed; from the third await on no event can be saved. */
  const FULL_DISK: Env :=
    n => if n < 2 then Move(None, true, None, None, "", true, true) else Move(Some(Failed("ENOSPC")), false, None, None, "", true, true)

  /** A service that ran an image, under a job whose store is full: the new image is tagged
      and started, nobody has looked whether it is healthy, nothing is put back, and the
      error says nothing of it. */
  lemma UnsavedEventHidesFailedRollback(recipe: Recipe, revision: string)
    ensures var w := World(0, Some("old"), Some(Container("old", true)), None, None, None, false, {});
            var (v, thrown) := Activated(FULL_DISK, w, recipe, revision, "new", Some("old"));
            && !Promise((v, thrown), "old") && thrown == Some(Failed("ENOSPC"))
            && v.latest == Some("new") && v.observed.None? && v.unsaved == {WAITING, RESTORING}
  {
    hide Waited;
    var w := World(0, Some("old"), Some(Container("old", true)), None, None, None, false, {});
    var (a, f) := Tagged(FULL_DISK, w, "new");
    assert f.None? && a.at == 1 && a.latest == Some("new");
    var (b, g) := Restarted(FULL_DISK, a);
    assert g.None? && b.at == 2;
    var (c, h) := EventSaved(FULL_DISK, b, WAITING);
    assert h == Some(Failed("ENOSPC")) && c.at == 3;
    var (d, i) := EventSaved(FULL_DISK, c, RESTORING);
    assert i == Some(Failed("ENOSPC"));
  }
}
