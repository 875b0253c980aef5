/** Activating a release in production: a transaction with recovery markers. */
module ProductionActivation {
  import opened Wrappers
  import opened Deployment

  datatype Target = Target(release: string, venv: string, unit: string, ingest: Ingest)

  predicate Activated(s: State, t: Target) {
    && s.release == Some(t.release) && s.venv == Some(t.venv) && s.unit == Some(t.unit)
    && s.service == UnitStatus(true, true)
    && s.running == Some(Image(Some(t.release), Some(t.venv), Some(t.unit)))
    && IngestReady(s, t.ingest)
  }

  datatype Marker = MutationStarting | Complete | RolledBackMark | RestoreFailedMark

  /** The recovery file, when a directory for it was given. What becomes of each write is scripted. */
  class Recovery {
    const kept: bool
    const script: nat -> Fate
    var marker: Option<Marker>
    var writes: nat

    constructor (kept: bool, script: nat -> Fate)
      ensures this.kept == kept && this.script == script && marker == None && writes == 0
    {
      this.kept, this.script, this.marker, this.writes := kept, script, None, 0;
    }

    /** The write with this number is not needed or succeeds. */
    predicate Accepts(i: nat) {
      kept ==> script(i).report.Success?
    }

    method Write(m: Marker) returns (ok: bool)
      modifies this
      ensures writes == old(writes) + 1 && ok == Accepts(old(writes))
      ensures marker == if kept && Took(script(old(writes))) then Some(m) else old(marker)
    {
      var f := script(writes);
      writes := writes + 1;
      if !kept {
        return true;
      }
      if Took(f) {
        marker := Some(m);
      }
      ok := f.report.Success?;
    }
  }

  /** Path off, path and ingest service stopped; checked afterwards. */
  method QuiesceIngest(h: Host) returns (ok: bool)
    requires Coherent(h.state)
    modifies h`state, h`commands
    ensures Coherent(h.state)
    ensures h.state == old(h.state).(path := h.state.path, ingestActive := h.state.ingestActive)
    ensures ok ==> h.state.path == UnitStatus(false, false) && !h.state.ingestActive
    ensures old(h.Calm()) ==> h.Calm() && ok
  {
    ok := h.Disable(Path);
    if ok {
      ok := h.Stop(Path);
    }
    if ok {
      ok := h.StopIngest();
    }
    if ok {
      var path, _ := h.Capture(Path);
      ok := path.Some? && path.value == UnitStatus(false, false);
    }
    if ok {
      ok := h.FindsIngestAtRest();
    }
  }

  /** Restarted and found healthy, or stopped. */
  method RunService(h: Host, active: bool, attempts: nat) returns (ok: bool)
    requires attempts > 0 && Coherent(h.state)
    modifies h`state, h`commands, h`passed
    ensures Coherent(h.state)
    ensures h.state == old(h.state).(
              service := UnitStatus(h.state.service.active, old(h.state).service.enabled), running := h.state.running)
    ensures ok ==> h.passed == if active then old(h.passed) + [Health] else old(h.passed)
    ensures ok && active ==>
              && h.state.service.active
              && h.state.running == Some(Image(h.state.release, h.state.venv, h.state.loaded))
    ensures old(h.Calm()) ==>
              h.Calm() && (ok <==> (active ==> h.state.unit.Some?)) && (ok && !active ==> !h.state.service.active)
  {
    if active {
      ok := h.Restart();
      if ok {
        ok := h.WaitFor(Health, attempts);
      }
    } else {
      ok := h.Stop(Service);
    }
  }

  method RestoreService(h: Host, before: Captured, attempts: nat) returns (ok: bool)
    requires attempts > 0 && Coherent(h.state)
    requires h.state.release == before.release && h.state.venv == before.venv && h.state.unit == before.unit
    modifies h`state, h`commands, h`passed
    ensures Coherent(h.state)
    ensures h.state == old(h.state).(service := h.state.service, running := h.state.running, loaded := h.state.loaded)
    ensures ok ==> h.state.service == before.service
    ensures ok ==> h.passed == if before.service.active then old(h.passed) + [Health] else old(h.passed)
    ensures ok && before.service.active ==> h.state.running == Some(Image(before.release, before.venv, before.unit))
    ensures old(h.Calm()) ==>
              h.Calm() && (ok <==> (before.service.enabled || before.service.active ==> before.unit.Some?))
  {
    ok := h.Reload();
    if ok {
      ok := h.SetServiceEnabled(before.service.enabled);
    }
    if ok {
      ok := RunService(h, before.service.active, attempts);
    }
    if ok {
      var restored, sound := h.Capture(Service);
      ok := restored.Some? && restored.value == before.service && sound;
    }
  }

  /** The units that ran or were enabled have their files. */
  predicate HasFiles(c: Captured) {
    && (c.service.enabled || c.service.active ==> c.unit.Some?)
    && (c.path.enabled || c.path.active ==> c.ingestPath.Some?)
  }

  /** The last probes of a restore. */
  function LastProbes(before: Captured): seq<Probe> {
    if before.service.active then [Health, Idle, Files, Store] else [Idle, Files, Store]
  }

  /** Ingest at rest, then links and unit files as captured. */
  method PutBack(h: Host, before: Captured) returns (ok: bool)
    requires Coherent(h.state)
    modifies h
    ensures Coherent(h.state)
    ensures ok ==> FilesAre(h.state, before)
    ensures h.exposed ==> old(h.exposed)
    ensures old(h.Calm()) ==> h.Calm() && ok
  {
    ok := QuiesceIngest(h);
    if ok {
      ok := h.SetRelease(before.release);
    }
    if ok {
      ok := h.SetVenv(before.venv);
    }
    if ok {
      ok := h.PutUnit(before.unit);
    }
    if ok {
      ok := h.PutIngestUnits(before.ingestService, before.ingestPath);
    }
  }

  /** Service and path as captured and the ingest at rest; then everything is compared and the stores looked at. */
  method BringBack(h: Host, before: Captured, attempts: nat) returns (ok: bool)
    requires attempts > 0 && Coherent(h.state) && FilesAre(h.state, before)
    modifies h`state, h`commands, h`passed
    ensures Coherent(h.state)
    ensures ok ==> Restored(h.state, before)
    ensures ok ==> EndsWith(h.passed, LastProbes(before))
    ensures old(h.Calm()) ==> h.Calm() && (ok <==> HasFiles(before))
  {
    ghost var was := h.passed;
    ok := RestoreService(h, before, attempts);
    if ok {
      ok := h.SetPathState(before.path);
    }
    if ok {
      ok := h.WaitFor(Idle, attempts);
    }
    if ok {
      var restored, _ := h.CaptureAll();
      ok := restored.Some? && restored.value == before;
    }
    if ok {
      ok := h.Check(Store);
      LastAreLast(was, if before.service.active then [Health] else [], h.passed, LastProbes(before), ok);
    }
  }

  lemma LastAreLast(was: seq<Probe>, first: seq<Probe>, passed: seq<Probe>, last: seq<Probe>, ok: bool)
    requires ok ==> passed == was + first + [Idle] + [Files] + [Store] && last == first + [Idle, Files, Store]
    ensures ok ==> EndsWith(passed, last)
  {
    if ok {
      assert passed == was + last;
    }
  }

  /** Restores everything that was captured and compares it. Unlike staging it does not ask whether a running
      service had its links, so when no command fails it returns for every state whose units have their files. */
  method RestoreTransaction(h: Host, before: Captured, attempts: nat) returns (ok: bool)
    requires attempts > 0 && Coherent(h.state)
    modifies h
    ensures Coherent(h.state)
    ensures ok ==> Restored(h.state, before)
    ensures ok ==> EndsWith(h.passed, LastProbes(before))
    ensures h.exposed ==> old(h.exposed)
    ensures old(h.Calm()) ==> h.Calm() && (ok <==> HasFiles(before))
  {
    hide EndsWith, FilesAre, Restored, HasFiles;
    ok := PutBack(h, before);
    if ok {
      ok := BringBack(h, before, attempts);
    }
  }

  /** The application is up from the target's files, and the stores are as expected. */
  predicate AppReady(s: State, t: Target) {
    && s.release == Some(t.release) && s.venv == Some(t.venv) && s.unit == Some(t.unit)
    && s.service == UnitStatus(true, true)
  }

  method WaitForActiveReadiness(h: Host, t: Target, attempts: nat) returns (ok: bool)
    requires attempts > 0
    modifies h`commands, h`passed
    ensures ok ==> AppReady(h.state, t) && EndsWith(h.passed, [Files, Store, Health])
                   && |h.passed| >= |old(h.passed)| + 3
    ensures old(h.passed) <= h.passed
    ensures old(h.Calm()) ==> h.Calm() && (AppReady(h.state, t) ==> ok)
  {
    for i := 0 to attempts
      invariant old(h.Calm()) ==> h.Calm()
      invariant old(h.Calm()) && AppReady(h.state, t) ==> i == 0
      invariant old(h.passed) <= h.passed
    {
      var c, sound := h.CaptureAll();
      if c.Some? && sound && c.value.service == UnitStatus(true, true) && c.value.release == Some(t.release)
         && c.value.venv == Some(t.venv) && c.value.unit == Some(t.unit) {
        var stores := h.Check(Store);
        if stores {
          var healthy := h.Check(Health);
          if healthy {
            return true;
          }
        }
      }
    }
    ok := false;
  }

  method Install(h: Host, t: Target, enabledBefore: bool) returns (ok: bool)
    requires Coherent(h.state)
    modifies h
    ensures Coherent(h.state)
    ensures ok ==> h.state.release == Some(t.release) && h.state.venv == Some(t.venv) && h.state.unit == Some(t.unit)
    ensures ok ==> h.state.service.active && (enabledBefore == old(h.state).service.enabled ==> h.state.service.enabled)
                   && h.state.running == Some(Image(Some(t.release), Some(t.venv), Some(t.unit)))
    ensures ok ==> h.state.ingestService == ServiceUnit(t.ingest) && h.state.ingestPath == PathUnit(t.ingest)
    ensures h.passed == old(h.passed) && (h.exposed ==> old(h.exposed))
    ensures old(h.Calm()) ==> h.Calm() && ok
  {
    ok := QuiesceIngest(h);
    if ok {
      ok := h.SetRelease(Some(t.release));
    }
    if ok {
      ok := h.SetVenv(Some(t.venv));
    }
    if ok {
      ok := h.PutUnit(Some(t.unit));
    }
    if ok {
      ok := h.PutIngestUnits(ServiceUnit(t.ingest), PathUnit(t.ingest));
    }
    if ok {
      ok := h.Reload();
    }
    if ok && !enabledBefore {
      ok := h.Enable(Service);
    }
    if ok {
      ok := h.Restart();
    }
  }

  /** The forward part, up to the last marker. */
  method Mutate(h: Host, t: Target, before: Captured, attempts: nat) returns (ok: bool)
    requires attempts > 0 && Coherent(h.state)
    modifies h
    ensures Coherent(h.state)
    ensures ok ==> Activated(h.state, t) && EndsWith(h.passed, [Files, Store, Health])
    ensures ok && t.ingest.Some? ==> ReadyThenIngested(h.passed, |old(h.passed)|)
    ensures h.exposed ==> old(h.exposed)
    ensures old(h.Calm()) ==> h.Calm() && (old(h.state).service.enabled == before.service.enabled ==> ok)
  {
    ok := Install(h, t, before.service.enabled);
    if !ok {
      return;
    }
    ok := WaitForActiveReadiness(h, t, attempts);
    if ok && t.ingest.Some? {
      ok := h.RunReadyIngest(|old(h.passed)|);
    }
    ghost var ingested := h.passed;
    if ok {
      ok := h.SetPathState(UnitStatus(t.ingest.Some?, t.ingest.Some?));
    }
    if ok {
      ok := h.VerifyIngestReadiness(t.ingest);
    }
    if ok {
      ok := WaitForActiveReadiness(h, t, attempts);
      if t.ingest.Some? {
        ReadyThenIngestedLater(ingested, h.passed, |old(h.passed)|);
      }
    }
  }

  /** NotStarted: the first marker could not be written. RolledBack: the original error was re-raised. */
  datatype Outcome = Done | NotStarted | RolledBack | RestoreFailed

  /** How far an activation came: the state in which its last marker was tried, if it was, and whether a restore
      after that, or after an earlier failure, returned. */
  datatype Course = Course(installed: Option<State>, restored: bool)

  /** The answer of an activation, from how far it came and from which of its markers were written. */
  function OutcomeOf(c: Course, r: Recovery, first: nat): Outcome {
    var last := if c.installed.Some? then first + 2 else first + 1;
    if !r.Accepts(first) then NotStarted
    else if c.installed.Some? && r.Accepts(first + 1) then Done
    else if c.restored && r.Accepts(last) then RolledBack
    else RestoreFailed
  }

  /** Done means the target runs. From the moment the mutation started, the original error re-raised means that
      everything is as captured and the marker says so; a failing first marker means that nothing was touched.
      The markers decide along with the commands: a complete activation whose last marker cannot be written is
      rolled back, and a complete restore whose marker cannot be written is reported as failed. Without a failing
      command it is the markers alone that decide. */
  method Activate(h: Host, t: Target, before: Captured, r: Recovery, attempts: nat)
    returns (outcome: Outcome, ghost course: Course, ghost calm: bool)
    requires attempts > 0 && Coherent(h.state)
    modifies h, r
    ensures outcome == OutcomeOf(course, r, old(r.writes))
    ensures course.installed.Some? ==> Activated(course.installed.value, t)
    ensures course.restored ==> Restored(h.state, before) && EndsWith(h.passed, LastProbes(before))
    ensures outcome == Done ==> EndsWith(h.passed, [Files, Store, Health])
    ensures outcome == Done && t.ingest.Some? ==> ReadyThenIngested(h.passed, |old(h.passed)|)
    ensures h.exposed ==> old(h.exposed)
    ensures outcome == Done ==> course.installed == Some(h.state) && (r.kept ==> r.marker == Some(Complete))
    ensures outcome == NotStarted ==> h.state == old(h.state) && h.commands == old(h.commands)
    ensures outcome == RolledBack ==> course.restored && (r.kept ==> r.marker == Some(RolledBackMark))
    ensures outcome == RestoreFailed && r.kept && r.writes > 0 && r.Accepts(r.writes - 1) ==>
              r.marker == Some(RestoreFailedMark)
    ensures (outcome == RolledBack || outcome == RestoreFailed) && calm ==> (course.restored <==> HasFiles(before))
    ensures old(h.Calm()) && old(h.state).service.enabled == before.service.enabled && outcome != NotStarted ==>
              course.installed.Some? && calm
  {
    hide Activated, Restored, HasFiles;
    calm, course := false, Course(None, false);
    var started := r.Write(MutationStarting);
    if !started {
      return NotStarted, course, calm;
    }
    var mutated := Mutate(h, t, before, attempts);
    calm := h.Calm();
    if mutated {
      course := course.(installed := Some(h.state));
      var complete := r.Write(Complete);
      if complete {
        return Done, course, calm;
      }
    }
    var restored := RestoreTransaction(h, before, attempts);
    course := course.(restored := restored);
    if restored {
      var marked := r.Write(RolledBackMark);
      if marked {
        return RolledBack, course, calm;
      }
    }
    var _ := r.Write(RestoreFailedMark);
    outcome := RestoreFailed;
  }

  /** A machine on which no command fails, and a recovery file whose second and third write are lost: the complete
      activation is rolled back, and the complete rollback is reported as a failed restore. */
  method LostMarkersMisreportTheRestore(t: Target, s: State, markers: nat -> Fate, attempts: nat)
    returns (outcome: Outcome, after: State)
    requires attempts > 0 && Coherent(s) && HasFiles(Visible(s))
    requires markers(0).report.Success? && !markers(1).report.Success? && !markers(2).report.Success?
    ensures outcome == RestoreFailed && Restored(after, Visible(s))
  {
    var h := new Host(s, _ => Fate(true, Success, false));
    var r := new Recovery(true, markers);
    ghost var course, calm;
    outcome, course, calm := Activate(h, t, Visible(s), r, attempts);
    after := h.state;
  }
}
