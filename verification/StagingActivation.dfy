/** Switching staging to a release, and switching back when anything fails. */
module StagingActivation {
  import opened Wrappers
  import opened Deployment

  /** `unit` is None when the installed unit is kept; `ingest` is None for a release without ticket ingest. */
  datatype Target = Target(
    release: string, venv: string, unit: Option<string>, expectedUnit: string, ingest: Ingest)

  /** The application is up from the target's release, environment and unit. */
  predicate AppReady(s: State, t: Target) {
    && s.release == Some(t.release) && s.venv == Some(t.venv) && s.unit == Some(t.expectedUnit)
    && s.service == UnitStatus(true, true)
  }

  /** Everything is the target's, and the running process was started from it. */
  predicate Activated(s: State, t: Target) {
    && AppReady(s, t) && IngestReady(s, t.ingest)
    && s.running == Some(Image(Some(t.release), Some(t.venv), Some(t.expectedUnit)))
  }

  method WaitForAppReadiness(h: Host, t: Target, attempts: nat) returns (ok: bool)
    requires attempts > 0
    modifies h`commands, h`passed
    ensures ok ==> AppReady(h.state, t) && EndsWith(h.passed, [Files, Store, Health])
                   && |h.passed| >= |old(h.passed)| + 3
    ensures old(h.passed) <= h.passed
    ensures old(h.Calm()) && AppReady(h.state, t) ==> ok
    ensures old(h.Calm()) ==> h.Calm()
  {
    for i := 0 to attempts
      invariant old(h.Calm()) ==> h.Calm()
      invariant old(h.Calm()) && AppReady(h.state, t) ==> i == 0
      invariant old(h.passed) <= h.passed
    {
      var service, sound := h.Capture(Service);
      if service.Some? && service.value == UnitStatus(true, true) && sound {
        var readable := h.Check(Files);
        if readable && h.state.release == Some(t.release) && h.state.venv == Some(t.venv)
           && h.state.unit == Some(t.expectedUnit) {
          var store := h.Check(Store);
          if store {
            var healthy := h.Check(Health);
            if healthy {
              return true;
            }
          }
        }
      }
    }
    ok := false;
  }

  /** Path off, then links and unit files as captured, and systemd told so. */
  method PutBack(h: Host, before: Captured) returns (ok: bool)
    requires Coherent(h.state)
    modifies h
    ensures Coherent(h.state)
    ensures ok ==> FilesAre(h.state, before) && h.state.loaded == before.unit
    ensures h.state.ingestActive == old(h.state).ingestActive
    ensures old(h.Calm()) && h.exposed ==> old(h.exposed) || h.state.ingestActive
    ensures old(h.Calm()) ==> h.Calm() && (ok <==> (before.ingestService.Some? <==> before.ingestPath.Some?))
  {
    ok := h.Stop(Path);
    if ok {
      ok := h.SetRelease(before.release);
    }
    if ok {
      ok := h.SetVenv(before.venv);
    }
    if ok {
      ok := h.PutUnit(before.unit);
    }
    if ok && before.ingestService.Some? != before.ingestPath.Some? {
      return false;
    }
    if ok {
      ok := h.PutIngestUnits(before.ingestService, before.ingestPath);
    }
    if ok {
      ok := h.Reload();
    }
  }

  /** Service and path as captured; then everything is compared and the store looked at. */
  method BringBack(h: Host, before: Captured, attempts: nat) returns (ok: bool)
    requires attempts > 0 && Coherent(h.state) && FilesAre(h.state, before) && h.state.loaded == before.unit
    modifies h`state, h`commands, h`passed
    ensures Coherent(h.state)
    ensures ok ==> Restored(h.state, before)
    ensures ok ==> EndsWith(h.passed, LastProbes(before))
    ensures old(h.Calm()) && (before.ingestService.Some? <==> before.ingestPath.Some?) ==>
              h.Calm() && (ok <==> Restorable(before))
  {
    ghost var was := h.passed;
    ok := RestoreService(h, before, attempts);
    if ok {
      ok := h.SetPathState(before.path);
    }
    if ok {
      var restored, sound := h.CaptureAll();
      ok := restored.Some? && restored.value == before && sound;
    }
    if ok {
      ok := h.Check(Store);
      LastAreLast(was, if before.service.active then [Health] else [], h.passed, LastProbes(before), ok);
    }
  }

  /** The last probes of a restore. */
  function LastProbes(before: Captured): seq<Probe> {
    if before.service.active then [Health, Files, Store] else [Files, Store]
  }

  lemma LastAreLast(was: seq<Probe>, first: seq<Probe>, passed: seq<Probe>, last: seq<Probe>, ok: bool)
    requires ok ==> passed == was + first + [Files] + [Store] && last == first + [Files, Store]
    ensures ok ==> EndsWith(passed, last)
  {
    if ok {
      assert passed == was + last;
    }
  }

  /** Brings everything back to what was captured, and compares all of it at the end. Returning means that it
      is back; and when no command fails, it returns exactly for a state that can be restored. */
  method RollbackFailedSwitch(h: Host, before: Captured, attempts: nat) returns (ok: bool)
    requires attempts > 0 && Coherent(h.state)
    modifies h
    ensures Coherent(h.state)
    ensures ok ==> Restored(h.state, before)
    ensures ok ==> EndsWith(h.passed, LastProbes(before))
    ensures old(h.Calm()) && h.exposed ==> old(h.exposed) || old(h.state).ingestActive
    ensures old(h.Calm()) ==> h.Calm() && (ok <==> Restorable(before))
  {
    hide EndsWith, FilesAre, Restored, LastProbes;
    ok := PutBack(h, before);
    if ok {
      ok := BringBack(h, before, attempts);
    }
  }

  method RestoreService(h: Host, before: Captured, attempts: nat) returns (ok: bool)
    requires attempts > 0 && Coherent(h.state)
    requires h.state.release == before.release && h.state.venv == before.venv
    requires h.state.unit == h.state.loaded == before.unit
    modifies h`state, h`commands, h`passed
    ensures Coherent(h.state)
    ensures h.state == old(h.state).(service := h.state.service, running := h.state.running)
    ensures ok && before.service.active ==> h.state.running == Some(Image(before.release, before.venv, before.unit))
    ensures ok ==> h.passed == if before.service.active then old(h.passed) + [Health] else old(h.passed)
    ensures old(h.Calm()) && ok ==> h.state.service == before.service
    ensures old(h.Calm()) ==>
              h.Calm() && (ok <==> (before.service.enabled || before.service.active ==> before.unit.Some?)
                                   && (before.service.active ==> before.release.Some? && before.venv.Some?))
  {
    ok := h.SetServiceEnabled(before.service.enabled);
    if !ok {
      return;
    }
    if before.service.active {
      if before.release.None? || before.venv.None? {
        return false;
      }
      ok := h.Restart();
      if ok {
        ok := h.WaitFor(Health, attempts);
      }
    } else {
      ok := h.Stop(Service);
    }
  }

  datatype Outcome = Done | Refused | RolledBack | RestoreFailed

  /** Whether the target's unit is the one expected to be installed afterwards. */
  predicate UnitFits(t: Target, before: Captured) {
    if t.unit.Some? then t.unit.value == t.expectedUnit else before.unit == Some(t.expectedUnit)
  }

  /** Path off, then links and unit files as the target wants them. */
  method PutTarget(h: Host, t: Target) returns (ok: bool)
    requires Coherent(h.state)
    modifies h`state, h`commands, h`exposed
    ensures Coherent(h.state)
    ensures var s := h.state; s == old(h.state).(
              release := s.release, venv := s.venv, unit := s.unit, ingestService := s.ingestService,
              ingestPath := s.ingestPath, path := s.path)
    ensures ok ==> h.state.release == Some(t.release) && h.state.venv == Some(t.venv)
    ensures ok ==> h.state.unit == (if t.unit.Some? then t.unit else old(h.state).unit)
    ensures ok ==> h.state.ingestService == ServiceUnit(t.ingest) && h.state.ingestPath == PathUnit(t.ingest)
    ensures old(h.Calm()) && h.exposed ==> old(h.exposed) || h.state.ingestActive
    ensures old(h.Calm()) ==> h.Calm() && ok
  {
    ok := h.Stop(Path);
    if ok {
      ok := h.SetRelease(Some(t.release));
    }
    if ok {
      ok := h.SetVenv(Some(t.venv));
    }
    if ok && t.unit.Some? {
      ok := h.PutUnit(t.unit);
    }
    if ok {
      ok := h.PutIngestUnits(ServiceUnit(t.ingest), PathUnit(t.ingest));
    }
  }

  /** Files, links and the running service. */
  method Install(h: Host, t: Target, before: Captured) returns (ok: bool)
    requires Coherent(h.state) && before == Visible(h.state)
    modifies h`state, h`commands, h`exposed
    ensures Coherent(h.state)
    ensures ok ==> h.state.release == Some(t.release) && h.state.venv == Some(t.venv) && h.state.unit == h.state.loaded
    ensures ok ==> h.state.unit == (if t.unit.Some? then t.unit else before.unit)
    ensures ok ==> h.state.ingestService == ServiceUnit(t.ingest) && h.state.ingestPath == PathUnit(t.ingest)
    ensures ok ==> h.state.service == UnitStatus(true, true)
                   && h.state.running == Some(Image(h.state.release, h.state.venv, h.state.unit))
    ensures h.state.ingestActive == old(h.state).ingestActive
    ensures old(h.Calm()) && h.exposed ==> old(h.exposed) || h.state.ingestActive
    ensures old(h.Calm()) ==> h.Calm() && (UnitFits(t, before) ==> ok)
  {
    ok := PutTarget(h, t);
    if ok {
      ok := h.Reload();
    }
    if ok && !before.service.enabled {
      ok := h.Enable(Service);
    }
    if ok {
      ok := h.Restart();
    }
  }

  /** The switch itself; the first failure ends it. */
  method Switch(h: Host, t: Target, before: Captured, attempts: nat) returns (ok: bool)
    requires attempts > 0 && Coherent(h.state) && before == Visible(h.state)
    modifies h
    ensures Coherent(h.state)
    ensures ok ==> Activated(h.state, t) && EndsWith(h.passed, [Files, Store, Health])
    ensures ok && t.ingest.Some? ==> ReadyThenIngested(h.passed, |old(h.passed)|)
    ensures old(h.Calm()) && !old(h.state).ingestActive ==> !h.state.ingestActive && (h.exposed ==> old(h.exposed))
    ensures old(h.Calm()) ==> h.Calm() && (UnitFits(t, before) ==> ok)
  {
    ok := Install(h, t, before);
    if !ok {
      return;
    }
    ok := WaitForAppReadiness(h, t, attempts);
    if ok && t.ingest.Some? {
      ok := h.RunReadyIngest(|old(h.passed)|);
    }
    ghost var ingested := h.passed;
    if ok {
      ok := h.SetPathState(UnitStatus(t.ingest.Some?, t.ingest.Some?));
    }
    if ok {
      ok := h.VerifyIngestReadiness(t.ingest);
    }
    if ok {
      ok := WaitForAppReadiness(h, t, attempts);
      if t.ingest.Some? {
        ReadyThenIngestedLater(ingested, h.passed, |old(h.passed)|);
      }
    }
  }

  /** Activation: done means the target runs and the store and its health were found well at last, and the original
      error re-raised means everything is as it was, wherever the switch failed. The restore itself fails only when
      a command of it fails, or when what was found could not be restored by commands. */
  method Activate(h: Host, t: Target, attempts: nat) returns (outcome: Outcome, ghost calm: bool)
    requires attempts > 0 && Coherent(h.state)
    modifies h
    ensures outcome == Done ==> Activated(h.state, t) && EndsWith(h.passed, [Files, Store, Health])
    ensures outcome == Done && t.ingest.Some? ==> ReadyThenIngested(h.passed, |old(h.passed)|)
    ensures old(h.Calm()) && !old(h.state).ingestActive && h.exposed ==> old(h.exposed)
    ensures outcome == Refused ==> h.state == old(h.state)
    ensures outcome == RolledBack ==>
              && Restored(h.state, Visible(old(h.state)))
              && EndsWith(h.passed, LastProbes(Visible(old(h.state))))
    ensures outcome == RestoreFailed && calm ==> !Restorable(Visible(old(h.state)))
    ensures old(h.Calm()) && (old(h.state).ingestPath.Some? || old(h.state).path == UnitStatus(false, false)) ==>
              (UnitFits(t, Visible(old(h.state))) ==> outcome == Done)
  {
    calm := false;
    var before, _ := h.CaptureAll();
    if before.None? {
      return Refused, calm;
    }
    if before.value.ingestPath.None? && before.value.path != UnitStatus(false, false) {
      return Refused, calm;
    }
    var switched := Switch(h, t, before.value, attempts);
    if switched {
      return Done, calm;
    }
    calm := h.Calm();
    var restored := RollbackFailedSwitch(h, before.value, attempts);
    outcome := if restored then RolledBack else RestoreFailed;
  }
}
