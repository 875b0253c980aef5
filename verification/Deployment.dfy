/** The machine a release is activated on: links, unit files, systemd, and commands that may fail. */
module Deployment {
  import opened Wrappers

  /** One systemd unit as `systemctl` reports it. */
  datatype UnitStatus = UnitStatus(active: bool, enabled: bool)

  /** What a running service was started from. */
  datatype Image = Image(release: Option<string>, venv: Option<string>, unit: Option<string>)

  /** Unit files are opaque texts. `loaded` is the service unit as last read by systemd, `running` what the
      service process was started from. */
  datatype State = State(
    release: Option<string>, venv: Option<string>,
    unit: Option<string>, ingestService: Option<string>, ingestPath: Option<string>,
    service: UnitStatus, path: UnitStatus, ingestActive: bool,
    loaded: Option<string>, running: Option<Image>)

  datatype Which = Service | Path

  datatype Report = Success | Nonzero | Lost

  /** Whether a command took effect, what was reported, and whether a failing restart at least stopped. */
  datatype Fate = Fate(effect: bool, report: Report, stopped: bool)

  /** The path unit may start an ingest, or one is running. */
  predicate Busy(s: State) {
    s.path.active || s.ingestActive
  }

  predicate Took(f: Fate) {
    f.report.Success? || f.effect
  }

  predicate Clean(f: Fate) {
    f.report.Success? && f.effect
  }

  function StatusOf(s: State, w: Which): UnitStatus {
    if w.Service? then s.service else s.path
  }

  function WithStatus(s: State, w: Which, u: UnitStatus): State {
    if w.Service? then s.(service := u) else s.(path := u)
  }

  function FileOf(s: State, w: Which): Option<string> {
    if w.Service? then s.unit else s.ingestPath
  }

  /** A service runs exactly when it is active. */
  predicate Coherent(s: State) {
    s.service.active <==> s.running.Some?
  }

  /** What is captured before a change and compared after a restore. */
  datatype Captured = Captured(
    release: Option<string>, venv: Option<string>, unit: Option<string>,
    ingestService: Option<string>, ingestPath: Option<string>, service: UnitStatus, path: UnitStatus)

  function Visible(s: State): Captured {
    Captured(s.release, s.venv, s.unit, s.ingestService, s.ingestPath, s.service, s.path)
  }

  /** The state can be brought back by commands: what runs or is enabled has its files. */
  predicate Restorable(c: Captured) {
    && (c.service.enabled || c.service.active ==> c.unit.Some?)
    && (c.service.active ==> c.release.Some? && c.venv.Some?)
    && (c.path.enabled || c.path.active ==> c.ingestPath.Some?)
    && (c.ingestService.Some? <==> c.ingestPath.Some?)
  }

  /** Links and unit files are as captured. */
  predicate FilesAre(s: State, c: Captured) {
    && s.release == c.release && s.venv == c.venv && s.unit == c.unit
    && s.ingestService == c.ingestService && s.ingestPath == c.ingestPath
  }

  /** As captured, and running what was captured. */
  predicate Restored(s: State, c: Captured) {
    && Visible(s) == c
    && s.running == if c.service.active then Some(Image(c.release, c.venv, c.unit)) else None
  }

  /** The texts of the two ingest units, service and path; None for a release without ticket ingest. */
  type Ingest = Option<(string, string)>

  function ServiceUnit(i: Ingest): Option<string> {
    if i.Some? then Some(i.value.0) else None
  }

  function PathUnit(i: Ingest): Option<string> {
    if i.Some? then Some(i.value.1) else None
  }

  predicate IngestReady(s: State, i: Ingest) {
    s.ingestService == ServiceUnit(i) && s.ingestPath == PathUnit(i) && s.path == UnitStatus(i.Some?, i.Some?)
  }

  /** What a check asks: the files and links, the ticket store or the snapshot, the health endpoint, whether the ingest
      rests, and whether it did its work. */
  datatype Probe = Files | Store | Health | Idle | Ingested

  /** After `from`, files, store and health were found well, and then an ingest did its work. */
  ghost predicate ReadyThenIngested(passed: seq<Probe>, from: nat) {
    exists i :: from + 3 <= i && IngestAfterHealth(passed, i)
  }

  predicate IngestAfterHealth(passed: seq<Probe>, i: nat) {
    3 <= i <= |passed| - 3 && passed[i - 3..i + 3] == [Files, Store, Health, Idle, Store, Ingested]
  }

  lemma ReadyThenIngestedLater(shorter: seq<Probe>, longer: seq<Probe>, from: nat)
    requires shorter <= longer && ReadyThenIngested(shorter, from)
    ensures ReadyThenIngested(longer, from)
  {
    var i :| from + 3 <= i && IngestAfterHealth(shorter, i);
    assert longer[i - 3..i + 3] == shorter[i - 3..i + 3];
    assert IngestAfterHealth(longer, i);
  }

  /** The last probes that were answered well, in order. */
  predicate EndsWith(passed: seq<Probe>, last: seq<Probe>) {
    |last| <= |passed| && passed[|passed| - |last|..] == last
  }

  /** `passed` lists the probes that were answered well; `exposed` says whether a link or a unit file ever changed
      under a path unit that was active or an ingest that ran. */
  class Host {
    const script: nat -> Fate
    var state: State
    var commands: nat
    ghost var passed: seq<Probe>
    ghost var exposed: bool

    constructor (state: State, script: nat -> Fate)
      ensures this.state == state && this.script == script && commands == 0 && passed == [] && !exposed
    {
      this.state, this.script, this.commands := state, script, 0;
      this.passed, this.exposed := [], false;
    }

    /** From now on nothing fails. */
    ghost predicate Calm()
      reads this
    {
      forall i :: i >= commands ==> Clean(script(i))
    }

    method NextFate() returns (f: Fate)
      modifies this`commands
      ensures commands == old(commands) + 1 && f == script(old(commands))
      ensures old(Calm()) ==> Calm() && Clean(f)
    {
      f := script(commands);
      commands := commands + 1;
    }

    /** A check outside this machine's own state, such as the ticket store or the health endpoint. */
    method Check(probe: Probe) returns (ok: bool)
      modifies this`commands, this`passed
      ensures commands == old(commands) + 1 && ok == script(old(commands)).report.Success?
      ensures passed == if ok then old(passed) + [probe] else old(passed)
      ensures old(Calm()) ==> Calm() && ok
    {
      var f := NextFate();
      ok := f.report.Success?;
      if ok {
        passed := passed + [probe];
      }
    }

    method SetRelease(target: Option<string>) returns (ok: bool)
      modifies this`state, this`commands, this`exposed
      ensures old(exposed) ==> exposed
      ensures exposed && !old(exposed) ==> old(Busy(state))
      ensures state == old(state).(release := state.release)
      ensures state.release == target || (!ok && state.release == old(state).release)
      ensures old(Calm()) ==> Calm() && ok
    {
      if state.release == target {
        return true;
      }
      var f := NextFate();
      if Took(f) {
        exposed := exposed || Busy(state);
        state := state.(release := target);
      }
      ok := f.report.Success?;
    }

    method SetVenv(target: Option<string>) returns (ok: bool)
      modifies this`state, this`commands, this`exposed
      ensures old(exposed) ==> exposed
      ensures exposed && !old(exposed) ==> old(Busy(state))
      ensures state == old(state).(venv := state.venv)
      ensures state.venv == target || (!ok && state.venv == old(state).venv)
      ensures old(Calm()) ==> Calm() && ok
    {
      if state.venv == target {
        return true;
      }
      var f := NextFate();
      if Took(f) {
        exposed := exposed || Busy(state);
        state := state.(venv := target);
      }
      ok := f.report.Success?;
    }

    method PutUnit(content: Option<string>) returns (ok: bool)
      modifies this`state, this`commands, this`exposed
      ensures old(exposed) ==> exposed
      ensures exposed && !old(exposed) ==> old(Busy(state))
      ensures state == old(state).(unit := state.unit)
      ensures state.unit == content || (!ok && state.unit == old(state).unit)
      ensures old(Calm()) ==> Calm() && ok
    {
      var f := NextFate();
      if Took(f) {
        exposed := exposed || Busy(state);
        state := state.(unit := content);
      }
      ok := f.report.Success?;
    }

    /** The pair of ingest units: the service first, then the path. */
    method PutIngestUnits(service: Option<string>, path: Option<string>) returns (ok: bool)
      modifies this`state, this`commands, this`exposed
      ensures old(exposed) ==> exposed
      ensures exposed && !old(exposed) ==> old(Busy(state))
      ensures state == old(state).(ingestService := state.ingestService, ingestPath := state.ingestPath)
      ensures state.ingestService == service || (!ok && state.ingestService == old(state).ingestService)
      ensures state.ingestPath == path || (!ok && state.ingestPath == old(state).ingestPath)
      ensures old(Calm()) ==> Calm() && ok
    {
      var f := NextFate();
      if Took(f) {
        exposed := exposed || Busy(state);
        state := state.(ingestService := service);
      }
      if !f.report.Success? {
        return false;
      }
      f := NextFate();
      if Took(f) {
        exposed := exposed || Busy(state);
        state := state.(ingestPath := path);
      }
      ok := f.report.Success?;
    }

    method Reload() returns (ok: bool)
      modifies this`state, this`commands
      ensures state == old(state).(loaded := state.loaded)
      ensures ok ==> state.loaded == state.unit
      ensures old(Calm()) ==> Calm() && ok
    {
      var f := NextFate();
      if Took(f) {
        state := state.(loaded := state.unit);
      }
      ok := f.report.Success?;
    }

    /** `systemctl enable`: needs the unit file, and raises on failure. */
    method Enable(w: Which) returns (ok: bool)
      modifies this`state, this`commands
      ensures state == WithStatus(old(state), w, UnitStatus(StatusOf(old(state), w).active, StatusOf(state, w).enabled))
      ensures ok ==> StatusOf(state, w).enabled && FileOf(old(state), w).Some?
      ensures old(Calm()) && FileOf(old(state), w).Some? ==> ok
      ensures old(Calm()) ==> Calm()
    {
      var f := NextFate();
      if FileOf(state, w).None? {
        return false;
      }
      if Took(f) {
        state := WithStatus(state, w, StatusOf(state, w).(enabled := true));
      }
      ok := f.report.Success?;
    }

    /** `systemctl disable` without a check: only a lost answer raises. */
    method Disable(w: Which) returns (ok: bool)
      modifies this`state, this`commands
      ensures state == WithStatus(old(state), w, UnitStatus(StatusOf(old(state), w).active, StatusOf(state, w).enabled))
      ensures old(Calm()) ==> Calm() && ok && !StatusOf(state, w).enabled
    {
      var f := NextFate();
      if Took(f) {
        state := WithStatus(state, w, StatusOf(state, w).(enabled := false));
      }
      ok := !f.report.Lost?;
    }

    /** Enabled with a check, or disabled without one. */
    method SetServiceEnabled(enabled: bool) returns (ok: bool)
      modifies this`state, this`commands
      ensures state == old(state).(service := UnitStatus(old(state).service.active, state.service.enabled))
      ensures old(Calm()) ==> Calm() && (ok <==> (enabled ==> state.unit.Some?))
      ensures old(Calm()) && ok ==> state.service.enabled == enabled
    {
      if enabled {
        ok := Enable(Service);
      } else {
        ok := Disable(Service);
      }
    }

    method StartPath() returns (ok: bool)
      modifies this`state, this`commands
      ensures state == old(state).(path := UnitStatus(state.path.active, old(state).path.enabled))
      ensures ok ==> state.path.active && state.ingestPath.Some?
      ensures old(Calm()) && old(state).ingestPath.Some? ==> ok
      ensures old(Calm()) ==> Calm()
    {
      var f := NextFate();
      if state.ingestPath.None? {
        return false;
      }
      if Took(f) {
        state := state.(path := state.path.(active := true));
      }
      ok := f.report.Success?;
    }

    method Stop(w: Which) returns (ok: bool)
      modifies this`state, this`commands
      ensures state == WithStatus(old(state).(running := state.running), w,
                                  UnitStatus(StatusOf(state, w).active, StatusOf(old(state), w).enabled))
      ensures w.Path? ==> state.running == old(state).running
      ensures old(Coherent(state)) ==> Coherent(state)
      ensures old(Calm()) ==> Calm() && ok && !StatusOf(state, w).active
    {
      var f := NextFate();
      if Took(f) {
        if w.Service? {
          state := state.(running := None);
        }
        state := WithStatus(state, w, StatusOf(state, w).(active := false));
      }
      ok := !f.report.Lost?;
    }

    /** Stops the service and starts it from the links and the unit as systemd knows it. */
    method Restart() returns (ok: bool)
      modifies this`state, this`commands
      ensures state == old(state).(
                service := UnitStatus(state.service.active, old(state).service.enabled), running := state.running)
      ensures ok ==> state.service.active && state.running == Some(Image(state.release, state.venv, state.loaded))
      ensures old(Coherent(state)) ==> Coherent(state)
      ensures old(Calm()) ==> Calm() && (ok <==> state.unit.Some?)
    {
      var f := NextFate();
      if state.unit.None? {
        return false;
      }
      if Took(f) {
        state := state.(service := state.service.(active := true),
                        running := Some(Image(state.release, state.venv, state.loaded)));
      } else if f.stopped {
        state := state.(service := state.service.(active := false), running := None);
      }
      ok := f.report.Success?;
    }

    /** `systemctl stop` of the ingest service without a check. */
    method StopIngest() returns (ok: bool)
      modifies this`state, this`commands
      ensures state == old(state).(ingestActive := state.ingestActive)
      ensures old(Calm()) ==> Calm() && ok && !state.ingestActive
    {
      var f := NextFate();
      if Took(f) {
        state := state.(ingestActive := false);
      }
      ok := !f.report.Lost?;
    }

    /** `systemctl start` of the ingest service, which returns when the ingest has ended; one that fails or gets lost
        may leave it running. */
    method RunIngest() returns (ok: bool)
      modifies this`state, this`commands
      ensures state == old(state).(ingestActive := state.ingestActive)
      ensures ok ==> !state.ingestActive
      ensures old(Calm()) ==> Calm() && ok
    {
      var f := NextFate();
      ok := f.report.Success?;
      state := state.(ingestActive := !ok && (f.effect || state.ingestActive));
    }

    /** Whether the ingest service was read and rests. */
    method FindsIngestAtRest() returns (ok: bool)
      modifies this`commands
      ensures ok ==> !state.ingestActive
      ensures old(Calm()) ==> Calm() && (ok <==> !state.ingestActive)
    {
      var f := NextFate();
      ok := f.report.Success? && !state.ingestActive;
    }

    /** Reads one unit; the flag says that its last run and process id are in order too. */
    method Capture(w: Which) returns (status: Option<UnitStatus>, sound: bool)
      modifies this`commands
      ensures status.Some? ==> status.value == StatusOf(state, w)
      ensures old(Calm()) ==> Calm() && status.Some? && sound
    {
      var f := NextFate();
      if !f.report.Success? {
        return None, false;
      }
      return Some(StatusOf(state, w)), f.effect;
    }

    /** Polls until everything is as expected or the attempts are used up. */
    method WaitFor(probe: Probe, attempts: nat) returns (ok: bool)
      requires attempts > 0
      modifies this`commands, this`passed
      ensures passed == if ok then old(passed) + [probe] else old(passed)
      ensures old(Calm()) ==> Calm() && ok
    {
      for i := 0 to attempts
        invariant old(Calm()) ==> Calm() && i == 0
        invariant passed == old(passed)
      {
        ok := Check(probe);
        if ok {
          return;
        }
      }
      ok := false;
    }

    /** Brings the path unit to a state and reads it back. */
    method SetPathState(target: UnitStatus) returns (ok: bool)
      modifies this`state, this`commands
      ensures state == old(state).(path := state.path)
      ensures ok ==> state.path == target && (target.active || target.enabled ==> state.ingestPath.Some?)
      ensures old(Calm()) ==> Calm()
      ensures old(Calm()) && (target.active || target.enabled ==> old(state).ingestPath.Some?) ==> ok
    {
      if target.enabled {
        ok := Enable(Path);
      } else {
        ok := Disable(Path);
      }
      if !ok {
        return;
      }
      if target.active {
        ok := StartPath();
      } else {
        ok := Stop(Path);
      }
      if !ok {
        return;
      }
      var final, sound := Capture(Path);
      ok := final.Some? && final.value == target && sound;
    }

    /** Reads links, unit files and both units. */
    method CaptureAll() returns (c: Option<Captured>, sound: bool)
      modifies this`commands, this`passed
      ensures c.Some? ==> c.value == Visible(state) && passed == old(passed) + [Files]
      ensures old(passed) <= passed
      ensures old(Calm()) ==> Calm() && c.Some? && sound
    {
      var readable := Check(Files);
      if !readable {
        return None, false;
      }
      var service, serviceSound := Capture(Service);
      if service.None? {
        return None, false;
      }
      var path, pathSound := Capture(Path);
      if path.None? {
        return None, false;
      }
      c := Some(Captured(state.release, state.venv, state.unit, state.ingestService, state.ingestPath,
                         service.value, path.value));
      sound := serviceSound && pathSound;
    }

    /** Starts the ingest once; then its outcome, the ticket store and the recorded snapshot are checked. */
    method RunInitialIngest() returns (ok: bool)
      modifies this`state, this`commands, this`passed
      ensures state == old(state).(ingestActive := state.ingestActive)
      ensures ok ==> passed == old(passed) + [Idle, Store, Ingested] && !state.ingestActive
      ensures old(Calm()) ==> Calm() && ok
    {
      ok := RunIngest();
      if ok {
        ok := Check(Idle);
      }
      if ok {
        ok := Check(Store);
      }
      if ok {
        ok := Check(Ingested);
      }
    }

    /** The same where files, store and health were just found well. */
    method RunReadyIngest(ghost from: nat) returns (ok: bool)
      requires EndsWith(passed, [Files, Store, Health]) && from + 3 <= |passed|
      modifies this`state, this`commands, this`passed
      ensures state == old(state).(ingestActive := state.ingestActive)
      ensures ok ==> ReadyThenIngested(passed, from) && !state.ingestActive
      ensures old(Calm()) ==> Calm() && ok
    {
      ghost var n := |passed|;
      ok := RunInitialIngest();
      if ok {
        assert passed[n - 3..n + 3] == [Files, Store, Health] + [Idle, Store, Ingested];
        assert IngestAfterHealth(passed, n);
      }
    }

    /** Units and path state as the release wants them, and the snapshot recorded when there is an ingest. */
    method VerifyIngestReadiness(i: Ingest) returns (ok: bool)
      modifies this`commands, this`passed
      ensures ok ==> IngestReady(state, i) && (i.Some? ==> EndsWith(passed, [Ingested]))
      ensures old(passed) <= passed
      ensures old(Calm()) ==> Calm() && (IngestReady(state, i) ==> ok)
    {
      var readable := Check(Files);
      var path, sound := Capture(Path);
      if !readable || path.None? || !sound {
        return false;
      }
      ok := state.ingestService == ServiceUnit(i) && state.ingestPath == PathUnit(i)
            && path.value == UnitStatus(i.Some?, i.Some?);
      if ok && i.Some? {
        ok := Check(Ingested);
      }
    }
  }
}
