/** Publishing under a remote lock, one command at a time, with any number of publishers and any failures. */
module RemoteProtocol {
  import opened Wrappers
  import opened RemoteStore

  /** A locally verified snapshot: its manifest text and its object. */
  datatype Prepared = Prepared(text: Blob, snapshot: Blob, manifest: Manifest, digest: Digest)

  predicate Verified(c: Codec, p: Prepared) {
    && c.decode(p.text) == Some(p.manifest) && c.hash(p.text) == p.digest
    && c.hash(p.snapshot) == p.manifest.objectName
  }

  /** Archives to backfill in order, and the snapshot to commit as current, if any. */
  datatype Job = Job(archives: seq<Prepared>, current: Option<Prepared>)

  function Items(j: Job): seq<Prepared> {
    j.archives + if j.current.Some? then [j.current.value] else []
  }

  predicate GoodJob(c: Codec, j: Job) {
    forall i :: 0 <= i < |Items(j)| ==> Verified(c, Items(j)[i])
  }

  datatype World = World(codec: Codec, retention: nat)

  /** What one command did: whether it took effect, what it wrote, and what was reported. */
  datatype Report = Success | Nonzero | Lost

  datatype Fate = Fate(effect: bool, report: Report, written: Option<Blob>)

  /** A reported success took effect; a reported failure may have. */
  predicate Took(f: Fate) {
    f.report.Success? || f.effect
  }

  datatype Where =
    | AtLock | AtPresence | AtImmutable | AtPrevious | AtLastKnownGood | AtCurrent | AtConfirm | AtRetention | AtUnlock

  /** `committed` is None when the caller is told that the commit is unknown. */
  datatype Verdict = Returned(updated: bool) | Raised(committed: Option<bool>, at: Where)

  datatype Target =
    | ToObject(item: Prepared, i: nat)
    | ToArchive(item: Prepared, i: nat)
    | ToPrevious(item: Prepared)
    | ToLastKnownGood(item: Prepared)
    | ToCurrent(item: Prepared)

  datatype Phase = Upload | Check | Chmod | Move | Sweep(ok: bool)

  /** The next command of a publisher; a run of reads under the lock is one step. */
  datatype Pc =
    | Begin
    | Presence
    | Write(target: Target, phase: Phase)
    | LookCurrent(item: Prepared)
    | LookLastKnownGood(item: Prepared)
    | Confirm(item: Prepared)
    | Survey(item: Prepared, updated: bool)
    | DropManifests(item: Prepared, updated: bool, base: Remote, plan: Plan, left: set<Digest>)
    | Recheck(item: Prepared, updated: bool, base: Remote, plan: Plan)
    | DropObjects(item: Prepared, updated: bool, base: Remote, plan: Plan, left: set<Digest>)
    | Release(verdict: Verdict)
    | Finished(outcome: Verdict)
    | Crashed

  /** Found and written objects and archives, the commits so far, and `current` as it was when the lock was taken. */
  datatype Local = Local(
    job: Job, objects: set<Digest>, archives: set<Digest>, serial: nat, entry: Option<Blob>, pc: Pc)

  predicate InSection(pc: Pc) {
    !pc.Begin? && !pc.Finished? && !pc.Crashed?
  }

  // ----- the steps -----

  function PlaceOf(t: Target): Place {
    match t
    case ToObject(_, _) => ObjectsDir
    case ToArchive(_, _) => ManifestsDir
    case ToPrevious(_) => PreviousDir
    case ToLastKnownGood(_) => LastKnownGoodDir
    case ToCurrent(_) => CurrentDir
  }

  function WhereOf(t: Target): Where {
    match t
    case ToPrevious(_) => AtPrevious
    case ToLastKnownGood(_) => AtLastKnownGood
    case ToCurrent(_) => AtCurrent
    case _ => AtImmutable
  }

  function ExpectedHash(t: Target): Digest {
    if t.ToObject? then t.item.manifest.objectName else t.item.digest
  }

  function Key(pid: nat, l: Local, t: Target): Temp {
    Temp(PlaceOf(t), pid, l.serial)
  }

  function Fail(l: Local, committed: Option<bool>, at: Where): Local {
    l.(pc := Release(Raised(committed, at)))
  }

  /** The next missing file of the batch, then the commit of `current`. */
  function NextItem(l: Local, i: nat): Pc
    decreases |Items(l.job)| - i
  {
    if i < |Items(l.job)| then
      var item := Items(l.job)[i];
      if item.manifest.objectName !in l.objects then Write(ToObject(item, i), Upload)
      else if item.digest !in l.archives then Write(ToArchive(item, i), Upload)
      else NextItem(l, i + 1)
    else if l.job.current.Some? then LookCurrent(l.job.current.value)
    else Release(Returned(false))
  }

  function BeginStep(r: Remote, l: Local, f: Fate): (Remote, Local) {
    if !r.lock && f.report.Success? then (r.(lock := true), l.(entry := r.current, pc := Presence))
    else (r.(lock := r.lock || f.effect), l.(pc := Finished(Raised(Some(false), AtLock))))
  }

  /** Existing files of the batch are accepted only when their hash is the name they carry. */
  function PresenceStep(w: World, r: Remote, l: Local, f: Fate): Local {
    var objects := set p | p in Items(l.job) && p.manifest.objectName in r.objects :: p.manifest.objectName;
    var archives := set p | p in Items(l.job) && p.digest in r.archives :: p.digest;
    if !f.report.Success?
       || (exists d :: d in objects && w.codec.hash(r.objects[d]) != d)
       || (exists d :: d in archives && w.codec.hash(r.archives[d]) != d) then Fail(l, Some(false), AtPresence)
    else
      var found := l.(objects := objects, archives := archives);
      found.(pc := NextItem(found, 0))
  }

  function Moved(r: Remote, t: Target, content: Blob): Remote {
    match t
    case ToObject(item, _) => r.(objects := r.objects[item.manifest.objectName := content])
    case ToArchive(item, _) => r.(archives := r.archives[item.digest := content])
    case ToPrevious(_) => r.(previous := Some(content))
    case ToLastKnownGood(_) => r.(lastKnownGood := Some(content))
    case ToCurrent(_) => r.(current := Some(content))
  }

  /** Where a publisher goes on after a file was written and its temporary removed. */
  function Written(l: Local, t: Target): Local {
    match t
    case ToObject(item, i) =>
      var l' := l.(objects := l.objects + {item.manifest.objectName});
      l'.(pc := if item.digest !in l'.archives then Write(ToArchive(item, i), Upload) else NextItem(l', i + 1))
    case ToArchive(item, i) =>
      var l' := l.(archives := l.archives + {item.digest});
      l'.(pc := NextItem(l', i + 1))
    case ToPrevious(item) => l.(pc := LookLastKnownGood(item))
    case ToLastKnownGood(item) => l.(pc := Write(ToCurrent(item), Upload))
    case ToCurrent(item) => l.(pc := Confirm(item))
  }

  /** Upload or copy to a temporary, check its hash, set its mode, rename it, and remove what is left of it. */
  function WriteStep(w: World, r: Remote, pid: nat, l: Local, t: Target, phase: Phase, f: Fate): (Remote, Local) {
    var key := Key(pid, l, t);
    match phase
    case Upload =>
      var content := if t.ToPrevious? && f.report.Success? then r.current else f.written;
      (if content.Some? then r.(temps := r.temps[key := content.value]) else r,
       l.(pc := Write(t, if !f.report.Success? then Sweep(false) else if t.ToPrevious? then Chmod else Check)))
    case Check =>
      var good := f.report.Success? && key in r.temps && w.codec.hash(r.temps[key]) == ExpectedHash(t);
      (r, l.(pc := Write(t, if good then Chmod else Sweep(false))))
    case Chmod =>
      (r, l.(pc := Write(t, if f.report.Success? then Move else Sweep(false))))
    case Move =>
      if key in r.temps && Took(f) then
        (Moved(r, t, r.temps[key]).(temps := r.temps - {key}), l.(pc := Write(t, Sweep(f.report.Success?))))
      else (r, l.(pc := Write(t, Sweep(false))))
    case Sweep(ok) =>
      var l' := l.(serial := l.serial + 1);
      (if Took(f) then r.(temps := r.temps - {key}) else r,
       if ok && !f.report.Lost? then Written(l', t)
       else Fail(l', if t.ToCurrent? then None else Some(false), WhereOf(t)))
  }

  function LookCurrentStep(w: World, r: Remote, l: Local, item: Prepared, f: Fate): Local {
    if !f.report.Success? then Fail(l, Some(false), AtPrevious)
    else if r.current.None? then l.(pc := LookLastKnownGood(item))
    else if w.codec.hash(r.current.value) == item.digest then l.(pc := Survey(item, false))
    else l.(pc := Write(ToPrevious(item), Upload))
  }

  function LookLastKnownGoodStep(w: World, r: Remote, l: Local, item: Prepared, f: Fate): Local {
    if !f.report.Success? then Fail(l, Some(false), AtLastKnownGood)
    else if w.codec.isFresh(item.snapshot) || r.lastKnownGood.None? then l.(pc := Write(ToLastKnownGood(item), Upload))
    else l.(pc := Write(ToCurrent(item), Upload))
  }

  /** The last hash read: when it cannot be read the default `committed=False` is reported. */
  function ConfirmStep(w: World, r: Remote, l: Local, item: Prepared, f: Fate): Local {
    if !f.report.Success? || r.current.None? then Fail(l, Some(false), AtConfirm)
    else if w.codec.hash(r.current.value) != item.digest then Fail(l, Some(true), AtConfirm)
    else l.(pc := Survey(item, true))
  }

  predicate IsLeast(s: set<Digest>, d: Digest) {
    d in s && forall e :: e in s ==> d <= e
  }

  lemma {:induction false} LeastExists(s: set<Digest>)
    requires s != {}
    ensures exists d :: IsLeast(s, d)
  {
    var d :| d in s;
    if s == {d} {
      assert IsLeast(s, d);
    } else {
      LeastExists(s - {d});
      var e :| IsLeast(s - {d}, e);
      assert s == (s - {d}) + {d};
      assert IsLeast(s, if d < e then d else e);
    }
  }

  /** Deletions go in name order. */
  ghost function Least(s: set<Digest>): (d: Digest)
    requires s != {}
    ensures d in s
  {
    LeastExists(s);
    var d :| IsLeast(s, d);
    d
  }

  function AfterManifests(item: Prepared, updated: bool, base: Remote, plan: Plan): Pc {
    if plan.objects == {} then Release(Returned(updated)) else Recheck(item, updated, base, plan)
  }

  ghost function SurveyStep(w: World, r: Remote, l: Local, item: Prepared, updated: bool, f: Fate): Local {
    var plan := PlanOf(w.codec, r, w.retention);
    if !f.report.Success? || plan.Err? then Fail(l, Some(true), AtRetention)
    else l.(pc := if plan.value.manifests == {} then AfterManifests(item, updated, r, plan.value)
                  else DropManifests(item, updated, r, plan.value, plan.value.manifests))
  }

  ghost function DropManifestStep(w: World, r: Remote, l: Local, f: Fate): (Remote, Local)
    requires l.pc.DropManifests? && l.pc.left != {}
  {
    var pc := l.pc;
    var d, left := Least(pc.left), pc.left - {Least(pc.left)};
    var r' := if Took(f) then r.(archives := r.archives - {d}) else r;
    (r', if !f.report.Success? then Fail(l, Some(true), AtRetention)
         else if left == {} then l.(pc := AfterManifests(pc.item, pc.updated, pc.base, pc.plan))
         else l.(pc := DropManifests(pc.item, pc.updated, pc.base, pc.plan, left)))
  }

  /** Before objects go, the remaining manifests and the pointers are read once more. */
  predicate Unchanged(base: Remote, plan: Plan, r: Remote) {
    && r.archives == base.archives - plan.manifests && r.temps == map[]
    && r.current == base.current && r.previous == base.previous && r.lastKnownGood == base.lastKnownGood
  }

  function RecheckStep(r: Remote, l: Local, f: Fate): Local
    requires l.pc.Recheck?
  {
    var pc := l.pc;
    if !f.report.Success? || !Unchanged(pc.base, pc.plan, r) then Fail(l, Some(true), AtRetention)
    else l.(pc := DropObjects(pc.item, pc.updated, pc.base, pc.plan, pc.plan.objects))
  }

  ghost function DropObjectStep(w: World, r: Remote, l: Local, f: Fate): (Remote, Local)
    requires l.pc.DropObjects? && l.pc.left != {}
  {
    var pc := l.pc;
    var d, left := Least(pc.left), pc.left - {Least(pc.left)};
    var r' := if Took(f) then r.(objects := r.objects - {d}) else r;
    (r', if !f.report.Success? then Fail(l, Some(true), AtRetention)
         else if left == {} then l.(pc := Release(Returned(pc.updated)))
         else l.(pc := DropObjects(pc.item, pc.updated, pc.base, pc.plan, left)))
  }

  /** The lock is always given back; failing to do so turns a success into an error that says `committed`. */
  function ReleaseStep(r: Remote, l: Local, v: Verdict, f: Fate): (Remote, Local) {
    (r.(lock := r.lock && !Took(f)),
     l.(pc := Finished(if !f.report.Success? && v.Returned? then Raised(Some(true), AtUnlock) else v)))
  }

  ghost function StepOf(w: World, r: Remote, pid: nat, l: Local, f: Fate): (Remote, Local) {
    match l.pc
    case Begin => BeginStep(r, l, f)
    case Presence => (r, PresenceStep(w, r, l, f))
    case Write(t, phase) => WriteStep(w, r, pid, l, t, phase, f)
    case LookCurrent(item) => (r, LookCurrentStep(w, r, l, item, f))
    case LookLastKnownGood(item) => (r, LookLastKnownGoodStep(w, r, l, item, f))
    case Confirm(item) => (r, ConfirmStep(w, r, l, item, f))
    case Survey(item, updated) => (r, SurveyStep(w, r, l, item, updated, f))
    case DropManifests(_, _, _, _, left) => if left == {} then (r, l) else DropManifestStep(w, r, l, f)
    case Recheck(_, _, _, _) => (r, RecheckStep(r, l, f))
    case DropObjects(_, _, _, _, left) => if left == {} then (r, l) else DropObjectStep(w, r, l, f)
    case Release(v) => ReleaseStep(r, l, v, f)
    case Finished(_) => (r, l)
    case Crashed => (r, l)
  }

  /** Store and publisher after `n` commands whose outcomes are given. */
  ghost function After(w: World, r: Remote, pid: nat, l: Local, script: nat -> Fate, n: nat): (Remote, Local) {
    if n == 0 then (r, l)
    else
      var (r', l') := After(w, r, pid, l, script, n - 1);
      StepOf(w, r', pid, l', script(n - 1))
  }

  // ----- systems of publishers -----

  datatype System = System(remote: Remote, procs: map<nat, Local>)

  datatype Event =
    | Spawn(pid: nat, job: Job)
    | Step(pid: nat, fate: Fate)
    | Crash(pid: nat)

  function Fresh(job: Job): Local {
    Local(job, {}, {}, 0, None, Begin)
  }

  ghost function Act(w: World, s: System, e: Event): System {
    match e
    case Spawn(pid, job) =>
      if pid in s.procs then s else s.(procs := s.procs[pid := Fresh(job)])
    case Step(pid, f) =>
      if pid !in s.procs then s
      else
        var (r, l) := StepOf(w, s.remote, pid, s.procs[pid], f);
        System(r, s.procs[pid := l])
    case Crash(pid) =>
      if pid !in s.procs || s.procs[pid].pc.Finished? then s
      else s.(procs := s.procs[pid := s.procs[pid].(pc := Crashed)])
  }

  ghost function Run(w: World, events: seq<Event>): System {
    if events == [] then System(EMPTY, map[])
    else Act(w, Run(w, events[..|events| - 1]), events[|events| - 1])
  }
}
