/** One publisher that nobody interferes with: what its answer tells, and that without a fault it returns. */
module RemoteSolo {
  import opened Wrappers
  import opened RemoteStore
  import opened RemoteProtocol
  import opened RemoteSafety
  import opened RemoteGuarantees

  // ----- one publish that nobody interferes with -----

  /** What an outcome tells about `current`, given what it was before. */
  predicate Tells(was: Option<Blob>, now: Option<Blob>, text: Blob, outcome: Verdict) {
    match outcome
    case Returned(_) => now == Some(text)
    case Raised(committed, at) =>
      && (committed == Some(true) ==> now == Some(text))
      && (committed == Some(false) ==> if at.AtConfirm? then now == Some(text) && was != now else now == was)
      && (committed == None ==> now == was || now == Some(text))
  }

  ghost predicate Solo(w: World, was: Option<Blob>, r: Remote, pid: nat, l: Local) {
    && Inv(w, System(r, map[pid := l]))
    && (l.pc.Begin? ==> r.current == was)
    && (InSection(l.pc) ==> l.entry == was)
    && (l.pc.Finished? && l.job.current.Some? ==> Tells(was, r.current, l.job.current.value.text, l.pc.outcome))
  }

  lemma SoloStep(w: World, was: Option<Blob>, r: Remote, pid: nat, l: Local, f: Fate)
    requires Injective(w.codec) && Solo(w, was, r, pid, l) && !l.pc.Crashed?
    ensures var (r', l') := StepOf(w, r, pid, l, f); Solo(w, was, r', pid, l') && !l'.pc.Crashed?
  {
    var s := System(r, map[pid := l]);
    assert s.procs[pid := StepOf(w, r, pid, l, f).1] == map[pid := StepOf(w, r, pid, l, f).1];
    EntryStays(w, r, pid, l, f);
    if l.pc.Release? && l.job.current.Some? {
      AnswersAreTrue(w, s, pid, f);
    }
    hide Inv, StepOf;
    ActKeepsInv(w, s, Step(pid, f));
  }

  lemma EntryStays(w: World, r: Remote, pid: nat, l: Local, f: Fate)
    ensures var (r', l') := StepOf(w, r, pid, l, f);
            && l'.job == l.job
            && (InSection(l.pc) ==> l'.entry == l.entry)
            && (l.pc.Begin? && InSection(l'.pc) ==> l'.entry == r.current)
            && (l.pc.Begin? ==>
                  && r'.current == r.current
                  && (InSection(l'.pc) || l'.pc == Finished(Raised(Some(false), AtLock))))
            && (l'.pc.Finished? && !l.pc.Finished? ==> l.pc.Begin? || l.pc.Release?)
            && (l.pc.Finished? ==> (r', l') == (r, l))
            && (!l.pc.Begin? ==> !l'.pc.Begin?)
            && (!l.pc.Crashed? ==> !l'.pc.Crashed?)
  {
    hide PlanOf, Moved;
    if l.pc.Write? && l.pc.phase.Sweep? && l.pc.phase.ok {
      WrittenStays(l.(serial := l.serial + 1), l.pc.target);
      hide Written;
    } else if l.pc.Presence? {
      PresenceStays(w, r, l, f);
      hide PresenceStep;
    }
  }

  lemma {:induction false} NextItemIsInSection(l: Local, i: nat)
    ensures InSection(NextItem(l, i))
    decreases |Items(l.job)| - i
  {
    if i < |Items(l.job)| {
      NextItemIsInSection(l, i + 1);
    }
  }

  lemma WrittenStays(l: Local, t: Target)
    ensures Written(l, t).job == l.job && Written(l, t).entry == l.entry && InSection(Written(l, t).pc)
  {
    hide NextItem;
    if t.ToObject? {
      NextItemIsInSection(l.(objects := l.objects + {t.item.manifest.objectName}), t.i + 1);
    } else if t.ToArchive? {
      NextItemIsInSection(l.(archives := l.archives + {t.item.digest}), t.i + 1);
    }
  }

  lemma PresenceStays(w: World, r: Remote, l: Local, f: Fate)
    ensures var l' := PresenceStep(w, r, l, f); l'.job == l.job && l'.entry == l.entry && InSection(l'.pc)
  {
    hide NextItem;
    var l' := PresenceStep(w, r, l, f);
    if l' != Fail(l, Some(false), AtPresence) {
      NextItemIsInSection(l.(objects := l'.objects, archives := l'.archives), 0);
    }
  }

  lemma {:induction false} SoloRun(w: World, store: Remote, pid: nat, job: Job, script: nat -> Fate, n: nat)
    requires Injective(w.codec) && Sound(w.codec, store) && GoodJob(w.codec, job)
    ensures var (r, l) := After(w, store, pid, Fresh(job), script, n);
            Solo(w, store.current, r, pid, l) && !l.pc.Crashed? && l.job == job
  {
    hide Sound, GoodJob, StepOf, Solo;
    if n == 0 {
      assert Solo(w, store.current, store, pid, Fresh(job)) by { SoloStart(w, store, pid, job); }
    } else {
      SoloRun(w, store, pid, job, script, n - 1);
      var (r, l) := After(w, store, pid, Fresh(job), script, n - 1);
      SoloStep(w, store.current, r, pid, l, script(n - 1));
      EntryStays(w, r, pid, l, script(n - 1));
    }
  }

  lemma SoloStart(w: World, store: Remote, pid: nat, job: Job)
    requires Sound(w.codec, store) && GoodJob(w.codec, job)
    ensures Solo(w, store.current, store, pid, Fresh(job))
  {
    hide Sound, GoodJob, LocalOk;
  }

  // ----- without a fault -----

  /** The file and the text that a write other than the copy of `current` is to put in place. */
  function Sent(t: Target): Blob {
    if t.ToObject? then t.item.snapshot else t.item.text
  }

  /** Every command reports success, and every upload lands what was sent. */
  ghost predicate FaultFree(w: World, store: Remote, pid: nat, job: Job, script: nat -> Fate) {
    forall n :: script(n).report.Success? && Lands(After(w, store, pid, Fresh(job), script, n).1.pc, script(n))
  }

  predicate Lands(pc: Pc, f: Fate) {
    pc.Write? && pc.phase.Upload? && !pc.target.ToPrevious? ==> f.written == Some(Sent(pc.target))
  }

  /** On the way to a return: temporary files are there only while they are checked and renamed. */
  ghost predicate Smooth(w: World, r: Remote, pid: nat, l: Local) {
    if l.pc.Write? then
      match l.pc.phase
      case Upload => r.temps == map[]
      case Check => TempIsSent(w, r, pid, l, l.pc.target)
      case Sweep(ok) => ok && r.temps == map[]
      case _ => r.temps.Keys == {Key(pid, l, l.pc.target)}
    else r.temps == map[] && (l.pc.Release? ==> l.pc.verdict.Returned?)
  }

  ghost predicate TempIsSent(w: World, r: Remote, pid: nat, l: Local, t: Target) {
    r.temps.Keys == {Key(pid, l, t)} && r.temps[Key(pid, l, t)] == Sent(t)
  }

  // ----- a measure that every step lowers -----

  function PhasesLeft(phase: Phase): nat {
    match phase
    case Upload => 5
    case Check => 4
    case Chmod => 3
    case Move => 2
    case Sweep(_) => 1
  }

  function Stage(pc: Pc): nat {
    match pc
    case Begin => 14
    case Presence => 13
    case Write(ToObject(_, _), _) => 12
    case Write(ToArchive(_, _), _) => 12
    case LookCurrent(_) => 11
    case Write(ToPrevious(_), _) => 10
    case LookLastKnownGood(_) => 9
    case Write(ToLastKnownGood(_), _) => 8
    case Write(ToCurrent(_), _) => 7
    case Confirm(_) => 6
    case Survey(_, _) => 5
    case DropManifests(_, _, _, _, _) => 4
    case Recheck(_, _, _, _) => 3
    case DropObjects(_, _, _, _, _) => 2
    case Release(_) => 1
    case _ => 0
  }

  /** What is left to do within a stage. */
  function Left(job: Job, pc: Pc): nat {
    match pc
    case Write(ToObject(_, i), phase) => ItemsLeft(job, i) + 6 + PhasesLeft(phase)
    case Write(ToArchive(_, i), phase) => ItemsLeft(job, i) + PhasesLeft(phase)
    case Write(_, phase) => PhasesLeft(phase)
    case DropManifests(_, _, _, _, left) => |left|
    case DropObjects(_, _, _, _, left) => |left|
    case _ => 0
  }

  function ItemsLeft(job: Job, i: nat): nat {
    if i < |Items(job)| then 12 * (|Items(job)| - i) else 0
  }

  predicate Lower(job: Job, pc: Pc, than: Pc) {
    Stage(pc) < Stage(than) || (Stage(pc) == Stage(than) && Left(job, pc) < Left(job, than))
  }

  lemma {:induction false} NextItemIsLower(l: Local, i: nat)
    ensures var pc := NextItem(l, i);
            && InSection(pc) && (pc.Write? ==> pc.phase == Upload) && (pc.Release? ==> pc.verdict.Returned?)
            && !pc.Presence? && Stage(pc) <= 12 && (Stage(pc) == 12 ==> i < |Items(l.job)|)
            && (Stage(pc) == 12 ==> Left(l.job, pc) <= ItemsLeft(l.job, i) + 11)
    decreases |Items(l.job)| - i
  {
    if i < |Items(l.job)| {
      NextItemIsLower(l, i + 1);
    }
  }

  lemma WrittenIsLower(w: World, r: Remote, pid: nat, l: Local, t: Target)
    requires TargetOk(w, r, l, t, Sweep(true)) && r.temps == map[]
    ensures Smooth(w, r, pid, Written(l, t)) && Lower(l.job, Written(l, t).pc, Write(t, Sweep(true)))
  {
    hide NextItem, TargetOk;
    match t
    case ToObject(item, i) =>
      NextItemIsLower(l.(objects := l.objects + {item.manifest.objectName}), i + 1);
      ItemInRange(w, r, l, t);
    case ToArchive(item, i) =>
      NextItemIsLower(l.(archives := l.archives + {item.digest}), i + 1);
      ItemInRange(w, r, l, t);
    case _ =>
  }

  lemma ItemInRange(w: World, r: Remote, l: Local, t: Target)
    requires TargetOk(w, r, l, t, Sweep(true)) && (t.ToObject? || t.ToArchive?)
    ensures t.i < |Items(l.job)|
  {
  }

  // ----- every step of the way is smooth -----

  lemma SmoothWrite(w: World, r: Remote, pid: nat, l: Local, f: Fate)
    requires Ready(w, r, pid, l) && l.pc.Write? && Smooth(w, r, pid, l) && f.report.Success? && Lands(l.pc, f)
    ensures var (r', l') := WriteStep(w, r, pid, l, l.pc.target, l.pc.phase, f);
            Smooth(w, r', pid, l') && Lower(l.job, l'.pc, l.pc)
  {
    hide Sound, GoodJob, Injective, Moved, Written, NextItem;
    var t := l.pc.target;
    match l.pc.phase
    case Upload =>
    case Check =>
      TargetVerified(w, r, l, t, Check);
    case Chmod =>
    case Move =>
      MovedKeepsTheTemps(r, t, r.temps[Key(pid, l, t)]);
      assert r.temps - {Key(pid, l, t)} == map[];
    case Sweep(_) =>
      assert r.temps - {Key(pid, l, t)} == map[];
      assert TargetOk(w, r, l.(serial := l.serial + 1), t, Sweep(true));
      WrittenIsLower(w, r, pid, l.(serial := l.serial + 1), t);
      assert r.(temps := r.temps - {Key(pid, l, t)}) == r;
  }

  lemma MovedKeepsTheTemps(r: Remote, t: Target, content: Blob)
    ensures Moved(r, t, content).temps == r.temps
  {
  }

  lemma SmoothPresence(w: World, r: Remote, pid: nat, l: Local, f: Fate)
    requires Sound(w.codec, r) && l.pc.Presence? && r.temps == map[] && f.report.Success?
    ensures var l' := PresenceStep(w, r, l, f); Smooth(w, r, pid, l') && Lower(l.job, l'.pc, l.pc)
  {
    hide NextItem;
    var l' := PresenceStep(w, r, l, f);
    NextItemIsLower(l.(objects := l'.objects, archives := l'.archives), 0);
  }

  lemma SmoothDeletion(w: World, r: Remote, pid: nat, l: Local, f: Fate)
    requires Ready(w, r, pid, l) && r.temps == map[] && f.report.Success?
    requires l.pc.DropManifests? || l.pc.Recheck? || l.pc.DropObjects?
    ensures var (r', l') := StepOf(w, r, pid, l, f); Smooth(w, r', pid, l') && Lower(l.job, l'.pc, l.pc)
  {
    hide Sound, GoodJob, Injective, PlanOf;
    if l.pc.DropManifests? || l.pc.DropObjects? {
      assert |l.pc.left - {Least(l.pc.left)}| == |l.pc.left| - 1;
    }
  }

  lemma SmoothCommit(w: World, r: Remote, pid: nat, l: Local, f: Fate)
    requires Ready(w, r, pid, l) && r.temps == map[] && f.report.Success?
    requires l.pc.LookCurrent? || l.pc.LookLastKnownGood? || l.pc.Confirm?
    ensures var (r', l') := StepOf(w, r, pid, l, f); Smooth(w, r', pid, l') && Lower(l.job, l'.pc, l.pc)
  {
    CurrentVerified(w, l.job);
    hide Sound, GoodJob, Injective, PlanOf, Lower;
    var l' := StepOf(w, r, pid, l, f).1;
    CommitIsLower(l.job, l'.pc, l.pc);
  }

  lemma CommitIsLower(job: Job, pc: Pc, than: Pc)
    requires match than
             case LookCurrent(_) => pc.LookLastKnownGood? || pc.Survey? || (pc.Write? && pc.target.ToPrevious?)
             case LookLastKnownGood(_) => pc.Write? && (pc.target.ToLastKnownGood? || pc.target.ToCurrent?)
             case Confirm(_) => pc.Survey?
             case _ => false
    ensures Lower(job, pc, than)
  {
  }

  lemma SmoothSurvey(w: World, r: Remote, pid: nat, l: Local, f: Fate)
    requires Sound(w.codec, r) && r.temps == map[] && r.current.Some? && f.report.Success? && l.pc.Survey?
    ensures var l' := SurveyStep(w, r, l, l.pc.item, l.pc.updated, f);
            Smooth(w, r, pid, l') && Lower(l.job, l'.pc, l.pc)
  {
    SoundStoreIsPrunable(w.codec, r, w.retention);
    hide Sound, PlanOf, AfterManifests, Lower;
    var plan, l' := PlanOf(w.codec, r, w.retention), SurveyStep(w, r, l, l.pc.item, l.pc.updated, f);
    AfterManifestsGoesOn(l.pc.item, l.pc.updated, r, plan.value);
    assert l'.pc.DropManifests? || l'.pc.Recheck? || l'.pc == Release(Returned(l.pc.updated));
    AfterSurvey(l.job, l'.pc, l.pc);
  }

  lemma AfterSurvey(job: Job, pc: Pc, than: Pc)
    requires than.Survey? && (pc.DropManifests? || pc.Recheck? || pc.Release?)
    ensures Lower(job, pc, than)
  {
  }

  lemma AfterManifestsGoesOn(item: Prepared, updated: bool, base: Remote, plan: Plan)
    ensures var pc := AfterManifests(item, updated, base, plan); pc.Recheck? || pc == Release(Returned(updated))
  {
  }

  lemma SurveyHasCurrent(w: World, r: Remote, pid: nat, l: Local)
    requires Ready(w, r, pid, l) && l.pc.Survey?
    ensures r.current.Some? && Sound(w.codec, r)
  {
    hide Sound, GoodJob, Injective;
  }

  /** Before its last command every step of an undisturbed, fault-free publisher stays on the way. */
  lemma SmoothStep(w: World, r: Remote, pid: nat, l: Local, f: Fate)
    requires Ready(w, r, pid, l) && InSection(l.pc) && !l.pc.Release? && Smooth(w, r, pid, l)
    requires f.report.Success? && Lands(l.pc, f)
    ensures var (r', l') := StepOf(w, r, pid, l, f); Smooth(w, r', pid, l') && Lower(l.job, l'.pc, l.pc)
  {
    if l.pc.Write? {
      SmoothWrite(w, r, pid, l, f);
    } else if l.pc.Presence? {
      SmoothPresence(w, r, pid, l, f);
    } else if l.pc.DropManifests? || l.pc.Recheck? || l.pc.DropObjects? {
      SmoothDeletion(w, r, pid, l, f);
    } else if l.pc.Survey? {
      SurveyHasCurrent(w, r, pid, l);
      SmoothSurvey(w, r, pid, l, f);
    } else {
      SmoothCommit(w, r, pid, l, f);
    }
    hide Ready, WriteStep, PresenceStep, Lower, Lands, SurveyStep, LookCurrentStep, LookLastKnownGoodStep, ConfirmStep;
  }

  // ----- a fault-free publish returns -----

  ghost function PcAt(w: World, store: Remote, pid: nat, job: Job, script: nat -> Fate, n: nat): Pc {
    After(w, store, pid, Fresh(job), script, n).1.pc
  }

  /** Where a fault-free publish ends: the lock is free again, nothing is left over, and `current` is the snapshot
      to publish, which counts as an update exactly when it was not `current` before. */
  ghost predicate ReturnsWell(w: World, store: Remote, job: Job, r: Remote, pc: Pc) {
    && pc == Finished(Returned(job.current.Some? && store.current != Some(job.current.value.text)))
    && !r.lock && r.temps == map[] && Sound(w.codec, r)
    && r.current == if job.current.Some? then Some(job.current.value.text) else store.current
  }

  lemma LastStepReturns(w: World, store: Remote, pid: nat, job: Job, r: Remote, l: Local, f: Fate)
    requires Ready(w, r, pid, l) && l.pc.Release? && Smooth(w, r, pid, l) && f.report.Success?
    requires l.job == job && l.entry == store.current
    ensures var (r', l') := StepOf(w, r, pid, l, f); ReturnsWell(w, store, job, r', l'.pc)
  {
    TempsAndLockDoNotMatter(w, r, r.temps, false, job);
    hide Sound, GoodJob, Injective, PlanOf;
  }

  lemma OnTheWay(w: World, store: Remote, pid: nat, job: Job, script: nat -> Fate, n: nat)
    requires Injective(w.codec) && Sound(w.codec, store) && GoodJob(w.codec, job)
    requires InSection(PcAt(w, store, pid, job, script, n))
    ensures var (r, l) := After(w, store, pid, Fresh(job), script, n);
            Ready(w, r, pid, l) && l.job == job && l.entry == store.current
  {
    SoloRun(w, store, pid, job, script, n);
    hide After, Sound, GoodJob, LocalOk, Injective;
    var (r, l) := After(w, store, pid, Fresh(job), script, n);
    assert Holds(System(r, map[pid := l]), pid);
  }

  /** The state after `n` commands is one from which an undisturbed, fault-free publisher returns. */
  ghost predicate Underway(w: World, store: Remote, pid: nat, job: Job, script: nat -> Fate, n: nat) {
    var (r, l) := After(w, store, pid, Fresh(job), script, n);
    InSection(l.pc) && Smooth(w, r, pid, l)
  }

  lemma OneStepOn(w: World, store: Remote, pid: nat, job: Job, script: nat -> Fate, n: nat)
    requires Injective(w.codec) && Sound(w.codec, store) && GoodJob(w.codec, job)
    requires FaultFree(w, store, pid, job, script) && Underway(w, store, pid, job, script, n)
    ensures var pc, pc' := PcAt(w, store, pid, job, script, n), PcAt(w, store, pid, job, script, n + 1);
            if pc.Release? then ReturnsWell(w, store, job, After(w, store, pid, Fresh(job), script, n + 1).0, pc')
            else Underway(w, store, pid, job, script, n + 1) && Lower(job, pc', pc)
  {
    hide Sound, GoodJob, Injective, StepOf, Smooth, Ready, ReturnsWell, Lower;
    OnTheWay(w, store, pid, job, script, n);
    var (r, l) := After(w, store, pid, Fresh(job), script, n);
    assert script(n).report.Success? && Lands(l.pc, script(n));
    if l.pc.Release? {
      LastStepReturns(w, store, pid, job, r, l, script(n));
    } else {
      SmoothStep(w, r, pid, l, script(n));
      StaysInSection(w, r, pid, l, script(n));
    }
  }

  lemma {:induction false} Proceeds(w: World, store: Remote, pid: nat, job: Job, script: nat -> Fate, n: nat)
    returns (m: nat)
    requires Injective(w.codec) && Sound(w.codec, store) && GoodJob(w.codec, job)
    requires FaultFree(w, store, pid, job, script) && Underway(w, store, pid, job, script, n)
    ensures var (r, l) := After(w, store, pid, Fresh(job), script, m); ReturnsWell(w, store, job, r, l.pc)
    decreases Stage(PcAt(w, store, pid, job, script, n)), Left(job, PcAt(w, store, pid, job, script, n))
  {
    hide Sound, GoodJob, Injective, After, ReturnsWell, Left, Stage, Underway, FaultFree;
    OneStepOn(w, store, pid, job, script, n);
    m := n + 1;
    if !PcAt(w, store, pid, job, script, n).Release? {
      m := Proceeds(w, store, pid, job, script, n + 1);
    }
  }

  /** A publisher alone on a sound store with a free lock and nothing left over, whose commands all succeed and
      whose uploads all land: after finitely many commands it returns, has given back the lock, left nothing behind,
      and tells truly whether it updated `current`. */
  lemma FaultFreePublishReturns(w: World, store: Remote, pid: nat, job: Job, script: nat -> Fate) returns (n: nat)
    requires Injective(w.codec) && Sound(w.codec, store) && GoodJob(w.codec, job)
    requires !store.lock && store.temps == map[] && FaultFree(w, store, pid, job, script)
    ensures var (r, l) := After(w, store, pid, Fresh(job), script, n); ReturnsWell(w, store, job, r, l.pc)
  {
    hide Sound, GoodJob, Injective, ReturnsWell;
    assert After(w, store, pid, Fresh(job), script, 0) == (store, Fresh(job));
    assert script(0).report.Success?;
    var (r, l) := After(w, store, pid, Fresh(job), script, 1);
    assert l.pc.Presence? && r.temps == map[];
    n := Proceeds(w, store, pid, job, script, 1);
  }

  // ----- such runs exist, and they end once -----

  function IdealFate(pc: Pc): Fate {
    Fate(true, Success, if pc.Write? then Some(Sent(pc.target)) else None)
  }

  ghost function Ideal(w: World, store: Remote, pid: nat, job: Job, n: nat): (Remote, Local) {
    if n == 0 then (store, Fresh(job))
    else
      var (r, l) := Ideal(w, store, pid, job, n - 1);
      StepOf(w, r, pid, l, IdealFate(l.pc))
  }

  lemma {:induction false} FollowsIdeal(w: World, store: Remote, pid: nat, job: Job, script: nat -> Fate, n: nat)
    requires forall m :: script(m) == IdealFate(Ideal(w, store, pid, job, m).1.pc)
    ensures After(w, store, pid, Fresh(job), script, n) == Ideal(w, store, pid, job, n)
  {
    hide After, Ideal, IdealFate;
    if n > 0 {
      FollowsIdeal(w, store, pid, job, script, n - 1);
      assert script(n - 1) == IdealFate(Ideal(w, store, pid, job, n - 1).1.pc);
    }
    StepsAreIdeal(w, store, pid, job, script, n);
  }

  lemma StepsAreIdeal(w: World, store: Remote, pid: nat, job: Job, script: nat -> Fate, n: nat)
    requires n > 0 ==>
               && After(w, store, pid, Fresh(job), script, n - 1) == Ideal(w, store, pid, job, n - 1)
               && script(n - 1) == IdealFate(Ideal(w, store, pid, job, n - 1).1.pc)
    ensures After(w, store, pid, Fresh(job), script, n) == Ideal(w, store, pid, job, n)
  {
    hide StepOf;
  }

  lemma FaultFreeScriptExists(w: World, store: Remote, pid: nat, job: Job) returns (script: nat -> Fate)
    ensures FaultFree(w, store, pid, job, script)
  {
    hide Ideal, After;
    script := (m: nat) => IdealFate(Ideal(w, store, pid, job, m).1.pc);
    forall n ensures script(n).report.Success? && Lands(After(w, store, pid, Fresh(job), script, n).1.pc, script(n)) {
      FollowsIdeal(w, store, pid, job, script, n);
    }
  }

  lemma {:induction false} FinishedStays(
    w: World, store: Remote, pid: nat, job: Job, script: nat -> Fate, m: nat, n: nat)
    requires m <= n && PcAt(w, store, pid, job, script, m).Finished?
    ensures After(w, store, pid, Fresh(job), script, n) == After(w, store, pid, Fresh(job), script, m)
    decreases n - m
  {
    hide StepOf;
    if m < n {
      FinishedStays(w, store, pid, job, script, m, n - 1);
      var (r, l) := After(w, store, pid, Fresh(job), script, n - 1);
      EntryStays(w, r, pid, l, script(n - 1));
    }
  }

  /** A sound store with a free lock and nothing left over, a verified job, and a run without a fault. */
  ghost predicate Undisturbed(w: World, store: Remote, pid: nat, job: Job, script: nat -> Fate) {
    && Injective(w.codec) && Sound(w.codec, store) && GoodJob(w.codec, job)
    && !store.lock && store.temps == map[] && FaultFree(w, store, pid, job, script)
  }

  /** However the publisher got to its end, it is the end of the undisturbed run. */
  lemma UndisturbedEnd(w: World, store: Remote, pid: nat, job: Job, script: nat -> Fate, n: nat)
    requires Undisturbed(w, store, pid, job, script) && PcAt(w, store, pid, job, script, n).Finished?
    ensures var (r, l) := After(w, store, pid, Fresh(job), script, n); ReturnsWell(w, store, job, r, l.pc)
  {
    hide After, Sound, Injective, GoodJob, FaultFree;
    var m := FaultFreePublishReturns(w, store, pid, job, script);
    if m <= n {
      FinishedStays(w, store, pid, job, script, m, n);
    } else {
      FinishedStays(w, store, pid, job, script, n, m);
    }
  }
}
