/** What every interleaving of publishers keeps. */
module RemoteSafety {
  import opened Wrappers
  import opened RemoteStore
  import opened RemoteProtocol

  // ----- what the holder of the lock knows, command by command -----

  /** Nothing recorded as present is missing. */
  predicate Knows(r: Remote, l: Local) {
    l.objects <= r.objects.Keys && l.archives <= r.archives.Keys
  }

  predicate Recorded(l: Local, p: Prepared) {
    p.manifest.objectName in l.objects && p.digest in l.archives
  }

  predicate RecordedTo(l: Local, i: nat) {
    i <= |Items(l.job)| && forall j :: 0 <= j < i ==> Recorded(l, Items(l.job)[j])
  }

  /** Its files are recorded, and what is recorded is there. */
  predicate Held(r: Remote, l: Local, p: Prepared) {
    Knows(r, l) && Recorded(l, p)
  }

  function ContentOf(r: Remote, t: Target): Option<Blob> {
    match t
    case ToObject(item, _) => Some(item.snapshot)
    case ToPrevious(_) => r.current
    case _ => Some(t.item.text)
  }

  /** Between the hash check and the rename the temporary holds exactly what is to be published. */
  predicate Staged(r: Remote, pid: nat, l: Local, t: Target, phase: Phase) {
    phase.Chmod? || phase.Move? ==> Key(pid, l, t) in r.temps && Some(r.temps[Key(pid, l, t)]) == ContentOf(r, t)
  }

  predicate PreviousKept(r: Remote, l: Local, item: Prepared) {
    l.entry.Some? && l.entry != Some(item.text) ==> r.previous == l.entry
  }

  predicate TargetOk(w: World, r: Remote, l: Local, t: Target, phase: Phase) {
    match t
    case ToObject(item, i) =>
      && i < |Items(l.job)| && Items(l.job)[i] == item
      && Knows(r, l) && RecordedTo(l, i) && r.current == l.entry
      && (phase == Sweep(true) ==> item.manifest.objectName in r.objects)
    case ToArchive(item, i) =>
      && i < |Items(l.job)| && Items(l.job)[i] == item
      && Knows(r, l) && RecordedTo(l, i) && r.current == l.entry && item.manifest.objectName in l.objects
      && (phase == Sweep(true) ==> item.digest in r.archives)
    case ToPrevious(item) =>
      && l.job.current == Some(item) && Held(r, l, item)
      && r.current == l.entry && l.entry.Some? && l.entry != Some(item.text)
      && (phase == Sweep(true) ==> r.previous == l.entry)
    case ToLastKnownGood(item) =>
      && l.job.current == Some(item) && Held(r, l, item)
      && r.current == l.entry && l.entry != Some(item.text) && PreviousKept(r, l, item)
      && (phase.Sweep? || w.codec.isFresh(item.snapshot) || r.lastKnownGood.None?)
    case ToCurrent(item) =>
      && l.job.current == Some(item) && Held(r, l, item)
      && l.entry != Some(item.text) && PreviousKept(r, l, item)
      && (r.current == l.entry || (phase.Sweep? && r.current == Some(item.text)))
      && (phase == Sweep(true) ==> r.current == Some(item.text))
  }

  /** After the commit point: `current` is the published manifest. */
  predicate Committed(r: Remote, l: Local, item: Prepared, updated: bool) {
    && l.job.current == Some(item) && r.current == Some(item.text)
    && (updated <==> l.entry != Some(item.text)) && PreviousKept(r, l, item)
  }

  ghost predicate Pruning(w: World, r: Remote, base: Remote, plan: Plan, manifests: set<Digest>, objects: set<Digest>) {
    && Sound(w.codec, base) && PlanOf(w.codec, base, w.retention) == Ok(plan)
    && manifests <= plan.manifests && objects <= plan.objects
    && r == Pruned(base, manifests, objects)
  }

  /** What a verdict means while the lock is still held. */
  ghost predicate Means(w: World, r: Remote, l: Local, v: Verdict) {
    match v
    case Returned(updated) =>
      if l.job.current.Some? then
        && Committed(r, l, l.job.current.value, updated)
        && PlanOf(w.codec, r, w.retention) == Ok(Plan({}, {}))
      else !updated && r.current == l.entry
    case Raised(committed, at) =>
      if committed == Some(true) || (at.AtConfirm? && committed == Some(false)) then
        && l.job.current.Some? && r.current == Some(l.job.current.value.text)
        && (committed == Some(false) ==> r.current != l.entry)
      else
        r.current == l.entry
        || (committed == None && l.job.current.Some? && r.current == Some(l.job.current.value.text))
  }

  ghost predicate LocalOk(w: World, r: Remote, pid: nat, l: Local) {
    match l.pc
    case Presence => r.current == l.entry
    case Write(t, phase) =>
      Staged(r, pid, l, t, phase) && TargetOk(w, r, l, t, phase) && !(t.ToPrevious? && phase.Check?)
    case LookCurrent(item) => l.job.current == Some(item) && Held(r, l, item) && r.current == l.entry
    case LookLastKnownGood(item) =>
      && l.job.current == Some(item) && Held(r, l, item)
      && r.current == l.entry && l.entry != Some(item.text) && PreviousKept(r, l, item)
    case Confirm(item) => Committed(r, l, item, true) && Knows(r, l)
    case Survey(item, updated) => Committed(r, l, item, updated) && Knows(r, l)
    case DropManifests(item, updated, base, plan, left) =>
      && Committed(r, l, item, updated)
      && left != {} && left <= plan.manifests && Pruning(w, r, base, plan, plan.manifests - left, {})
    case Recheck(item, updated, base, plan) =>
      Committed(r, l, item, updated) && plan.objects != {} && Pruning(w, r, base, plan, plan.manifests, {})
    case DropObjects(item, updated, base, plan, left) =>
      && Committed(r, l, item, updated)
      && left != {} && left <= plan.objects && Pruning(w, r, base, plan, plan.manifests, plan.objects - left)
    case Release(v) => Means(w, r, l, v)
    case _ => true
  }

  // ----- what a step may do to the pointers -----

  predicate NamesFresh(c: Codec, r: Remote, b: Blob) {
    Resolves(c, r.objects, b) && c.isFresh(r.objects[c.decode(b).value.objectName])
  }

  predicate Replaces(was: Option<Blob>, now: Option<Blob>, job: Job) {
    now == was || (job.current.Some? && now == Some(job.current.value.text))
  }

  /** `current` and `last_known_good` only ever become the manifest being published, `previous` what
      `current` is; and a fresh last known good stays fresh. */
  ghost predicate Moves(w: World, r: Remote, r': Remote, job: Job) {
    && Replaces(r.current, r'.current, job)
    && Replaces(r.lastKnownGood, r'.lastKnownGood, job)
    && (r'.previous == r.previous || (r.current.Some? && r'.previous == r.current))
    && (r.lastKnownGood.Some? && NamesFresh(w.codec, r, r.lastKnownGood.value) ==>
          NamesFresh(w.codec, r', r'.lastKnownGood.value))
  }

  ghost predicate StepOk(w: World, r: Remote, pid: nat, l: Local, r': Remote, l': Local) {
    && Sound(w.codec, r') && l'.job == l.job && Moves(w, r, r', l.job)
    && (InSection(l'.pc) ==> r'.lock && LocalOk(w, r', pid, l'))
  }

  ghost predicate Ready(w: World, r: Remote, pid: nat, l: Local) {
    Injective(w.codec) && GoodJob(w.codec, l.job) && Sound(w.codec, r) && r.lock && LocalOk(w, r, pid, l)
  }

  lemma StaysPut(w: World, r: Remote, job: Job)
    ensures Moves(w, r, r, job)
  {
  }

  lemma TempsAndLockDoNotMatter(w: World, r: Remote, temps: map<Temp, Blob>, lock: bool, job: Job)
    requires Sound(w.codec, r)
    ensures Sound(w.codec, r.(temps := temps, lock := lock)) && Moves(w, r, r.(temps := temps, lock := lock), job)
  {
    assert Pointers(r.(temps := temps, lock := lock)) == Pointers(r);
  }

  // ----- the batch -----

  lemma {:induction false} NextItemOk(w: World, r: Remote, pid: nat, l: Local, i: nat)
    requires Knows(r, l) && RecordedTo(l, i) && r.current == l.entry
    ensures LocalOk(w, r, pid, l.(pc := NextItem(l, i))) && InSection(NextItem(l, i))
    decreases |Items(l.job)| - i
  {
    if i < |Items(l.job)| {
      if Recorded(l, Items(l.job)[i]) {
        NextItemOk(w, r, pid, l, i + 1);
      }
      assert RecordedTo(l.(pc := NextItem(l, i)), i);
    } else if l.job.current.Some? {
      assert Items(l.job)[|Items(l.job)| - 1] == l.job.current.value;
      assert Recorded(l, l.job.current.value);
    }
  }

  lemma PresenceOk(w: World, r: Remote, pid: nat, l: Local, f: Fate)
    requires Ready(w, r, pid, l) && l.pc.Presence?
    ensures StepOk(w, r, pid, l, r, PresenceStep(w, r, l, f))
  {
    hide Sound, Injective, Moves, NextItem;
    StaysPut(w, r, l.job);
    var l' := PresenceStep(w, r, l, f);
    if l' != Fail(l, Some(false), AtPresence) {
      var found := l.(objects := l'.objects, archives := l'.archives);
      NextItemOk(w, r, pid, found, 0);
      assert l' == found.(pc := NextItem(found, 0));
    }
  }

  // ----- writing one file -----

  lemma UploadOk(w: World, r: Remote, pid: nat, l: Local, f: Fate)
    requires Ready(w, r, pid, l) && l.pc.Write? && l.pc.phase.Upload?
    ensures var (r', l') := WriteStep(w, r, pid, l, l.pc.target, l.pc.phase, f); StepOk(w, r, pid, l, r', l')
  {
    hide Sound, Moves, Injective;
    var (r', l') := WriteStep(w, r, pid, l, l.pc.target, l.pc.phase, f);
    TempsAndLockDoNotMatter(w, r, r'.temps, r'.lock, l.job);
  }

  lemma CheckOk(w: World, r: Remote, pid: nat, l: Local, f: Fate)
    requires Ready(w, r, pid, l) && l.pc.Write? && l.pc.phase.Check?
    ensures var (r', l') := WriteStep(w, r, pid, l, l.pc.target, l.pc.phase, f); StepOk(w, r, pid, l, r', l')
  {
    hide Sound, Moves;
    StaysPut(w, r, l.job);
    TargetVerified(w, r, l, l.pc.target, l.pc.phase);
  }

  lemma TargetVerified(w: World, r: Remote, l: Local, t: Target, phase: Phase)
    requires GoodJob(w.codec, l.job) && TargetOk(w, r, l, t, phase)
    ensures Verified(w.codec, t.item)
  {
    CurrentVerified(w, l.job);
  }

  lemma CurrentVerified(w: World, job: Job)
    requires GoodJob(w.codec, job)
    ensures job.current.Some? ==> Verified(w.codec, job.current.value)
  {
    if job.current.Some? {
      assert Items(job)[|Items(job)| - 1] == job.current.value;
    }
  }

  lemma ChmodOk(w: World, r: Remote, pid: nat, l: Local, f: Fate)
    requires Ready(w, r, pid, l) && l.pc.Write? && l.pc.phase.Chmod?
    ensures var (r', l') := WriteStep(w, r, pid, l, l.pc.target, l.pc.phase, f); StepOk(w, r, pid, l, r', l')
  {
    hide Sound, Moves, Injective;
    StaysPut(w, r, l.job);
  }

  // ----- the rename -----

  lemma SoundWithPointers(c: Codec, r: Remote, r': Remote)
    requires Sound(c, r) && r'.objects == r.objects && r'.archives == r.archives
    requires forall b :: b in Pointers(r') ==>
               b in Pointers(r) || (Resolves(c, r.objects, b) && c.hash(b) in r.archives)
    ensures Sound(c, r')
  {
  }

  lemma SoundWithObjects(c: Codec, r: Remote, r': Remote)
    requires Sound(c, r) && Pointers(r') == Pointers(r) && r'.archives == r.archives
    requires forall d :: d in r.objects ==> d in r'.objects
    requires forall d :: d in r'.objects ==> c.hash(r'.objects[d]) == d
    ensures Sound(c, r')
  {
    hide Pointers;
  }

  lemma ObjectRenamed(w: World, r: Remote, item: Prepared, temps: map<Temp, Blob>, job: Job)
    requires Injective(w.codec) && Sound(w.codec, r) && Verified(w.codec, item)
    ensures var r' := r.(objects := r.objects[item.manifest.objectName := item.snapshot], temps := temps);
            Sound(w.codec, r') && Moves(w, r, r', job)
  {
    var r' := r.(objects := r.objects[item.manifest.objectName := item.snapshot], temps := temps);
    assert Pointers(r') == Pointers(r);
    assert forall d :: d in r.objects ==> r'.objects[d] == r.objects[d];
    SoundWithObjects(w.codec, r, r');
    hide Sound, Pointers, Injective;
  }

  lemma ArchiveRenamed(w: World, r: Remote, item: Prepared, temps: map<Temp, Blob>, job: Job)
    requires Sound(w.codec, r) && Verified(w.codec, item) && item.manifest.objectName in r.objects
    ensures var r' := r.(archives := r.archives[item.digest := item.text], temps := temps);
            Sound(w.codec, r') && Moves(w, r, r', job)
  {
    var r' := r.(archives := r.archives[item.digest := item.text], temps := temps);
    assert Pointers(r') == Pointers(r);
  }

  lemma PreviousRenamed(w: World, r: Remote, temps: map<Temp, Blob>, job: Job)
    requires Sound(w.codec, r) && r.current.Some?
    ensures var r' := r.(previous := r.current, temps := temps);
            Sound(w.codec, r') && Moves(w, r, r', job)
  {
    SoundWithPointers(w.codec, r, r.(previous := r.current, temps := temps));
  }

  lemma LastKnownGoodRenamed(w: World, r: Remote, item: Prepared, temps: map<Temp, Blob>, job: Job)
    requires Injective(w.codec) && Sound(w.codec, r) && Verified(w.codec, item)
    requires item.manifest.objectName in r.objects && item.digest in r.archives
    requires job.current == Some(item) && (w.codec.isFresh(item.snapshot) || r.lastKnownGood.None?)
    ensures var r' := r.(lastKnownGood := Some(item.text), temps := temps);
            Sound(w.codec, r') && Moves(w, r, r', job)
  {
    SoundWithPointers(w.codec, r, r.(lastKnownGood := Some(item.text), temps := temps));
    assert r.objects[item.manifest.objectName] == item.snapshot;
  }

  lemma CurrentRenamed(w: World, r: Remote, item: Prepared, temps: map<Temp, Blob>, job: Job)
    requires Sound(w.codec, r) && Verified(w.codec, item) && job.current == Some(item)
    requires item.manifest.objectName in r.objects && item.digest in r.archives
    ensures var r' := r.(current := Some(item.text), temps := temps);
            Sound(w.codec, r') && Moves(w, r, r', job)
  {
    SoundWithPointers(w.codec, r, r.(current := Some(item.text), temps := temps));
  }

  lemma MoveKeepsStore(w: World, r: Remote, pid: nat, l: Local, f: Fate)
    requires Ready(w, r, pid, l) && l.pc.Write? && l.pc.phase.Move?
    ensures var r' := WriteStep(w, r, pid, l, l.pc.target, l.pc.phase, f).0;
            Sound(w.codec, r') && Moves(w, r, r', l.job)
  {
    hide Sound, Moves, Injective;
    var t := l.pc.target;
    var temps := r.temps - {Key(pid, l, t)};
    StaysPut(w, r, l.job);
    TargetVerified(w, r, l, t, l.pc.phase);
    match t
    case ToObject(item, _) => ObjectRenamed(w, r, item, temps, l.job);
    case ToArchive(item, _) => ArchiveRenamed(w, r, item, temps, l.job);
    case ToPrevious(_) => PreviousRenamed(w, r, temps, l.job);
    case ToLastKnownGood(item) => LastKnownGoodRenamed(w, r, item, temps, l.job);
    case ToCurrent(item) => CurrentRenamed(w, r, item, temps, l.job);
  }

  /** A rename puts the staged content in place; not renaming changes nothing. */
  lemma MoveEstablishes(
    w: World, r: Remote, pid: nat, l: Local, t: Target, content: Blob, temps: map<Temp, Blob>, ok: bool)
    requires Some(content) == ContentOf(r, t) && TargetOk(w, r, l, t, Move)
    ensures TargetOk(w, Moved(r, t, content).(temps := temps), l.(pc := Write(t, Sweep(ok))), t, Sweep(ok))
    ensures Moved(r, t, content).lock == r.lock
  {
    assert forall j :: 0 <= j < |Items(l.job)| ==>
      (Recorded(l, Items(l.job)[j]) <==> Recorded(l.(pc := Write(t, Sweep(ok))), Items(l.job)[j]));
    hide Recorded;
  }

  lemma NoMoveKeeps(w: World, r: Remote, l: Local, t: Target)
    requires TargetOk(w, r, l, t, Move)
    ensures TargetOk(w, r, l.(pc := Write(t, Sweep(false))), t, Sweep(false))
  {
    assert forall j :: 0 <= j < |Items(l.job)| ==>
      (Recorded(l, Items(l.job)[j]) <==> Recorded(l.(pc := Write(t, Sweep(false))), Items(l.job)[j]));
    hide Recorded;
  }

  lemma MoveOk(w: World, r: Remote, pid: nat, l: Local, f: Fate)
    requires Ready(w, r, pid, l) && l.pc.Write? && l.pc.phase.Move?
    ensures var (r', l') := WriteStep(w, r, pid, l, l.pc.target, l.pc.phase, f); StepOk(w, r, pid, l, r', l')
  {
    MoveKeepsStore(w, r, pid, l, f);
    var t := l.pc.target;
    var (r', l') := WriteStep(w, r, pid, l, t, Move, f);
    hide Sound, Moves, Injective, GoodJob, TargetOk, ContentOf, Moved;
    if Key(pid, l, t) in r.temps && Took(f) {
      MoveEstablishes(w, r, pid, l, t, r.temps[Key(pid, l, t)], r.temps - {Key(pid, l, t)}, f.report.Success?);
      assert TargetOk(w, r', l', t, Sweep(f.report.Success?));
    } else {
      NoMoveKeeps(w, r, l, t);
      assert TargetOk(w, r, l', t, Sweep(false));
    }
  }

  lemma SweepOk(w: World, r: Remote, pid: nat, l: Local, f: Fate)
    requires Ready(w, r, pid, l) && l.pc.Write? && l.pc.phase.Sweep?
    ensures var (r', l') := WriteStep(w, r, pid, l, l.pc.target, l.pc.phase, f); StepOk(w, r, pid, l, r', l')
  {
    hide Sound, Moves, Injective, GoodJob, NextItem, Moved, PlaceOf;
    var t := l.pc.target;
    var (r', l') := WriteStep(w, r, pid, l, t, l.pc.phase, f);
    TempsAndLockDoNotMatter(w, r, r'.temps, r'.lock, l.job);
    if l.pc.phase.ok && !f.report.Lost? {
      if t.ToObject? || t.ToArchive? {
        WrittenItemOk(w, r', pid, l.(serial := l.serial + 1), t);
      } else {
        WrittenPointerOk(w, r', pid, l.(serial := l.serial + 1), t);
      }
      hide Written, LocalOk, TargetOk;
    }
  }

  lemma WrittenPointerOk(w: World, r: Remote, pid: nat, l: Local, t: Target)
    requires !t.ToObject? && !t.ToArchive? && TargetOk(w, r, l, t, Sweep(true))
    ensures InSection(Written(l, t).pc) && LocalOk(w, r, pid, Written(l, t)) && Written(l, t).job == l.job
  {
  }

  lemma WrittenItemOk(w: World, r: Remote, pid: nat, l: Local, t: Target)
    requires (t.ToObject? || t.ToArchive?) && TargetOk(w, r, l, t, Sweep(true))
    ensures InSection(Written(l, t).pc) && LocalOk(w, r, pid, Written(l, t))
  {
    hide NextItem;
    var base := if t.ToObject? then l.(objects := l.objects + {t.item.manifest.objectName})
                else l.(archives := l.archives + {t.item.digest});
    assert forall j :: 0 <= j < t.i ==> Recorded(l, Items(l.job)[j]);
    assert Knows(r, base) && RecordedTo(base, t.i);
    if Recorded(base, t.item) {
      assert RecordedTo(base, t.i + 1);
      NextItemOk(w, r, pid, base, t.i + 1);
    }
  }

  // ----- the commit of `current` and retention -----

  lemma LookCurrentOk(w: World, r: Remote, pid: nat, l: Local, f: Fate)
    requires Ready(w, r, pid, l) && l.pc.LookCurrent?
    ensures StepOk(w, r, pid, l, r, LookCurrentStep(w, r, l, l.pc.item, f))
  {
    StaysPut(w, r, l.job);
    CurrentVerified(w, l.job);
    hide Sound, Moves, GoodJob;
  }

  lemma LookLastKnownGoodOk(w: World, r: Remote, pid: nat, l: Local, f: Fate)
    requires Ready(w, r, pid, l) && l.pc.LookLastKnownGood?
    ensures StepOk(w, r, pid, l, r, LookLastKnownGoodStep(w, r, l, l.pc.item, f))
  {
    StaysPut(w, r, l.job);
    hide Sound, Moves, GoodJob, Injective;
  }

  lemma ConfirmOk(w: World, r: Remote, pid: nat, l: Local, f: Fate)
    requires Ready(w, r, pid, l) && l.pc.Confirm?
    ensures StepOk(w, r, pid, l, r, ConfirmStep(w, r, l, l.pc.item, f))
  {
    StaysPut(w, r, l.job);
    hide Sound, Moves, GoodJob, Injective;
  }

  lemma NothingPruned(r: Remote)
    ensures Pruned(r, {}, {}) == r
  {
  }

  lemma AfterManifestsOk(
    w: World, r: Remote, pid: nat, l: Local, item: Prepared, updated: bool, base: Remote, plan: Plan)
    requires Committed(r, l, item, updated) && Pruning(w, r, base, plan, plan.manifests, {})
    ensures var pc := AfterManifests(item, updated, base, plan);
            InSection(pc) && LocalOk(w, r, pid, l.(pc := pc))
  {
    hide Sound, PlanOf;
    if plan.objects == {} {
      SecondPruneDeletesNothing(w.codec, base, w.retention);
    }
  }

  lemma SurveyOk(w: World, r: Remote, pid: nat, l: Local, f: Fate)
    requires Ready(w, r, pid, l) && l.pc.Survey?
    ensures StepOk(w, r, pid, l, r, SurveyStep(w, r, l, l.pc.item, l.pc.updated, f))
  {
    hide Sound, Moves, GoodJob, Injective, PlanOf, AfterManifests;
    StaysPut(w, r, l.job);
    NothingPruned(r);
    var plan := PlanOf(w.codec, r, w.retention);
    if plan.Ok? && plan.value.manifests == {} {
      AfterManifestsOk(w, r, pid, l, l.pc.item, l.pc.updated, r, plan.value);
    }
  }

  /** Removing a part of the plan keeps the store sound and touches no pointer. */
  lemma PruningKeeps(
    w: World, r: Remote, r': Remote, base: Remote, plan: Plan, manifests: set<Digest>, objects: set<Digest>, job: Job)
    requires Sound(w.codec, base) && PlanOf(w.codec, base, w.retention) == Ok(plan) && Sound(w.codec, r)
    requires manifests <= plan.manifests && objects <= plan.objects && (objects != {} ==> manifests == plan.manifests)
    requires r' == Pruned(base, manifests, objects)
    requires r'.current == r.current && r'.previous == r.previous && r'.lastKnownGood == r.lastKnownGood
    requires r'.objects.Keys <= r.objects.Keys && (forall d :: d in r'.objects ==> r'.objects[d] == r.objects[d])
    ensures Sound(w.codec, r') && Moves(w, r, r', job)
  {
    hide PlanOf;
    EveryPrefixKeepsReferences(w.codec, base, w.retention, manifests, objects);
  }

  lemma DropManifestOk(w: World, r: Remote, pid: nat, l: Local, f: Fate)
    requires Ready(w, r, pid, l) && l.pc.DropManifests?
    ensures var (r', l') := DropManifestStep(w, r, l, f); StepOk(w, r, pid, l, r', l')
  {
    hide Sound, Moves, GoodJob, Injective, PlanOf, AfterManifests;
    StaysPut(w, r, l.job);
    var pc := l.pc;
    var left := pc.left - {Least(pc.left)};
    var r' := r.(archives := r.archives - {Least(pc.left)});
    assert r' == Pruned(pc.base, pc.plan.manifests - left, {}) by {
      assert pc.plan.manifests - left == (pc.plan.manifests - pc.left) + {Least(pc.left)};
      assert r'.archives == pc.base.archives - (pc.plan.manifests - left);
    }
    PruningKeeps(w, r, r', pc.base, pc.plan, pc.plan.manifests - left, {}, l.job);
    if left == {} {
      assert pc.plan.manifests - left == pc.plan.manifests;
      AfterManifestsOk(w, r', pid, l, pc.item, pc.updated, pc.base, pc.plan);
    }
  }

  lemma RecheckOk(w: World, r: Remote, pid: nat, l: Local, f: Fate)
    requires Ready(w, r, pid, l) && l.pc.Recheck?
    ensures StepOk(w, r, pid, l, r, RecheckStep(r, l, f))
  {
    hide Sound, Moves, GoodJob, Injective, PlanOf;
    StaysPut(w, r, l.job);
    assert l.pc.plan.objects - l.pc.plan.objects == {};
  }

  lemma DropObjectOk(w: World, r: Remote, pid: nat, l: Local, f: Fate)
    requires Ready(w, r, pid, l) && l.pc.DropObjects?
    ensures var (r', l') := DropObjectStep(w, r, l, f); StepOk(w, r, pid, l, r', l')
  {
    hide Sound, Moves, GoodJob, Injective, PlanOf;
    StaysPut(w, r, l.job);
    var pc := l.pc;
    var left := pc.left - {Least(pc.left)};
    var r' := r.(objects := r.objects - {Least(pc.left)});
    assert r' == Pruned(pc.base, pc.plan.manifests, pc.plan.objects - left) by {
      assert pc.plan.objects - left == (pc.plan.objects - pc.left) + {Least(pc.left)};
      assert r'.objects == pc.base.objects - (pc.plan.objects - left);
    }
    PruningKeeps(w, r, r', pc.base, pc.plan, pc.plan.manifests, pc.plan.objects - left, l.job);
    if left == {} {
      assert pc.plan.objects - left == pc.plan.objects;
      SecondPruneDeletesNothing(w.codec, pc.base, w.retention);
    }
  }

  lemma ReleaseOk(w: World, r: Remote, pid: nat, l: Local, f: Fate)
    requires Ready(w, r, pid, l) && l.pc.Release?
    ensures var (r', l') := ReleaseStep(r, l, l.pc.verdict, f); StepOk(w, r, pid, l, r', l')
  {
    hide Sound, Moves, GoodJob, Injective;
    TempsAndLockDoNotMatter(w, r, r.temps, r.lock && !Took(f), l.job);
  }

  lemma WriteOk(w: World, r: Remote, pid: nat, l: Local, f: Fate)
    requires Ready(w, r, pid, l) && l.pc.Write?
    ensures var (r', l') := WriteStep(w, r, pid, l, l.pc.target, l.pc.phase, f); StepOk(w, r, pid, l, r', l')
  {
    hide Ready, StepOk, WriteStep;
    match l.pc.phase
    case Upload => UploadOk(w, r, pid, l, f);
    case Check => CheckOk(w, r, pid, l, f);
    case Chmod => ChmodOk(w, r, pid, l, f);
    case Move => MoveOk(w, r, pid, l, f);
    case Sweep(_) => SweepOk(w, r, pid, l, f);
  }

  lemma SectionStepOk(w: World, r: Remote, pid: nat, l: Local, f: Fate)
    requires Ready(w, r, pid, l) && InSection(l.pc)
    ensures var (r', l') := StepOf(w, r, pid, l, f); StepOk(w, r, pid, l, r', l')
  {
    if l.pc.DropManifests? || l.pc.DropObjects? {
      assert l.pc.left != {};
    }
    hide Ready, StepOk, WriteStep, PresenceStep, SurveyStep, DropManifestStep, DropObjectStep;
    match l.pc
    case Presence => PresenceOk(w, r, pid, l, f);
    case Write(_, _) => WriteOk(w, r, pid, l, f);
    case LookCurrent(_) => LookCurrentOk(w, r, pid, l, f);
    case LookLastKnownGood(_) => LookLastKnownGoodOk(w, r, pid, l, f);
    case Confirm(_) => ConfirmOk(w, r, pid, l, f);
    case Survey(_, _) => SurveyOk(w, r, pid, l, f);
    case DropManifests(_, _, _, _, _) => DropManifestOk(w, r, pid, l, f);
    case Recheck(_, _, _, _) => RecheckOk(w, r, pid, l, f);
    case DropObjects(_, _, _, _, _) => DropObjectOk(w, r, pid, l, f);
    case Release(_) => ReleaseOk(w, r, pid, l, f);
  }

  // ----- every reachable state -----

  predicate Holds(s: System, pid: nat) {
    pid in s.procs && InSection(s.procs[pid].pc)
  }

  ghost predicate Inv(w: World, s: System) {
    && Sound(w.codec, s.remote)
    && (forall p :: p in s.procs ==> GoodJob(w.codec, s.procs[p].job))
    && (forall p :: Holds(s, p) ==> s.remote.lock && LocalOk(w, s.remote, p, s.procs[p]))
    && (forall p, q :: Holds(s, p) && Holds(s, q) ==> p == q)
  }

  predicate GoodEvent(c: Codec, e: Event) {
    e.Spawn? ==> GoodJob(c, e.job)
  }

  /** The one event that may change the store is a step, and it moves pointers only as its job allows. */
  ghost predicate EventMoves(w: World, s: System, s': System, e: Event) {
    s'.remote == s.remote || (e.Step? && e.pid in s.procs && Moves(w, s.remote, s'.remote, s.procs[e.pid].job))
  }

  lemma BeginKeepsInv(w: World, s: System, pid: nat, f: Fate)
    requires Inv(w, s) && pid in s.procs && s.procs[pid].pc.Begin?
    ensures Inv(w, Act(w, s, Step(pid, f))) && EventMoves(w, s, Act(w, s, Step(pid, f)), Step(pid, f))
  {
    var (r', l') := BeginStep(s.remote, s.procs[pid], f);
    TempsAndLockDoNotMatter(w, s.remote, s.remote.temps, r'.lock, s.procs[pid].job);
    var s' := Act(w, s, Step(pid, f));
    hide Sound, GoodJob, LocalOk, Moves;
    if s.remote.lock {
      assert r' == s.remote;
      OthersKeepInv(w, s, pid, l');
    } else {
      EnteringOk(w, s.remote, pid, s.procs[pid], f);
      forall p | Holds(s', p) ensures p == pid && s'.remote.lock {
        assert p != pid ==> Holds(s, p);
      }
    }
  }

  lemma EnteringOk(w: World, r: Remote, pid: nat, l: Local, f: Fate)
    ensures LocalOk(w, BeginStep(r, l, f).0, pid, BeginStep(r, l, f).1)
  {
  }

  lemma HolderKeepsInv(w: World, s: System, pid: nat, f: Fate)
    requires Injective(w.codec) && Inv(w, s) && Holds(s, pid)
    ensures Inv(w, Act(w, s, Step(pid, f))) && EventMoves(w, s, Act(w, s, Step(pid, f)), Step(pid, f))
  {
    hide Sound, GoodJob, LocalOk, Moves, Injective, StepOf;
    SectionStepOk(w, s.remote, pid, s.procs[pid], f);
    var s' := Act(w, s, Step(pid, f));
    forall p | Holds(s', p) ensures p == pid {
      assert p != pid ==> Holds(s, p);
    }
  }

  lemma OthersKeepInv(w: World, s: System, pid: nat, l: Local)
    requires Inv(w, s) && GoodJob(w.codec, l.job) && !InSection(l.pc)
    ensures Inv(w, s.(procs := s.procs[pid := l]))
  {
    hide Sound, GoodJob, LocalOk;
    var s' := s.(procs := s.procs[pid := l]);
    forall p | Holds(s', p) ensures Holds(s, p) {
    }
  }

  lemma ActKeepsInv(w: World, s: System, e: Event)
    requires Injective(w.codec) && Inv(w, s) && GoodEvent(w.codec, e)
    ensures Inv(w, Act(w, s, e)) && EventMoves(w, s, Act(w, s, e), e)
  {
    hide Inv, Injective, EventMoves, Sound, LocalOk;
    match e
    case Spawn(pid, job) =>
      NoStoreChange(w, s, e);
      if pid !in s.procs {
        OthersKeepInv(w, s, pid, Fresh(job));
      }
    case Step(pid, f) =>
      if pid in s.procs {
        if s.procs[pid].pc.Begin? {
          BeginKeepsInv(w, s, pid, f);
        } else if InSection(s.procs[pid].pc) {
          HolderKeepsInv(w, s, pid, f);
        } else {
          NoStoreChange(w, s, e);
          assert s.procs[pid := s.procs[pid]] == s.procs;
        }
      } else {
        NoStoreChange(w, s, e);
      }
    case Crash(pid) =>
      NoStoreChange(w, s, e);
      if pid in s.procs {
        JobsAreGood(w, s, pid);
        OthersKeepInv(w, s, pid, s.procs[pid].(pc := Crashed));
      }
  }

  lemma JobsAreGood(w: World, s: System, pid: nat)
    requires Inv(w, s) && pid in s.procs
    ensures GoodJob(w.codec, s.procs[pid].job)
  {
  }

  lemma NoStoreChange(w: World, s: System, e: Event)
    requires e.Step? && e.pid in s.procs ==> !InSection(s.procs[e.pid].pc) && !s.procs[e.pid].pc.Begin?
    ensures EventMoves(w, s, Act(w, s, e), e) && Act(w, s, e).remote == s.remote
  {
  }

  predicate GoodEvents(c: Codec, events: seq<Event>) {
    forall i :: 0 <= i < |events| ==> GoodEvent(c, events[i])
  }

  /** From an empty store, over every interleaving and every failure: at most one publisher holds the lock,
      every manifest and pointer resolves, and what the holder recorded as present is there. */
  lemma {:induction false} EveryStateIsSafe(w: World, events: seq<Event>)
    requires Injective(w.codec) && GoodEvents(w.codec, events)
    ensures Inv(w, Run(w, events))
  {
    if events == [] {
      assert Sound(w.codec, EMPTY);
    } else {
      hide Act, Inv, GoodEvent;
      EveryStateIsSafe(w, events[..|events| - 1]);
      ActKeepsInv(w, Run(w, events[..|events| - 1]), events[|events| - 1]);
    }
  }
}
