/** What a publisher's answer tells its caller, and what holds of the pointers over whole runs. */
module RemoteGuarantees {
  import opened Wrappers
  import opened RemoteStore
  import opened RemoteProtocol
  import opened RemoteSafety

  /** Before retention starts, what the lock holder recorded as present is present. */
  predicate BeforeRetention(pc: Pc) {
    pc.Write? || pc.LookCurrent? || pc.LookLastKnownGood? || pc.Confirm? || pc.Survey?
  }

  /** In every reachable state at most one publisher is in the locked section, every archived manifest and
      every pointer names a present object with the digest it carries and has its archive, and the holder's
      records claim no missing file. */
  lemma {:induction false} LockedSectionIsExclusiveAndStoreResolves(w: World, events: seq<Event>, p: nat, q: nat)
    requires Injective(w.codec) && GoodEvents(w.codec, events)
    ensures var s := Run(w, events);
            && Sound(w.codec, s.remote)
            && (Holds(s, p) && Holds(s, q) ==> p == q && s.remote.lock)
            && (Holds(s, p) && BeforeRetention(s.procs[p].pc) ==> Knows(s.remote, s.procs[p]))
  {
    EveryStateIsSafe(w, events);
    var s := Run(w, events);
    hide Run, Sound, Injective, Staged, Recorded;
    if Holds(s, p) && BeforeRetention(s.procs[p].pc) {
      assert LocalOk(w, s.remote, p, s.procs[p]);
    }
  }

  /** What the answer says about a publish that carried a current snapshot. A return, and an error that says
      `committed`, mean that `current` is that manifest; an error that says `not committed` is right exactly
      unless it is the final hash read that failed; otherwise `current` is the old or the new manifest. */
  lemma AnswersAreTrue(w: World, s: System, pid: nat, f: Fate)
    requires Injective(w.codec) && Inv(w, s)
    requires pid in s.procs && s.procs[pid].pc.Release? && s.procs[pid].job.current.Some?
    ensures var s' := Act(w, s, Step(pid, f));
            var item, was, now := s.procs[pid].job.current.value, s.procs[pid].entry, s'.remote.current;
            && s'.procs[pid].pc.Finished?
            && match s'.procs[pid].pc.outcome {
                 case Returned(updated) =>
                   && now == Some(item.text) && (updated <==> was != now)
                   && (updated && was.Some? ==> s'.remote.previous == was)
                   && PlanOf(w.codec, s'.remote, w.retention) == Ok(Plan({}, {}))
                 case Raised(committed, at) =>
                   && (committed == Some(true) ==> now == Some(item.text))
                   && (committed == Some(false) ==>
                         (now == was <==> !at.AtConfirm?) && (now == was || now == Some(item.text)))
                   && (committed == None ==> now == was || now == Some(item.text))
               }
  {
    hide Sound, Injective, GoodJob;
    assert Holds(s, pid);
    var l, r := s.procs[pid], s.remote;
    assert Means(w, r, l, l.pc.verdict);
    hide LocalOk;
    UnlockKeepsPlan(w, r, l, f);
  }

  // ----- the lock and the answer -----

  /** What giving back the lock does to the answer: nothing when it is reported as successful or when there is an
      error to tell anyway; otherwise a return becomes an error that says `committed`. */
  lemma UnlockDecidesTheAnswer(w: World, s: System, pid: nat, f: Fate)
    requires pid in s.procs && s.procs[pid].pc.Release?
    ensures var v, s' := s.procs[pid].pc.verdict, Act(w, s, Step(pid, f));
            && (f.report.Success? ==> s'.procs[pid].pc == Finished(v) && !s'.remote.lock)
            && (!f.report.Success? && v.Raised? ==> s'.procs[pid].pc == Finished(v))
            && (!f.report.Success? && v.Returned? ==> s'.procs[pid].pc == Finished(Raised(Some(true), AtUnlock)))
            && (s'.remote.lock <==> s.remote.lock && !f.report.Success? && !f.effect)
  {
  }

  /** Whoever is told that the publish returned finds the lock free. */
  lemma ReturnMeansUnlocked(w: World, s: System, pid: nat, f: Fate)
    requires pid in s.procs && !s.procs[pid].pc.Finished?
    ensures var s' := Act(w, s, Step(pid, f));
            s'.procs[pid].pc.Finished? && s'.procs[pid].pc.outcome.Returned? ==> !s'.remote.lock
  {
    hide PlanOf, NextItem, WriteStep, Written;
    if InSection(s.procs[pid].pc) && !s.procs[pid].pc.Release? {
      StaysInSection(w, s.remote, pid, s.procs[pid], f);
      hide StepOf;
    }
  }

  // ----- where the wrong answer comes from -----

  const LOST_CONFIRM := Raised(Some(false), AtConfirm)

  /** The verdict with which a publisher ends or is about to end, if it has one. */
  function VerdictOf(pc: Pc): Option<Verdict> {
    match pc
    case Release(v) => Some(v)
    case Finished(v) => Some(v)
    case _ => None
  }

  lemma {:induction false} GoingOnIsNoAnswer(l: Local, i: nat)
    ensures InSection(NextItem(l, i)) && (NextItem(l, i).Release? ==> NextItem(l, i).verdict.Returned?)
    decreases |Items(l.job)| - i
  {
    if i < |Items(l.job)| {
      GoingOnIsNoAnswer(l, i + 1);
    }
  }

  lemma WrittenIsNoAnswer(l: Local, t: Target)
    ensures InSection(Written(l, t).pc) && (Written(l, t).pc.Release? ==> Written(l, t).pc.verdict.Returned?)
  {
    hide NextItem;
    match t
    case ToObject(item, i) => GoingOnIsNoAnswer(l.(objects := l.objects + {item.manifest.objectName}), i + 1);
    case ToArchive(item, i) => GoingOnIsNoAnswer(l.(archives := l.archives + {item.digest}), i + 1);
    case _ =>
  }

  lemma WritingIsNoAnswer(w: World, r: Remote, pid: nat, l: Local, f: Fate)
    requires l.pc.Write?
    ensures VerdictOf(StepOf(w, r, pid, l, f).1.pc) != Some(LOST_CONFIRM)
  {
    hide Written, Moved;
    WrittenIsNoAnswer(l.(serial := l.serial + 1), l.pc.target);
  }

  lemma VerdictStep(w: World, r: Remote, pid: nat, l: Local, f: Fate)
    requires l.pc.Confirm? ==> LocalOk(w, r, pid, l) && GoodJob(w.codec, l.job)
    ensures VerdictOf(StepOf(w, r, pid, l, f).1.pc) == Some(LOST_CONFIRM) <==>
            VerdictOf(l.pc) == Some(LOST_CONFIRM) || (l.pc.Confirm? && !f.report.Success?)
  {
    hide PlanOf, NextItem, WriteStep;
    if l.pc.Write? {
      WritingIsNoAnswer(w, r, pid, l, f);
    } else if l.pc.Presence? {
      var l' := PresenceStep(w, r, l, f);
      GoingOnIsNoAnswer(l.(objects := l'.objects, archives := l'.archives), 0);
    }
  }

  /** The step hands the answer `not committed` to a publisher whose manifest is `current` and was not before. */
  predicate AnswersWrongly(s: System, pid: nat) {
    && pid in s.procs
    && var l := s.procs[pid];
       && l.pc.Release? && l.pc.verdict.Raised? && l.pc.verdict.committed == Some(false)
       && l.job.current.Some? && s.remote.current == Some(l.job.current.value.text) != l.entry
  }

  /** The one wrong answer: of all the steps of the lock holder, exactly a last hash read that is not reported as
      successful arrives at it. */
  lemma WrongAnswerIsExactlyAFailedLastRead(w: World, s: System, pid: nat, f: Fate)
    requires Injective(w.codec) && Inv(w, s) && Holds(s, pid) && !s.procs[pid].pc.Release?
    ensures AnswersWrongly(Act(w, s, Step(pid, f)), pid) <==> s.procs[pid].pc.Confirm? && !f.report.Success?
  {
    var l, s' := s.procs[pid], Act(w, s, Step(pid, f));
    VerdictStep(w, s.remote, pid, l, f);
    ActKeepsInv(w, s, Step(pid, f));
    StaysInSection(w, s.remote, pid, l, f);
    hide StepOf, Sound, GoodJob, Injective;
    assert Holds(s', pid);
    assert LocalOk(w, s'.remote, pid, s'.procs[pid]);
  }

  lemma StaysInSection(w: World, r: Remote, pid: nat, l: Local, f: Fate)
    requires InSection(l.pc) && !l.pc.Release?
    ensures InSection(StepOf(w, r, pid, l, f).1.pc)
  {
    hide PlanOf, NextItem, Written;
    if l.pc.Write? {
      WrittenIsNoAnswer(l.(serial := l.serial + 1), l.pc.target);
    } else if l.pc.Presence? {
      var l' := PresenceStep(w, r, l, f);
      GoingOnIsNoAnswer(l.(objects := l'.objects, archives := l'.archives), 0);
    }
  }

  predicate FailsLastRead(s: System, e: Event, pid: nat) {
    e.Step? && e.pid == pid && pid in s.procs && s.procs[pid].pc.Confirm? && !e.fate.report.Success?
  }

  ghost predicate LostConfirm(w: World, events: seq<Event>, pid: nat) {
    exists i :: 0 <= i < |events| && FailsLastRead(Run(w, events[..i]), events[i], pid)
  }

  lemma LostConfirmSnoc(w: World, events: seq<Event>, pid: nat)
    requires events != []
    ensures var n := |events| - 1;
            LostConfirm(w, events, pid) <==>
            LostConfirm(w, events[..n], pid) || FailsLastRead(Run(w, events[..n]), events[n], pid)
  {
    hide FailsLastRead, Run;
    var n := |events| - 1;
    assert forall i :: 0 <= i < n ==> events[..n][i] == events[i] && events[..n][..i] == events[..i];
  }

  lemma {:induction false} VerdictRemembers(w: World, events: seq<Event>, pid: nat)
    requires Injective(w.codec) && GoodEvents(w.codec, events)
    ensures pid in Run(w, events).procs && !Run(w, events).procs[pid].pc.Crashed? ==>
              (VerdictOf(Run(w, events).procs[pid].pc) == Some(LOST_CONFIRM) <==> LostConfirm(w, events, pid))
    ensures pid !in Run(w, events).procs ==> !LostConfirm(w, events, pid)
  {
    hide Inv, Injective, StepOf, LostConfirm;
    if events == [] {
      assert !LostConfirm(w, [], pid) by { NothingLostYet(w, pid); }
    } else {
      var n := |events| - 1;
      var s, e := Run(w, events[..n]), events[n];
      VerdictRemembers(w, events[..n], pid);
      LostConfirmSnoc(w, events, pid);
      EveryStateIsSafe(w, events[..n]);
      if e.Step? && e.pid == pid && pid in s.procs {
        if Holds(s, pid) {
          HolderKnows(w, s, pid);
        }
        VerdictStep(w, s.remote, pid, s.procs[pid], e.fate);
      }
      if pid in s.procs && s.procs[pid].pc.Crashed? {
        CrashIsFinal(w, s, e, pid);
      }
    }
  }

  /** Over every run: a publisher that is about to give back the lock answers wrongly exactly when its own last
      hash read was reported as anything but a success. */
  lemma WrongAnswersAreLostConfirms(w: World, events: seq<Event>, pid: nat)
    requires Injective(w.codec) && GoodEvents(w.codec, events)
    requires pid in Run(w, events).procs && Run(w, events).procs[pid].pc.Release?
    ensures AnswersWrongly(Run(w, events), pid) <==> LostConfirm(w, events, pid)
  {
    hide Inv, LocalOk, Run, LostConfirm, Injective, GoodEvents;
    var s := Run(w, events);
    EveryStateIsSafe(w, events);
    VerdictRemembers(w, events, pid);
    HolderKnows(w, s, pid);
    ReleaseMeans(w, s.remote, pid, s.procs[pid]);
  }

  lemma ReleaseMeans(w: World, r: Remote, pid: nat, l: Local)
    requires l.pc.Release? && LocalOk(w, r, pid, l)
    ensures Means(w, r, l, l.pc.verdict)
  {
  }

  lemma HolderKnows(w: World, s: System, pid: nat)
    requires Inv(w, s) && Holds(s, pid)
    ensures LocalOk(w, s.remote, pid, s.procs[pid]) && GoodJob(w.codec, s.procs[pid].job)
  {
    hide LocalOk, Sound, GoodJob;
  }

  lemma NothingLostYet(w: World, pid: nat)
    ensures !LostConfirm(w, [], pid)
  {
  }

  lemma CrashIsFinal(w: World, s: System, e: Event, pid: nat)
    requires pid in s.procs && s.procs[pid].pc.Crashed?
    ensures Act(w, s, e).procs[pid].pc.Crashed?
  {
  }

  lemma UnlockKeepsPlan(w: World, r: Remote, l: Local, f: Fate)
    requires l.pc.Release?
    ensures PlanOf(w.codec, ReleaseStep(r, l, l.pc.verdict, f).0, w.retention) == PlanOf(w.codec, r, w.retention)
  {
    var r' := ReleaseStep(r, l, l.pc.verdict, f).0;
    assert Pointers(r') == Pointers(r);
    hide Pointers, Recent;
  }

  // ----- over whole runs -----

  /** Some publisher was asked to make this manifest current. */
  predicate Submitted(events: seq<Event>, b: Blob) {
    exists i :: 0 <= i < |events| && events[i].Spawn? && events[i].job.current.Some?
                && events[i].job.current.value.text == b
  }

  predicate Asked(events: seq<Event>, pid: nat, job: Job) {
    exists i :: 0 <= i < |events| && events[i] == Spawn(pid, job)
  }

  lemma {:induction false} JobsWereAsked(w: World, events: seq<Event>, pid: nat)
    requires pid in Run(w, events).procs
    ensures Asked(events, pid, Run(w, events).procs[pid].job)
  {
    hide StepOf;
    var n := |events| - 1;
    var s, e := Run(w, events[..n]), events[n];
    StepKeepsJobs(w, s, e);
    if pid in s.procs {
      JobsWereAsked(w, events[..n], pid);
      var i :| 0 <= i < n && events[..n][i] == Spawn(pid, s.procs[pid].job);
      assert events[i] == Spawn(pid, s.procs[pid].job);
    }
  }

  lemma StepKeepsJobs(w: World, s: System, e: Event)
    ensures forall p :: p in s.procs ==> p in Act(w, s, e).procs && Act(w, s, e).procs[p].job == s.procs[p].job
    ensures forall p :: p in Act(w, s, e).procs && p !in s.procs ==> e == Spawn(p, Act(w, s, e).procs[p].job)
  {
    hide PlanOf;
    if e.Step? && e.pid in s.procs {
      StepKeepsJob(w, s.remote, e.pid, s.procs[e.pid], e.fate);
      hide StepOf;
    }
  }

  lemma StepKeepsJob(w: World, r: Remote, pid: nat, l: Local, f: Fate)
    ensures StepOf(w, r, pid, l, f).1.job == l.job
  {
    hide PlanOf, NextItem, AfterManifests, Moved;
  }

  lemma SubmittedLater(events: seq<Event>, e: Event, b: Blob)
    requires Submitted(events, b)
    ensures Submitted(events + [e], b)
  {
    var i :| 0 <= i < |events| && events[i].Spawn? && events[i].job.current.Some?
             && events[i].job.current.value.text == b;
    assert (events + [e])[i] == events[i];
  }

  /** Over all runs, each pointer names a manifest that some publisher was asked to make current. */
  lemma {:induction false} PointersWereSubmitted(w: World, events: seq<Event>, b: Blob)
    requires Injective(w.codec) && GoodEvents(w.codec, events) && b in Pointers(Run(w, events).remote)
    ensures Submitted(events, b)
  {
    if events != [] {
      hide Act, Inv, GoodEvent, NamesFresh, Injective, Submitted;
      var n := |events| - 1;
      var s, e := Run(w, events[..n]), events[n];
      EveryStateIsSafe(w, events[..n]);
      ActKeepsInv(w, s, e);
      assert events == events[..n] + [e];
      if b in Pointers(s.remote) {
        PointersWereSubmitted(w, events[..n], b);
        SubmittedLater(events[..n], e, b);
      } else {
        MovedByJob(w, events[..n], s, Act(w, s, e), e, b);
        SubmittedLater(events[..n], e, b);
      }
    }
  }

  lemma MovedByJob(w: World, events: seq<Event>, s: System, s': System, e: Event, b: Blob)
    requires s == Run(w, events) && EventMoves(w, s, s', e) && b in Pointers(s'.remote) && b !in Pointers(s.remote)
    ensures Submitted(events, b)
  {
    hide Run;
    JobsWereAsked(w, events, e.pid);
  }

  /** `current`, once present, stays present, and a last known good that names a fresh snapshot goes on
      naming a fresh snapshot. */
  lemma {:induction false} PointersOnlyImprove(w: World, events: seq<Event>, n: nat)
    requires Injective(w.codec) && GoodEvents(w.codec, events) && n <= |events|
    ensures var before, after := Run(w, events[..n]).remote, Run(w, events).remote;
            && (before.current.Some? ==> after.current.Some?)
            && (before.lastKnownGood.Some? && NamesFresh(w.codec, before, before.lastKnownGood.value) ==>
                  after.lastKnownGood.Some? && NamesFresh(w.codec, after, after.lastKnownGood.value))
  {
    if n == |events| {
      assert events[..n] == events;
    } else {
      hide Act, Inv, GoodEvent, NamesFresh, Injective;
      var m := |events| - 1;
      assert events[..m][..n] == events[..n];
      PointersOnlyImprove(w, events[..m], n);
      EveryStateIsSafe(w, events[..m]);
      ActKeepsInv(w, Run(w, events[..m]), events[m]);
    }
  }

  /** A lock nobody holds any more, left by a crash or a lost answer, freezes the store for good: every
      later publisher fails at the lock. */
  lemma {:induction false} StaleLockFreezesTheStore(w: World, s: System, events: seq<Event>)
    requires s.remote.lock && forall p :: !Holds(s, p)
    ensures var s' := RunFrom(w, s, events);
            s'.remote == s.remote && forall p :: !Holds(s', p)
  {
    if events != [] {
      hide StepOf;
      var n := |events| - 1;
      StaleLockFreezesTheStore(w, s, events[..n]);
      var before, e := RunFrom(w, s, events[..n]), events[n];
      if e.Step? && e.pid in before.procs {
        assert !Holds(before, e.pid);
        LockedOut(w, before.remote, e.pid, before.procs[e.pid], e.fate);
      }
      forall p ensures !Holds(Act(w, before, e), p) {
        assert !Holds(before, p);
      }
    }
  }

  /** Such a lock comes from a failing answer to a lock that was taken all the same. */
  lemma LostLockAnswerFreezesTheStore(w: World, s: System, pid: nat, f: Fate, events: seq<Event>)
    requires pid in s.procs && s.procs[pid].pc.Begin? && forall p :: !Holds(s, p)
    requires f.effect && !f.report.Success?
    ensures var s' := RunFrom(w, Act(w, s, Step(pid, f)), events);
            s'.remote == s.remote.(lock := true) && forall p :: !Holds(s', p)
  {
    var next := Act(w, s, Step(pid, f));
    assert !Holds(s, pid);
    forall p ensures !Holds(next, p) {
      assert !Holds(s, p);
    }
    StaleLockFreezesTheStore(w, next, events);
  }

  lemma LockedOut(w: World, r: Remote, pid: nat, l: Local, f: Fate)
    requires r.lock && !InSection(l.pc)
    ensures StepOf(w, r, pid, l, f).0 == r && !InSection(StepOf(w, r, pid, l, f).1.pc)
  {
    assert r.(lock := true) == r;
  }

  ghost function RunFrom(w: World, s: System, events: seq<Event>): System {
    if events == [] then s else Act(w, RunFrom(w, s, events[..|events| - 1]), events[|events| - 1])
  }

  /** The recheck before the objects go, on any store, also one that somebody changed without the lock: it is passed
      exactly when the answer arrives, archives are those that were kept, nothing is left over and no pointer moved.
      Then no archive and no pointer of that store names an object that is about to go. */
  lemma RecheckGuardsTheObjects(w: World, r: Remote, pid: nat, l: Local, f: Fate)
    requires l.pc.Recheck? && PlanOf(w.codec, l.pc.base, w.retention) == Ok(l.pc.plan)
    ensures var (base, plan, (r', l')) := (l.pc.base, l.pc.plan, StepOf(w, r, pid, l, f));
            && r' == r
            && l'.pc == (if f.report.Success? && r.temps == map[] && r.current == base.current
                            && r.previous == base.previous && r.lastKnownGood == base.lastKnownGood
                            && r.archives == base.archives - plan.manifests
                         then DropObjects(l.pc.item, l.pc.updated, base, plan, plan.objects)
                         else Release(Raised(Some(true), AtRetention)))
            && (l'.pc.DropObjects? ==> forall d :: d in plan.objects ==> !Used(w.codec, r, d))
  {
    var c, base, plan := w.codec, l.pc.base, l.pc.plan;
    var kept := Kept(c, base, w.retention);
    hide Kept, Used, Referenced;
    if Unchanged(base, plan, r) {
      assert Pointers(r) == Pointers(base);
      forall d | d in plan.objects ensures !Used(c, r, d) {
        ReferencedIs(c, base, r, kept, d);
      }
    }
  }

  /** Retention refuses exactly when some publisher left a temporary file behind. */
  lemma RetentionRefusesExactlyOnLeftovers(w: World, s: System, pid: nat, f: Fate)
    requires Inv(w, s) && pid in s.procs && s.procs[pid].pc.Survey? && f.report.Success?
    ensures var refused := Release(Raised(Some(true), AtRetention));
            Act(w, s, Step(pid, f)).procs[pid].pc == refused <==> s.remote.temps != map[]
  {
    hide PlanOf, Sound, GoodJob;
    assert Holds(s, pid);
    SoundStoreIsPrunable(w.codec, s.remote, w.retention);
  }

  /** A temporary file that its publisher will not touch again. */
  predicate LeftBehind(s: System, key: Temp) {
    && key in s.remote.temps && key.owner in s.procs
    && var l := s.procs[key.owner];
       l.pc.Finished? || l.pc.Crashed? || key.serial < l.serial
  }

  predicate Writing(pid: nat, l: Local, key: Temp) {
    l.pc.Write? && key == Key(pid, l, l.pc.target)
  }

  /** A step touches no temporary file but the one its publisher is writing, and leaves that one only for good. */
  lemma StepTouchesItsOwn(w: World, r: Remote, pid: nat, l: Local, f: Fate, key: Temp)
    ensures var (r', l') := StepOf(w, r, pid, l, f);
            && l'.serial >= l.serial
            && (l.pc.Finished? || l.pc.Crashed? ==> l' == l)
            && (!Writing(pid, l, key) ==> (key in r'.temps <==> key in r.temps))
            && (Writing(pid, l, key) && key in r'.temps ==> l'.serial > l.serial || Writing(pid, l', key))
  {
    hide PlanOf, NextItem, AfterManifests;
  }

  lemma LeftoverStaysOneMore(w: World, s: System, e: Event, key: Temp)
    requires LeftBehind(s, key)
    ensures LeftBehind(Act(w, s, e), key)
  {
    if e.Step? && e.pid in s.procs {
      StepTouchesItsOwn(w, s.remote, e.pid, s.procs[e.pid], e.fate, key);
    }
    hide StepOf;
  }

  /** Nothing ever removes a temporary file that was left behind, and every retention that starts while it is
      there, whichever publisher's it is, refuses. */
  lemma {:induction false} LeftoverStopsRetentionForGood(w: World, s: System, key: Temp, events: seq<Event>)
    requires LeftBehind(s, key)
    ensures var s' := RunFrom(w, s, events);
            && LeftBehind(s', key)
            && forall pid, f :: pid in s'.procs && s'.procs[pid].pc.Survey? ==>
                 Act(w, s', Step(pid, f)).procs[pid].pc == Release(Raised(Some(true), AtRetention))
  {
    if events != [] {
      hide LeftBehind, Act;
      var n := |events| - 1;
      LeftoverStopsRetentionForGood(w, s, key, events[..n]);
      LeftoverStaysOneMore(w, RunFrom(w, s, events[..n]), events[n], key);
    }
    var s' := RunFrom(w, s, events);
    hide RunFrom;
    forall pid, f | pid in s'.procs && s'.procs[pid].pc.Survey?
      ensures Act(w, s', Step(pid, f)).procs[pid].pc == Release(Raised(Some(true), AtRetention))
    {
      assert key in s'.remote.temps;
    }
  }

  /** Every temporary file of a run is being written, or was left behind for good. */
  lemma {:induction false} EveryTemporaryIsOwned(w: World, events: seq<Event>, key: Temp)
    requires key in Run(w, events).remote.temps
    ensures LeftBehind(Run(w, events), key) ||
            (key.owner in Run(w, events).procs && Writing(key.owner, Run(w, events).procs[key.owner], key))
  {
    hide StepOf;
    var n := |events| - 1;
    var s, e := Run(w, events[..n]), events[n];
    if key in s.remote.temps {
      EveryTemporaryIsOwned(w, events[..n], key);
    }
    if e.Step? && e.pid in s.procs {
      StepTouchesItsOwn(w, s.remote, e.pid, s.procs[e.pid], e.fate, key);
    }
  }

  /** Over every run a file is left behind only by a crash while it was being written, or by a removal that did not
      take effect; every removal that did leaves none. */
  lemma LeftoverComesFromAFailure(w: World, events: seq<Event>, e: Event, key: Temp)
    requires !LeftBehind(Run(w, events), key) && LeftBehind(Act(w, Run(w, events), e), key)
    ensures var s := Run(w, events);
            && e.pid == key.owner && key.owner in s.procs && Writing(key.owner, s.procs[key.owner], key)
            && (e.Crash? || (e.Step? && s.procs[e.pid].pc.phase.Sweep? && !e.fate.report.Success? && !e.fate.effect))
  {
    var s := Run(w, events);
    if key in s.remote.temps {
      EveryTemporaryIsOwned(w, events, key);
    }
    hide Run;
    if e.Step? && e.pid in s.procs {
      StepTouchesItsOwn(w, s.remote, e.pid, s.procs[e.pid], e.fate, key);
      if Writing(e.pid, s.procs[e.pid], key) {
        WritingEndsWithTheRemoval(w, s.remote, e.pid, s.procs[e.pid], e.fate, key);
      }
    }
    hide StepOf;
  }

  lemma WritingEndsWithTheRemoval(w: World, r: Remote, pid: nat, l: Local, f: Fate, key: Temp)
    requires Writing(pid, l, key)
    ensures var (r', l') := StepOf(w, r, pid, l, f);
            if l.pc.phase.Sweep? then f.report.Success? || f.effect ==> key !in r'.temps else Writing(pid, l', key)
  {
    hide PlanOf, NextItem, AfterManifests;
  }

  // ----- a wrong answer -----

  const OK := Fate(true, Success, None)

  lemma OneMore(w: World, events: seq<Event>, f: Fate)
    ensures Run(w, events + [Step(0, f)]) == Act(w, Run(w, events), Step(0, f))
  {
    hide Act;
    assert (events + [Step(0, f)])[..|events|] == events;
  }

  /** Uploading, checking and renaming one file without a fault. */
  lemma CleanFile(w: World, events: seq<Event>, r: Remote, l: Local, t: Target, content: Blob)
    returns (longer: seq<Event>)
    requires GoodEvents(w.codec, events)
    requires Run(w, events) == System(r, map[0 := l]) && l.pc == Write(t, Upload) && r.temps == map[]
    requires !t.ToPrevious? && w.codec.hash(content) == ExpectedHash(t)
    ensures GoodEvents(w.codec, longer)
    ensures var l' := l.(serial := l.serial + 1, pc := Write(t, Sweep(true)));
            Run(w, longer) == System(Moved(r, t, content), map[0 := Written(l', t)])
  {
    hide Run, Moved, Written;
    longer := CleanStage(w, events, r, l, t, content);
    longer := CleanRename(w, longer, r, l.(pc := Write(t, Move)), t, content);
  }

  lemma CleanStage(w: World, events: seq<Event>, r: Remote, l: Local, t: Target, content: Blob)
    returns (longer: seq<Event>)
    requires GoodEvents(w.codec, events)
    requires Run(w, events) == System(r, map[0 := l]) && l.pc == Write(t, Upload) && r.temps == map[]
    requires !t.ToPrevious? && w.codec.hash(content) == ExpectedHash(t)
    ensures GoodEvents(w.codec, longer)
    ensures Run(w, longer) == System(r.(temps := map[Key(0, l, t) := content]), map[0 := l.(pc := Write(t, Move))])
  {
    hide Run, ExpectedHash, PlaceOf;
    var staged := r.(temps := map[Key(0, l, t) := content]);
    longer := More(w, events, Fate(true, Success, Some(content)), System(staged, map[0 := l.(pc := Write(t, Check))]));
    longer := More(w, longer, OK, System(staged, map[0 := l.(pc := Write(t, Chmod))]));
    longer := More(w, longer, OK, System(staged, map[0 := l.(pc := Write(t, Move))]));
  }

  lemma CleanRename(w: World, events: seq<Event>, r: Remote, l: Local, t: Target, content: Blob)
    returns (longer: seq<Event>)
    requires GoodEvents(w.codec, events) && l.pc == Write(t, Move) && r.temps == map[]
    requires Run(w, events) == System(r.(temps := map[Key(0, l, t) := content]), map[0 := l])
    ensures GoodEvents(w.codec, longer)
    ensures var l' := l.(serial := l.serial + 1, pc := Write(t, Sweep(true)));
            Run(w, longer) == System(Moved(r, t, content), map[0 := Written(l', t)])
  {
    hide Run, Moved, Written, PlaceOf;
    var key := Key(0, l, t);
    var temps, moved := map[key := content], Moved(r, t, content);
    MovedKeepsTemps(r, t, content, temps);
    assert temps - {key} == map[] && map[] - {key} == r.temps;
    longer := More(w, events, OK, System(moved, map[0 := l.(pc := Write(t, Sweep(true)))]));
    assert moved.(temps := moved.temps - {key}) == moved;
    var swept := l.(serial := l.serial + 1, pc := Write(t, Sweep(true)));
    longer := More(w, longer, OK, System(moved, map[0 := Written(swept, t)]));
  }

  lemma MovedKeepsTemps(r: Remote, t: Target, content: Blob, temps: map<Temp, Blob>)
    ensures Moved(r.(temps := temps), t, content).(temps := r.temps) == Moved(r, t, content)
    ensures Moved(r, t, content).temps == r.temps
  {
  }

  lemma More(w: World, events: seq<Event>, f: Fate, next: System) returns (longer: seq<Event>)
    requires GoodEvents(w.codec, events) && Act(w, Run(w, events), Step(0, f)) == next
    ensures longer == events + [Step(0, f)] && GoodEvents(w.codec, longer) && Run(w, longer) == next
  {
    hide Act;
    longer := events + [Step(0, f)];
    OneMore(w, events, f);
  }

  /** The first publish ever, in which only the last hash read fails: the caller is told `not committed`
      although `current` is the published manifest. */
  lemma FinalReadFailureReportsNotCommitted(w: World, item: Prepared) returns (events: seq<Event>)
    requires Verified(w.codec, item)
    ensures GoodEvents(w.codec, events)
    ensures var s := Run(w, events);
            && 0 in s.procs && s.procs[0].pc == Finished(Raised(Some(false), AtConfirm)) && s.procs[0].entry == None
            && s.remote.current == Some(item.text) && !s.remote.lock
  {
    var job := Job([], Some(item));
    var l := Local(job, {}, {}, 0, None, Presence);
    assert Items(job) == [item];
    events := [Spawn(0, job)];
    assert events[..0] == [] && map[][0 := Fresh(job)] == map[0 := Fresh(job)];
    assert Run(w, events) == System(EMPTY, map[0 := Fresh(job)]);
    hide Run;
    var locked := EMPTY.(lock := true);
    events := More(w, events, OK, System(locked, map[0 := l]));
    NothingPresent(w, locked, l, item);
    l := l.(pc := Write(ToObject(item, 0), Upload));
    events := More(w, events, OK, System(locked, map[0 := l]));
    events := CleanFile(w, events, locked, l, ToObject(item, 0), item.snapshot);
    var stored := locked.(objects := map[item.manifest.objectName := item.snapshot]);
    assert map[][item.manifest.objectName := item.snapshot] == map[item.manifest.objectName := item.snapshot];
    FirstItemWritten(l.(serial := 1, pc := Write(ToObject(item, 0), Sweep(true))), item);
    l := l.(serial := 1, objects := {item.manifest.objectName}, pc := Write(ToArchive(item, 0), Upload));
    events := CleanFile(w, events, stored, l, ToArchive(item, 0), item.text);
    stored := stored.(archives := map[item.digest := item.text]);
    FirstItemWritten(l.(serial := 2, pc := Write(ToArchive(item, 0), Sweep(true))), item);
    l := l.(serial := 2, archives := {item.digest}, pc := LookCurrent(item));
    assert map[][item.digest := item.text] == map[item.digest := item.text];
    events := CommitWithLostConfirm(w, events, stored, l, item);
  }

  lemma NothingPresent(w: World, r: Remote, l: Local, item: Prepared)
    requires r.objects == map[] && r.archives == map[] && l.objects == {} && l.archives == {}
    requires l.job == Job([], Some(item))
    ensures PresenceStep(w, r, l, OK) == l.(pc := Write(ToObject(item, 0), Upload))
  {
    assert Items(l.job) == [item];
    assert (set p | p in Items(l.job) && p.manifest.objectName in r.objects :: p.manifest.objectName) == {};
    assert (set p | p in Items(l.job) && p.digest in r.archives :: p.digest) == {};
    assert l.(objects := {}, archives := {}) == l;
  }

  lemma FirstItemWritten(l: Local, item: Prepared)
    requires l.job == Job([], Some(item)) && l.archives == {}
    ensures l.objects == {} ==>
              Written(l, ToObject(item, 0))
              == l.(objects := {item.manifest.objectName}, pc := Write(ToArchive(item, 0), Upload))
    ensures l.objects == {item.manifest.objectName} ==>
              Written(l, ToArchive(item, 0)) == l.(archives := {item.digest}, pc := LookCurrent(item))
  {
    assert Items(l.job) == [item];
    assert {} + {item.digest} == {item.digest} && {} + {item.manifest.objectName} == {item.manifest.objectName};
  }

  lemma CommitWithLostConfirm(w: World, events: seq<Event>, r: Remote, l: Local, item: Prepared)
    returns (longer: seq<Event>)
    requires GoodEvents(w.codec, events) && Verified(w.codec, item)
    requires Run(w, events) == System(r, map[0 := l]) && l.pc == LookCurrent(item)
    requires r.temps == map[] && r.current == r.lastKnownGood == None && r.lock
    ensures GoodEvents(w.codec, longer)
    ensures var s := Run(w, longer);
            && 0 in s.procs && s.procs[0].pc == Finished(Raised(Some(false), AtConfirm)) && s.procs[0].entry == l.entry
            && s.remote.current == Some(item.text) && !s.remote.lock
  {
    hide Run;
    var l1 := l.(pc := LookLastKnownGood(item));
    longer := More(w, events, OK, System(r, map[0 := l1]));
    l1 := l.(pc := Write(ToLastKnownGood(item), Upload));
    longer := More(w, longer, OK, System(r, map[0 := l1]));
    longer := CleanFile(w, longer, r, l1, ToLastKnownGood(item), item.text);
    l1 := l.(serial := l.serial + 1, pc := Write(ToCurrent(item), Upload));
    var r1 := r.(lastKnownGood := Some(item.text));
    longer := CleanFile(w, longer, r1, l1, ToCurrent(item), item.text);
    l1 := l.(serial := l.serial + 2, pc := Confirm(item));
    r1 := r1.(current := Some(item.text));
    l1 := l1.(pc := Release(Raised(Some(false), AtConfirm)));
    longer := More(w, longer, Fate(false, Lost, None), System(r1, map[0 := l1]));
    l1 := l1.(pc := Finished(Raised(Some(false), AtConfirm)));
    longer := More(w, longer, OK, System(r1.(lock := false), map[0 := l1]));
  }
}
