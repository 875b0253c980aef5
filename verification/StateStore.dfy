/** Episode sequence numbers that survive restarts of the audit hook. */
module StateStore {
  import opened Wrappers

  datatype Record = Record(bootId: string, next: nat)

  /** What one atomic save did: it may land and still be reported as failed. */
  datatype SaveFate = Saved | LandedButFailed | NotLanded

  function Disk(was: Option<Record>, now: Record, fate: SaveFate): Option<Record> {
    if fate.NotLanded? then was else Some(now)
  }

  class Store {
    var bootId: string
    var next: nat
    var disk: Option<Record>

    constructor (bootId: string, disk: Option<Record>)
      ensures this.bootId == bootId && next == 0 && this.disk == disk
    {
      this.bootId := bootId;
      this.next := 0;
      this.disk := disk;
    }

    /** Reads the state file; a missing file or another boot starts again from zero. */
    method Load(fate: SaveFate) returns (ok: bool)
      modifies this
      ensures bootId == old(bootId)
      ensures (ok, next, disk) == Loaded(old(disk), bootId, fate)
    {
      if disk.Some? && disk.value.bootId == bootId {
        next := disk.value.next;
        return true;
      }
      next := 0;
      disk := Disk(disk, Record(bootId, next), fate);
      ok := fate.Saved?;
    }

    /** The counter moves before the save; a failed save raises and the number is never handed out. */
    method Allocate(fate: SaveFate) returns (sequence: Option<nat>)
      modifies this
      ensures bootId == old(bootId) && next == old(next) + 1
      ensures disk == Disk(old(disk), Record(bootId, next), fate)
      ensures sequence == if fate.Saved? then Some(old(next)) else None
    {
      var value := next;
      next := next + 1;
      disk := Disk(disk, Record(bootId, next), fate);
      sequence := if fate.Saved? then Some(value) else None;
    }
  }

  function Loaded(disk: Option<Record>, bootId: string, fate: SaveFate): (bool, nat, Option<Record>) {
    if disk.Some? && disk.value.bootId == bootId then (true, disk.value.next, disk)
    else (fate.Saved?, 0, Disk(disk, Record(bootId, 0), fate))
  }

  // ----- runs over crashes, restarts and reboots -----

  /** The machine: the file, the running hook if any, every boot id seen, and every pair handed out. */
  datatype Machine = Machine(
    disk: Option<Record>, hook: Option<Record>, boot: string, boots: set<string>, used: seq<(string, nat)>)

  datatype Action =
    | Start(fate: SaveFate)
    | Allocate(fate: SaveFate)
    | Crash
    | Reboot(boot: string)

  function Act(m: Machine, a: Action): Machine {
    match a
    case Start(fate) =>
      var (ok, next, disk) := Loaded(m.disk, m.boot, fate);
      m.(disk := disk, hook := if ok then Some(Record(m.boot, next)) else None)
    case Allocate(fate) =>
      if m.hook.None? then m
      else
        var now := m.hook.value.(next := m.hook.value.next + 1);
        m.(disk := Disk(m.disk, now, fate), hook := Some(now),
           used := m.used + if fate.Saved? then [(now.bootId, m.hook.value.next)] else [])
    case Crash => m.(hook := None)
    case Reboot(boot) => m.(hook := None, boot := boot, boots := m.boots + {boot})
  }

  function Run(boot: string, actions: seq<Action>): Machine {
    if actions == [] then Machine(None, None, boot, {boot}, [])
    else Act(Run(boot, actions[..|actions| - 1]), actions[|actions| - 1])
  }

  /** Every reboot brings a boot id never seen before. */
  ghost predicate FreshBoots(boot: string, actions: seq<Action>) {
    forall i :: 0 <= i < |actions| && actions[i].Reboot? ==> actions[i].boot !in Run(boot, actions[..i]).boots
  }

  ghost predicate Inv(m: Machine) {
    && m.boot in m.boots
    && (m.hook.Some? ==> m.hook.value.bootId == m.boot && m.disk.Some?)
    && (m.disk.Some? ==> m.disk.value.bootId in m.boots)
    && (m.hook.Some? ==> m.disk.value.bootId == m.boot && m.disk.value.next <= m.hook.value.next)
    && (forall i :: 0 <= i < |m.used| ==> m.used[i].0 in m.boots)
    && (forall i :: 0 <= i < |m.used| && m.used[i].0 == m.boot ==>
          m.disk.Some? && m.disk.value.bootId == m.boot && m.used[i].1 < m.disk.value.next)
    && (forall i, j :: 0 <= i < j < |m.used| ==> m.used[i] != m.used[j])
  }

  lemma InvStep(m: Machine, a: Action)
    requires Inv(m) && (a.Reboot? ==> a.boot !in m.boots)
    ensures Inv(Act(m, a))
  {
  }

  /** No (boot id, sequence) pair is ever handed out twice, whatever fails, crashes or restarts. */
  lemma {:induction false} SequencesAreNeverReused(boot: string, actions: seq<Action>)
    requires FreshBoots(boot, actions)
    ensures Inv(Run(boot, actions))
    ensures var used := Run(boot, actions).used;
            forall i, j :: 0 <= i < j < |used| ==> used[i] != used[j]
  {
    if actions != [] {
      var n := |actions| - 1;
      forall i | 0 <= i < n ensures actions[..n][..i] == actions[..i] {
      }
      SequencesAreNeverReused(boot, actions[..n]);
      InvStep(Run(boot, actions[..n]), actions[n]);
    }
  }

  // ----- numbers without gaps -----

  function Fate(a: Action): SaveFate {
    if a.Start? || a.Allocate? then a.fate else Saved
  }

  /** How many numbers a boot was given. */
  function Given(used: seq<(string, nat)>, boot: string): nat {
    if used == [] then 0 else Given(used[..|used| - 1], boot) + if used[|used| - 1].0 == boot then 1 else 0
  }

  ghost predicate Gapless(used: seq<(string, nat)>) {
    forall i :: 0 <= i < |used| ==> used[i].1 == Given(used[..i], used[i].0)
  }

  ghost predicate InStep(m: Machine) {
    && Gapless(m.used)
    && (m.hook.Some? ==> m.disk == m.hook)
    && Given(m.used, m.boot) == (if m.disk.Some? && m.disk.value.bootId == m.boot then m.disk.value.next else 0)
  }

  lemma {:induction false} NeverGiven(used: seq<(string, nat)>, boot: string)
    requires forall i :: 0 <= i < |used| ==> used[i].0 != boot
    ensures Given(used, boot) == 0
  {
    if used != [] {
      NeverGiven(used[..|used| - 1], boot);
    }
  }

  lemma OneMoreGiven(used: seq<(string, nat)>, boot: string, n: nat)
    requires Gapless(used) && Given(used, boot) == n
    ensures Gapless(used + [(boot, n)]) && Given(used + [(boot, n)], boot) == n + 1
  {
    var more := used + [(boot, n)];
    assert more[..|used|] == used;
    forall i | 0 <= i < |more| ensures more[i].1 == Given(more[..i], more[i].0) {
      assert more[..i] == used[..i];
      assert used[..|used|] == used;
    }
  }

  lemma StepKeepsCount(m: Machine, a: Action)
    requires Inv(m) && InStep(m) && Fate(a).Saved? && (a.Reboot? ==> a.boot !in m.boots)
    ensures InStep(Act(m, a))
  {
    match a
    case Start(_) =>
    case Allocate(_) =>
      if m.hook.Some? {
        OneMoreGiven(m.used, m.boot, m.hook.value.next);
      }
    case Crash =>
    case Reboot(boot) =>
      NeverGiven(m.used, boot);
  }

  /** When every save succeeds, each boot is given 0, 1, 2 and so on, whatever crashes or restarts in between. */
  lemma {:induction false} NumbersHaveNoGaps(boot: string, actions: seq<Action>)
    requires FreshBoots(boot, actions) && forall i :: 0 <= i < |actions| ==> Fate(actions[i]).Saved?
    ensures InStep(Run(boot, actions))
  {
    if actions != [] {
      hide InStep, Inv;
      var n := |actions| - 1;
      forall i | 0 <= i < n ensures actions[..n][..i] == actions[..i] {
      }
      NumbersHaveNoGaps(boot, actions[..n]);
      SequencesAreNeverReused(boot, actions[..n]);
      StepKeepsCount(Run(boot, actions[..n]), actions[n]);
    } else {
      assert InStep(Run(boot, []));
    }
  }
}
