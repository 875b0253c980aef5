/** One publisher as a program: loops, early exits and cleanup, each command a step of the protocol. */
module RemotePublisher {
  import opened Wrappers
  import opened RemoteStore
  import opened RemoteProtocol
  import Solo = RemoteSolo

  lemma LeastIsUnique(s: set<Digest>, d: Digest)
    requires s != {} && IsLeast(s, d)
    ensures Least(s) == d
  {
    LeastExists(s);
    var e :| IsLeast(s, e) && Least(s) == e;
  }

  method LeastOf(s: set<Digest>) returns (d: Digest)
    requires s != {}
    ensures d == Least(s)
  {
    d :| d in s;
    var left := s - {d};
    while left != {}
      invariant d in s && left <= s
      invariant forall e :: e in s && e !in left ==> d <= e
    {
      var e :| e in left;
      if e < d {
        d := e;
      }
      left := left - {e};
    }
    LeastIsUnique(s, d);
  }

  lemma NewestIsUnique(m: map<Digest, Manifest>, left: set<Digest>, d: Digest)
    requires left <= m.Keys && left != {} && IsNewest(m, left, d)
    ensures Newest(m, left) == d
  {
  }

  method NewestOf(m: map<Digest, Manifest>, among: set<Digest>) returns (d: Digest)
    requires among <= m.Keys && among != {}
    ensures d == Newest(m, among)
  {
    d :| d in among;
    var left := among - {d};
    while left != {}
      invariant d in among && left <= among
      invariant forall e :: e in among && e !in left && e != d ==> Older(m[e], e, m[d], d)
    {
      var e :| e in left;
      if Older(m[d], d, m[e], e) {
        d := e;
      }
      left := left - {e};
    }
    NewestIsUnique(m, among, d);
  }

  /** The slice of the newest `n` of the archives sorted newest first. */
  method RecentOf(m: map<Digest, Manifest>, n: nat) returns (recent: set<Digest>)
    ensures recent == Recent(m, m.Keys, n)
  {
    recent := {};
    var left := m.Keys;
    var room := n;
    while room > 0 && left != {}
      invariant left <= m.Keys
      invariant Recent(m, m.Keys, n) == recent + Recent(m, left, room)
    {
      var d := NewestOf(m, left);
      recent, left, room := recent + {d}, left - {d}, room - 1;
    }
  }

  /** The digests the pointers name, and the objects that these and the kept archives reference. */
  method KeptAndReferenced(c: Codec, r: Remote, recent: set<Digest>) returns (kept: set<Digest>, used: set<Digest>)
    requires forall d :: d in r.archives ==> c.decode(r.archives[d]).Some?
    requires forall b :: b in Pointers(r) ==> c.decode(b).Some?
    ensures kept == recent + (set b | b in Pointers(r) :: c.hash(b))
    ensures used == Referenced(c, r, kept)
  {
    hide Pointers;
    kept, used := recent, {};
    var pointers := Pointers(r);
    var left := pointers;
    while left != {}
      invariant left <= pointers
      invariant kept == recent + (set b | b in pointers - left :: c.hash(b))
      invariant used == set b | b in pointers - left :: c.decode(b).value.objectName
    {
      var b :| b in left;
      assert pointers - (left - {b}) == (pointers - left) + {b};
      kept, used, left := kept + {c.hash(b)}, used + {c.decode(b).value.objectName}, left - {b};
    }
    assert pointers - left == pointers;
    used := used + set d | d in r.archives && d in kept :: c.decode(r.archives[d]).value.objectName;
  }

  method ComputePlan(c: Codec, r: Remote, retention: nat) returns (plan: Result<Plan, Refusal>)
    ensures plan == PlanOf(c, r, retention)
  {
    hide Recent, Referenced;
    var pointers := Pointers(r);
    if r.temps != map[] {
      return Err(StrayEntry);
    }
    if r.current.None? {
      return Err(NoCurrent);
    }
    if exists d :: d in r.archives && !GoodArchive(c, d, r.archives[d]) {
      return Err(BadArchive);
    }
    if exists b :: b in pointers && c.decode(b).None? {
      return Err(BadPointer);
    }
    if exists d :: d in r.objects && c.hash(r.objects[d]) != d {
      return Err(BadObject);
    }
    if (exists d :: d in r.archives && !Resolves(c, r.objects, r.archives[d]))
       || (exists b :: b in pointers && !Resolves(c, r.objects, b)) {
      return Err(MissingObject);
    }
    hide Pointers;
    var m := Decoded(c, r.archives);
    assert m.Keys == r.archives.Keys;
    var recent := RecentOf(m, retention);
    var kept, used := KeptAndReferenced(c, r, recent);
    return Ok(Plan(r.archives.Keys - kept, r.objects.Keys - used));
  }

  /** Which files of a batch the listings contain. */
  method Present(items: seq<Prepared>, r: Remote) returns (objects: set<Digest>, archives: set<Digest>)
    ensures objects == set p | p in items && p.manifest.objectName in r.objects :: p.manifest.objectName
    ensures archives == set p | p in items && p.digest in r.archives :: p.digest
  {
    objects, archives := {}, {};
    for i := 0 to |items|
      invariant objects == set p | p in items[..i] && p.manifest.objectName in r.objects :: p.manifest.objectName
      invariant archives == set p | p in items[..i] && p.digest in r.archives :: p.digest
    {
      assert items[..i + 1] == items[..i] + [items[i]];
      if items[i].manifest.objectName in r.objects {
        objects := objects + {items[i].manifest.objectName};
      }
      if items[i].digest in r.archives {
        archives := archives + {items[i].digest};
      }
    }
    assert items[..|items|] == items;
  }

  method PutInPlace(r: Remote, t: Target, content: Blob) returns (r': Remote)
    ensures r' == Moved(r, t, content)
  {
    match t
    case ToObject(item, _) => r' := r.(objects := r.objects[item.manifest.objectName := content]);
    case ToArchive(item, _) => r' := r.(archives := r.archives[item.digest := content]);
    case ToPrevious(_) => r' := r.(previous := Some(content));
    case ToLastKnownGood(_) => r' := r.(lastKnownGood := Some(content));
    case ToCurrent(_) => r' := r.(current := Some(content));
  }

  lemma {:induction false} NextItemIgnoresPc(l: Local, pc: Pc, serial: nat, i: nat)
    ensures NextItem(l.(pc := pc, serial := serial), i) == NextItem(l, i)
    decreases |Items(l.job)| - i
  {
    if i < |Items(l.job)| {
      NextItemIgnoresPc(l, pc, serial, i + 1);
    }
  }

  lemma NextItemDecides(l: Local, i: nat)
    requires i < |Items(l.job)|
    ensures var item := Items(l.job)[i];
            NextItem(l, i) == if item.manifest.objectName !in l.objects then Write(ToObject(item, i), Upload)
                              else if item.digest !in l.archives then Write(ToArchive(item, i), Upload)
                              else NextItem(l, i + 1)
  {
  }

  lemma WrittenDecides(l: Local, t: Target)
    requires t.ToObject? || t.ToArchive?
    ensures var l' := Written(l, t);
            && l'.job == l.job && l'.entry == l.entry
            && l'.objects == (if t.ToObject? then l.objects + {t.item.manifest.objectName} else l.objects)
            && l'.archives == (if t.ToArchive? then l.archives + {t.item.digest} else l.archives)
            && l'.pc == if t.item.digest !in l'.archives then Write(ToArchive(t.item, t.i), Upload)
                        else NextItem(l', t.i + 1)
  {
    hide NextItem;
    var found := if t.ToObject? then l.(objects := l.objects + {t.item.manifest.objectName})
                 else l.(archives := l.archives + {t.item.digest});
    NextItemIgnoresPc(found, Written(l, t).pc, l.serial, t.i + 1);
  }

  lemma NextItemFromRecords(l: Local)
    ensures forall objects, archives ::
              var found := l.(objects := objects, archives := archives);
              NextItem(found.(pc := NextItem(found, 0)), 0) == NextItem(found, 0)
  {
    hide NextItem;
    forall objects, archives
      ensures var found := l.(objects := objects, archives := archives);
              NextItem(found.(pc := NextItem(found, 0)), 0) == NextItem(found, 0)
    {
      var found := l.(objects := objects, archives := archives);
      NextItemIgnoresPc(found, NextItem(found, 0), l.serial, 0);
    }
  }

  /** Where a publisher goes on depends on its records only. */
  lemma WrittenIgnoresPc(l: Local, pc: Pc, t: Target)
    ensures Written(l.(pc := pc), t) == Written(l, t)
    ensures Written(l, t).job == l.job && Written(l, t).serial == l.serial
  {
    hide NextItem;
    if t.ToObject? {
      NextItemIgnoresPc(l.(objects := l.objects + {t.item.manifest.objectName}), pc, l.serial, t.i + 1);
    } else if t.ToArchive? {
      NextItemIgnoresPc(l.(archives := l.archives + {t.item.digest}), pc, l.serial, t.i + 1);
    }
  }

  /** The last command of a write in the protocol: the temporary is removed, or not, and the publisher goes on. */
  lemma SweepStep(w: World, r: Remote, pid: nat, l: Local, t: Target, moved: bool, f: Fate)
    requires l.pc == Write(t, Sweep(moved))
    ensures var swept := l.(serial := l.serial + 1);
            StepOf(w, r, pid, l, f) ==
            (if Took(f) then r.(temps := r.temps - {Temp(PlaceOf(t), pid, l.serial)}) else r,
             if moved && !f.report.Lost? then Written(swept, t)
             else Fail(swept, if t.ToCurrent? then None else Some(false), WhereOf(t)))
  {
    hide Written, Moved, PlaceOf, WhereOf;
  }

  // ----- what a write does to the store -----

  /** The content of the file a write is for. */
  function FileAt(r: Remote, t: Target): Option<Blob> {
    match t
    case ToObject(item, _) =>
      if item.manifest.objectName in r.objects then Some(r.objects[item.manifest.objectName]) else None
    case ToArchive(item, _) => if item.digest in r.archives then Some(r.archives[item.digest]) else None
    case ToPrevious(_) => r.previous
    case ToLastKnownGood(_) => r.lastKnownGood
    case ToCurrent(_) => r.current
  }

  /** What a write may leave in its file: a copy of `current` as `previous`, else the content it was asked for. */
  ghost predicate Intended(c: Codec, was: Remote, t: Target, b: Blob) {
    if t.ToPrevious? then was.current.Some? ==> b == was.current.value else c.hash(b) == ExpectedHash(t)
  }

  ghost predicate Landed(c: Codec, was: Remote, r: Remote, t: Target) {
    FileAt(r, t).Some? && Intended(c, was, t, FileAt(r, t).value)
  }

  /** Besides temporary files nothing has changed but the file of the write, and that only to what was intended. */
  ghost predicate OnlyWrote(c: Codec, was: Remote, r: Remote, t: Target) {
    || r.(temps := was.temps) == was
    || (Landed(c, was, r, t) && r.(temps := was.temps) == Moved(was, t, FileAt(r, t).value))
  }

  /** Staging, at most one rename of what was staged, and removing what is left of it. */
  lemma WriteLands(
    c: Codec, was: Remote, staged: Remote, moved: Remote, after: Remote, t: Target, b: Option<Blob>, good: bool)
    requires staged == was.(temps := staged.temps) && after == moved.(temps := after.temps)
    requires || (!good && moved == staged)
             || (b.Some? && Intended(c, was, t, b.value)
                 && moved == Moved(staged, t, b.value).(temps := moved.temps))
    ensures OnlyWrote(c, was, after, t) && (good ==> Landed(c, was, after, t))
  {
    hide Intended;
  }

  predicate Names(c: Codec, pointer: Option<Blob>, item: Prepared) {
    pointer.Some? && c.hash(pointer.value) == item.digest
  }

  /** Only the three pointers may have changed: `previous` to what `current` was, the others to the snapshot. */
  predicate OnlyPointers(c: Codec, was: Remote, r: Remote, item: Prepared) {
    && r == was.(temps := r.temps, current := r.current, previous := r.previous, lastKnownGood := r.lastKnownGood)
    && (r.previous == was.previous || r.previous == was.current)
    && (r.lastKnownGood == was.lastKnownGood || Names(c, r.lastKnownGood, item))
    && (r.current == was.current || Names(c, r.current, item))
  }

  lemma PreviousWritten(c: Codec, was: Remote, r: Remote, item: Prepared)
    requires OnlyWrote(c, was, r, ToPrevious(item)) && (r.previous == was.previous || r.previous == was.current)
    ensures OnlyPointers(c, was, r, item) && r.current == was.current && r.lastKnownGood == was.lastKnownGood
  {
  }

  lemma LastKnownGoodWritten(c: Codec, was: Remote, r: Remote, r': Remote, item: Prepared)
    requires OnlyPointers(c, was, r, item) && OnlyWrote(c, r, r', ToLastKnownGood(item))
    ensures OnlyPointers(c, was, r', item) && r'.current == r.current && r'.previous == r.previous
  {
  }

  lemma CurrentWritten(c: Codec, was: Remote, r: Remote, r': Remote, item: Prepared)
    requires OnlyPointers(c, was, r, item) && OnlyWrote(c, r, r', ToCurrent(item))
    ensures OnlyPointers(c, was, r', item) && r'.previous == r.previous && r'.lastKnownGood == r.lastKnownGood
    ensures Landed(c, r, r', ToCurrent(item)) ==> Names(c, r'.current, item)
  {
  }

  /** What the commit of `current` has done to the pointers, answer by answer. */
  predicate Commits(c: Codec, was: Remote, r: Remote, item: Prepared, updated: Result<bool, Verdict>) {
    var moves := c.isFresh(item.snapshot) || was.lastKnownGood.None?;
    match updated
    case Ok(false) => r == was && Names(c, was.current, item)
    case Ok(true) =>
      && Names(c, r.current, item) && !Names(c, was.current, item)
      && (was.current.Some? ==> r.previous == was.current)
      && if moves then Names(c, r.lastKnownGood, item) else r.lastKnownGood == was.lastKnownGood
    case Err(Raised(Some(false), AtPrevious)) => r.current == was.current && r.lastKnownGood == was.lastKnownGood
    case Err(Raised(Some(false), AtLastKnownGood)) => r.current == was.current && !Names(c, was.current, item)
    case Err(Raised(None, AtCurrent)) => !Names(c, was.current, item)
    case Err(Raised(Some(false), AtConfirm)) => Names(c, r.current, item) && !Names(c, was.current, item)
    case Err(_) => false
  }

  class SnapshotPublisher {
    const world: World
    const pid: nat
    const job: Job
    const script: nat -> Fate
    ghost const store: Remote

    var host: Remote
    var presentObjects: set<Digest>
    var presentArchives: set<Digest>
    var serial: nat
    var commands: nat
    ghost var local: Local

    constructor (world: World, pid: nat, job: Job, script: nat -> Fate, store: Remote)
      ensures Follows() && host == store && local == Fresh(job)
      ensures this.world == world && this.pid == pid && this.job == job && this.script == script && this.store == store
    {
      this.world, this.pid, this.job, this.script, this.store, this.host := world, pid, job, script, store, store;
      this.presentObjects, this.presentArchives, this.serial, this.commands, this.local := {}, {}, 0, 0, Fresh(job);
    }

    /** The commands issued so far are the steps of this publisher in the protocol. */
    ghost predicate Follows()
      reads this`host, this`serial, this`commands, this`local
    {
      && After(world, store, pid, Fresh(job), script, commands) == (host, local)
      && local.job == job && local.serial == serial
    }

    ghost predicate Recalls()
      reads this
    {
      local.objects == presentObjects && local.archives == presentArchives
    }

    /** Accounts for the command just issued: the store has changed as the protocol's step says. */
    ghost method Issued(was: Remote, fate: Fate)
      requires commands > 0 && After(world, store, pid, Fresh(job), script, commands - 1) == (was, local)
      requires fate == script(commands - 1) && local.job == job
      requires var (r, l) := StepOf(world, was, pid, local, fate); r == host && l.job == job && l.serial == serial
      modifies this`local
      ensures Follows()
      ensures (host, local) == StepOf(world, was, pid, old(local), fate)
    {
      hide StepOf;
      local := StepOf(world, was, pid, local, fate).1;
    }

    // ----- commands -----

    /** A command that only reads, and whether it could be read. */
    method Read() returns (ok: bool)
      requires Follows()
      requires var (r, l) := StepOf(world, host, pid, local, script(commands));
               r == host && l.job == job && l.serial == serial
      modifies this`commands, this`local
      ensures Follows() && ok == script(old(commands)).report.Success? && commands == old(commands) + 1
      ensures (host, local) == StepOf(world, host, pid, old(local), script(old(commands)))
    {
      hide StepOf;
      var f := script(commands);
      commands := commands + 1;
      Issued(host, f);
      ok := f.report.Success?;
    }

    function TempOf(t: Target): Temp
      reads this`serial
    {
      Temp(PlaceOf(t), pid, serial)
    }

    /** `scp` of a local file, or `cp` of the remote `current`, to a temporary. */
    method Upload(t: Target) returns (ok: bool)
      requires Follows() && local.pc == Write(t, RemoteProtocol.Upload)
      modifies this`host, this`commands, this`local
      ensures Follows()
      ensures local == old(local).(pc := Write(t, if !ok then Sweep(false) else if t.ToPrevious? then Chmod else Check))
      ensures host == old(host).(temps := host.temps)
      ensures ok && t.ToPrevious? && host.current.Some? ==>
                TempOf(t) in host.temps && host.temps[TempOf(t)] == host.current.value
    {
      hide PlaceOf;
      ghost var was := host;
      var f := script(commands);
      var content := if t.ToPrevious? && f.report.Success? then host.current else f.written;
      if content.Some? {
        host := host.(temps := host.temps[TempOf(t) := content.value]);
      }
      commands := commands + 1;
      Issued(was, f);
      ok := f.report.Success?;
    }

    /** `sha256sum` of the temporary, compared with what it must be. */
    method HashMatches(t: Target) returns (ok: bool)
      requires Follows() && local.pc == Write(t, Check)
      modifies this`commands, this`local
      ensures Follows() && local == old(local).(pc := Write(t, if ok then Chmod else Sweep(false)))
      ensures ok ==> TempOf(t) in host.temps && world.codec.hash(host.temps[TempOf(t)]) == ExpectedHash(t)
    {
      hide PlaceOf, ExpectedHash;
      var key := TempOf(t);
      var read := Read();
      ok := read && key in host.temps && world.codec.hash(host.temps[key]) == ExpectedHash(t);
    }

    method SetMode(t: Target) returns (ok: bool)
      requires Follows() && local.pc == Write(t, Chmod)
      modifies this`commands, this`local
      ensures Follows() && local == old(local).(pc := Write(t, if ok then Move else Sweep(false)))
    {
      ok := Read();
    }

    /** `mv` of the temporary over its destination. */
    method Rename(t: Target) returns (ok: bool)
      requires Follows() && local.pc == Write(t, Move)
      modifies this`host, this`commands, this`local
      ensures Follows() && local == old(local).(pc := Write(t, Sweep(ok)))
      ensures var temps := old(host).temps;
              || (!ok && host == old(host))
              || (TempOf(t) in temps && host == Moved(old(host), t, temps[TempOf(t)]).(temps := temps - {TempOf(t)}))
    {
      hide PlaceOf, Moved, After;
      ghost var was := host;
      var f := script(commands);
      var key := TempOf(t);
      ok := false;
      if key in host.temps && Took(f) {
        var content := host.temps[key];
        var renamed := PutInPlace(host, t, content);
        host := renamed.(temps := host.temps - {key});
        ok := f.report.Success?;
      }
      commands := commands + 1;
      Issued(was, f);
    }

    /** `rm -f` of the temporary; only a lost answer raises. */
    method RemoveTemp(t: Target, moved: bool) returns (ok: bool)
      requires Follows() && local.pc == Write(t, Sweep(moved))
      modifies this`host, this`serial, this`commands, this`local
      ensures Follows() && (ok ==> moved)
      ensures var l := old(local).(serial := old(local).serial + 1);
              local == if ok then Written(l, t) else Fail(l, if t.ToCurrent? then None else Some(false), WhereOf(t))
      ensures host == old(host).(temps := host.temps)
    {
      hide PlaceOf, WhereOf, Written, StepOf, After;
      ghost var was := host;
      var f := script(commands);
      SweepStep(world, host, pid, local, t, moved, f);
      if Took(f) {
        host := host.(temps := host.temps - {TempOf(t)});
      }
      WrittenIgnoresPc(local.(serial := serial + 1), local.pc, t);
      serial := serial + 1;
      commands := commands + 1;
      Issued(was, f);
      ok := moved && !f.report.Lost?;
    }

    /** Publishes one file through a temporary that is removed in any case. */
    method CommitFile(t: Target) returns (ok: bool)
      requires Follows() && local.pc == Write(t, RemoteProtocol.Upload)
      modifies this`host, this`serial, this`commands, this`local
      ensures Follows()
      ensures var l := old(local).(serial := old(local).serial + 1);
              local == if ok then Written(l, t) else Fail(l, if t.ToCurrent? then None else Some(false), WhereOf(t))
      ensures OnlyWrote(world.codec, old(host), host, t) && (ok ==> Landed(world.codec, old(host), host, t))
    {
      hide Written, Follows, WhereOf, PlaceOf, Moved, ExpectedHash, OnlyWrote, Landed, After, StepOf, FileAt;
      ghost var was, l := host, local;
      var good := Upload(t);
      if good && !t.ToPrevious? {
        good := HashMatches(t);
      }
      if good {
        good := SetMode(t);
      }
      ghost var staged := host;
      ghost var content := if TempOf(t) in staged.temps then Some(staged.temps[TempOf(t)]) else None;
      if good {
        good := Rename(t);
      }
      ghost var moved := host;
      WrittenIgnoresPc(l.(serial := l.serial + 1), local.pc, t);
      ok := RemoveTemp(t, good);
      WriteLands(world.codec, was, staged, moved, host, t, content, good);
    }

    // ----- the phases of one publish -----

    /** `mkdir` of the lock directory. */
    method Acquire() returns (ok: bool)
      requires Follows() && local.pc.Begin?
      modifies this`host, this`commands, this`local
      ensures Follows()
      ensures local == if ok then old(local).(entry := old(host).current, pc := Presence)
                       else old(local).(pc := Finished(Raised(Some(false), AtLock)))
    {
      ghost var was := host;
      var f := script(commands);
      ok := !host.lock && f.report.Success?;
      host := host.(lock := host.lock || Took(f));
      commands := commands + 1;
      Issued(was, f);
    }

    /** `rmdir` of the lock directory. */
    method GiveBack(v: Verdict) returns (outcome: Verdict)
      requires Follows() && local.pc == Release(v)
      modifies this`host, this`commands, this`local
      ensures Follows() && local.pc == Finished(outcome)
      ensures outcome == if v.Raised? || script(old(commands)).report.Success? then v else Raised(Some(true), AtUnlock)
      ensures outcome.Returned? ==> !host.lock
    {
      ghost var was := host;
      var f := script(commands);
      host := host.(lock := host.lock && !Took(f));
      commands := commands + 1;
      Issued(was, f);
      outcome := if !f.report.Success? && v.Returned? then Raised(Some(true), AtUnlock) else v;
    }

    /** Which files of the batch are there, each with the hash its name carries. */
    method VerifiedPresence() returns (ok: bool)
      requires Follows() && local.pc.Presence?
      modifies this`presentObjects, this`presentArchives, this`commands, this`local
      ensures Follows() && local.entry == old(local).entry
      ensures if ok then Recalls() && local.pc == NextItem(local, 0)
              else local.pc == Release(Raised(Some(false), AtPresence))
      ensures ok ==>
        && presentObjects == (set p | p in Items(job) && p.manifest.objectName in host.objects :: p.manifest.objectName)
        && presentArchives == set p | p in Items(job) && p.digest in host.archives :: p.digest
      ensures ok <==>
        && script(old(commands)).report.Success?
        && (forall p :: p in Items(job) && p.manifest.objectName in host.objects ==>
              world.codec.hash(host.objects[p.manifest.objectName]) == p.manifest.objectName)
        && (forall p :: p in Items(job) && p.digest in host.archives ==>
              world.codec.hash(host.archives[p.digest]) == p.digest)
    {
      hide NextItem, After;
      ghost var was := local;
      NextItemFromRecords(was);
      var read := Read();
      if !read {
        return false;
      }
      presentObjects, presentArchives := Present(Items(job), host);
      if (exists d :: d in presentObjects && world.codec.hash(host.objects[d]) != d)
         || (exists d :: d in presentArchives && world.codec.hash(host.archives[d]) != d) {
        return false;
      }
      ok := true;
    }

    /** Uploads the object and the archive of one snapshot unless they are there. */
    method EnsureImmutable(item: Prepared, i: nat) returns (ok: bool, archiveAdded: bool, objectAdded: bool)
      requires Follows() && Recalls() && i < |Items(job)| && Items(job)[i] == item && local.pc == NextItem(local, i)
      modifies this`host, this`presentObjects, this`presentArchives, this`serial, this`commands, this`local
      ensures Follows() && local.entry == old(local).entry
      ensures if ok then Recalls() && local.pc == NextItem(local, i + 1)
              else local.pc == Release(Raised(Some(false), AtImmutable))
      ensures ok ==> (archiveAdded <==> item.digest !in old(presentArchives))
      ensures ok ==> (objectAdded <==> item.manifest.objectName !in old(presentObjects))
    {
      hide After, StepOf, NextItem, Written;
      archiveAdded, objectAdded := false, false;
      NextItemDecides(local, i);
      if item.manifest.objectName !in presentObjects {
        WrittenDecides(local.(serial := local.serial + 1), ToObject(item, i));
        ok := CommitFile(ToObject(item, i));
        if !ok {
          return;
        }
        presentObjects, objectAdded := presentObjects + {item.manifest.objectName}, true;
      }
      if item.digest !in presentArchives {
        WrittenDecides(local.(serial := local.serial + 1), ToArchive(item, i));
        ok := CommitFile(ToArchive(item, i));
        if !ok {
          return;
        }
        presentArchives, archiveAdded := presentArchives + {item.digest}, true;
      }
      ok := true;
    }

    /** Copies `current` to `previous` unless it already is this snapshot; None when that raised. */
    method KeepPrevious(item: Prepared) returns (same: Option<bool>)
      requires Follows() && local.pc == LookCurrent(item)
      modifies this`host, this`serial, this`commands, this`local
      ensures Follows()
      ensures if same.Some? then local.pc == if same.value then Survey(item, false) else LookLastKnownGood(item)
              else local.pc == Release(Raised(Some(false), AtPrevious))
      ensures OnlyWrote(world.codec, old(host), host, ToPrevious(item))
      ensures host.previous == old(host).previous || host.previous == old(host).current
      ensures same == Some(true) ==> host == old(host) && Names(world.codec, host.current, item)
      ensures same == Some(false) ==> !Names(world.codec, old(host).current, item)
                                      && (old(host).current.Some? ==> host.previous == old(host).current)
    {
      hide After;
      var read := Read();
      if !read {
        return None;
      }
      if host.current.Some? {
        if world.codec.hash(host.current.value) == item.digest {
          return Some(true);
        }
        hide StepOf;
        var kept := CommitFile(ToPrevious(item));
        if !kept {
          return None;
        }
      }
      same := Some(false);
    }

    /** The last known good follows a fresh snapshot, or is set for the first time. */
    method RefreshLastKnownGood(item: Prepared) returns (ok: bool)
      requires Follows() && local.pc == LookLastKnownGood(item)
      modifies this`host, this`serial, this`commands, this`local
      ensures Follows()
      ensures local.pc == if ok then Write(ToCurrent(item), RemoteProtocol.Upload)
                          else Release(Raised(Some(false), AtLastKnownGood))
      ensures OnlyWrote(world.codec, old(host), host, ToLastKnownGood(item))
      ensures var moves := world.codec.isFresh(item.snapshot) || old(host).lastKnownGood.None?;
              if moves then ok ==> Names(world.codec, host.lastKnownGood, item) else host == old(host)
    {
      hide After;
      var read := Read();
      if !read {
        return false;
      }
      if world.codec.isFresh(item.snapshot) || host.lastKnownGood.None? {
        hide StepOf;
        ok := CommitFile(ToLastKnownGood(item));
        return;
      }
      ok := true;
    }

    /** Reads the hash of `current` once more. */
    method ConfirmCurrent(item: Prepared) returns (updated: Result<bool, Verdict>)
      requires Follows() && local.pc == Confirm(item)
      modifies this`commands, this`local
      ensures Follows()
      ensures local.pc == if updated.Ok? then Survey(item, updated.value) else Release(updated.error)
      ensures updated == if !script(old(commands)).report.Success? || host.current.None? then
                           Err(Raised(Some(false), AtConfirm))
                         else if Names(world.codec, host.current, item) then Ok(true)
                         else Err(Raised(Some(true), AtConfirm))
    {
      hide After;
      var read := Read();
      if !read || host.current.None? {
        return Err(Raised(Some(false), AtConfirm));
      }
      if world.codec.hash(host.current.value) != item.digest {
        return Err(Raised(Some(true), AtConfirm));
      }
      updated := Ok(true);
    }

    /** `current` is the authoritative commit point and is written last. */
    method CommitCurrent(item: Prepared) returns (updated: Result<bool, Verdict>)
      requires Follows() && local.pc == LookCurrent(item)
      modifies this`host, this`serial, this`commands, this`local
      ensures Follows()
      ensures local.pc == if updated.Ok? then Survey(item, updated.value) else Release(updated.error)
      ensures OnlyPointers(world.codec, old(host), host, item)
      ensures Commits(world.codec, old(host), host, item, updated)
    {
      hide After, OnlyWrote, OnlyPointers, Landed, Names;
      ghost var was := host;
      var same := KeepPrevious(item);
      PreviousWritten(world.codec, was, host, item);
      if same.None? {
        return Err(Raised(Some(false), AtPrevious));
      }
      if same.value {
        return Ok(false);
      }
      ghost var kept := host;
      var refreshed := RefreshLastKnownGood(item);
      LastKnownGoodWritten(world.codec, was, kept, host, item);
      if !refreshed {
        return Err(Raised(Some(false), AtLastKnownGood));
      }
      ghost var moved := host;
      var committed := CommitFile(ToCurrent(item));
      CurrentWritten(world.codec, was, moved, host, item);
      if !committed {
        return Err(Raised(None, AtCurrent));
      }
      updated := ConfirmCurrent(item);
    }

    /** Removes one archive, after checking that it still is what was surveyed. */
    method RemoveArchive(d: Digest) returns (ok: bool)
      requires Follows() && local.pc.DropManifests? && local.pc.left != {} && d == Least(local.pc.left)
      modifies this`host, this`commands, this`local
      ensures Follows()
      ensures var pc := old(local).pc;
              local == if !ok then Fail(old(local), Some(true), AtRetention)
                       else if pc.left == {d} then
                         old(local).(pc := AfterManifests(pc.item, pc.updated, pc.base, pc.plan))
                       else old(local).(pc := DropManifests(pc.item, pc.updated, pc.base, pc.plan, pc.left - {d}))
    {
      hide After, AfterManifests, Least;
      ghost var was := host;
      var f := script(commands);
      if Took(f) {
        host := host.(archives := host.archives - {d});
      }
      commands := commands + 1;
      Issued(was, f);
      ok := f.report.Success?;
    }

    method RemoveObject(d: Digest) returns (ok: bool)
      requires Follows() && local.pc.DropObjects? && local.pc.left != {} && d == Least(local.pc.left)
      modifies this`host, this`commands, this`local
      ensures Follows()
      ensures var pc := old(local).pc;
              local == if !ok then Fail(old(local), Some(true), AtRetention)
                       else if pc.left == {d} then old(local).(pc := Release(Returned(pc.updated)))
                       else old(local).(pc := DropObjects(pc.item, pc.updated, pc.base, pc.plan, pc.left - {d}))
    {
      hide After, Least;
      ghost var was := host;
      var f := script(commands);
      if Took(f) {
        host := host.(objects := host.objects - {d});
      }
      commands := commands + 1;
      Issued(was, f);
      ok := f.report.Success?;
    }

    /** Deletes manifests, then objects, as planned from one survey of the store. */
    method Prune(item: Prepared, updated: bool) returns (deleted: Option<(nat, nat)>)
      requires Follows() && local.pc == Survey(item, updated)
      modifies this`host, this`commands, this`local
      ensures Follows()
      ensures local.pc == Release(if deleted.Some? then Returned(updated) else Raised(Some(true), AtRetention))
      ensures deleted.Some? ==> PlanOf(world.codec, old(host), world.retention).Ok?
                                && var plan := PlanOf(world.codec, old(host), world.retention).value;
                                deleted == Some((|plan.manifests|, |plan.objects|))
    {
      hide After, PlanOf, Least;
      ghost var l := local;
      var base := host;
      var read := Read();
      var surveyed := ComputePlan(world.codec, base, world.retention);
      if !read || surveyed.Err? {
        return None;
      }
      var plan := surveyed.value;
      var left := plan.manifests;
      while left != {}
        invariant Follows()
        invariant local == l.(pc := if left == {} then AfterManifests(item, updated, base, plan)
                                    else DropManifests(item, updated, base, plan, left))
      {
        hide StepOf, Follows, AfterManifests;
        var d := LeastOf(left);
        var ok := RemoveArchive(d);
        if !ok {
          return None;
        }
        left := left - {d};
      }
      if plan.objects != {} {
        read := Read();
        if !read || !Unchanged(base, plan, host) {
          return None;
        }
        left := plan.objects;
        while left != {}
          invariant Follows()
          invariant local == l.(pc := if left == {} then Release(Returned(updated))
                                      else DropObjects(item, updated, base, plan, left))
        {
          hide StepOf, Follows;
          var d := LeastOf(left);
          var ok := RemoveObject(d);
          if !ok {
            return None;
          }
          left := left - {d};
        }
      }
      deleted := Some((|plan.manifests|, |plan.objects|));
    }

    /** Everything done while the lock is held. */
    method PublishLocked() returns (verdict: Verdict, published: nat, alreadyPresent: nat)
      requires Follows() && local.pc.Presence?
      modifies this
      ensures Follows() && local.pc == Release(verdict)
      ensures verdict.Returned? ==> published + alreadyPresent == |job.archives|
    {
      hide After, StepOf, NextItem;
      published, alreadyPresent := 0, 0;
      var present := VerifiedPresence();
      if !present {
        return Raised(Some(false), AtPresence), published, alreadyPresent;
      }
      for i := 0 to |job.archives|
        invariant Follows() && Recalls() && local.pc == NextItem(local, i)
        invariant published + alreadyPresent == i
      {
        var done, added, _ := EnsureImmutable(job.archives[i], i);
        if !done {
          return Raised(Some(false), AtImmutable), published, alreadyPresent;
        }
        if added {
          published := published + 1;
        } else {
          alreadyPresent := alreadyPresent + 1;
        }
      }
      if job.current.Some? {
        var item := job.current.value;
        var done, _, _ := EnsureImmutable(item, |job.archives|);
        if !done {
          return Raised(Some(false), AtImmutable), published, alreadyPresent;
        }
        EndOfItems(local);
        var updated := CommitCurrent(item);
        if updated.Err? {
          return updated.error, published, alreadyPresent;
        }
        var deleted := Prune(item, updated.value);
        verdict := if deleted.Some? then Returned(updated.value) else Raised(Some(true), AtRetention);
        return;
      }
      EndOfItems(local);
      verdict := Returned(false);
    }

    lemma EndOfItems(l: Local)
      ensures NextItem(l, |Items(l.job)|)
              == if l.job.current.Some? then LookCurrent(l.job.current.value) else Release(Returned(false))
    {
    }

    /** One publish: the program's commands are exactly the steps of one publisher of the protocol, up to
        its verdict, whatever the outcome of each of them. A return leaves the lock free; and undisturbed and
        without a fault the publish returns, saying truly whether `current` was updated. */
    method Publish() returns (outcome: Verdict, published: nat, alreadyPresent: nat)
      requires Follows() && local.pc.Begin?
      modifies this
      ensures After(world, store, pid, Fresh(job), script, commands) == (host, local) && local.pc == Finished(outcome)
      ensures outcome.Returned? ==> published + alreadyPresent == |job.archives| && !host.lock
      ensures Solo.Undisturbed(world, store, pid, job, script) ==>
                Solo.ReturnsWell(world, store, job, host, Finished(outcome))
    {
      hide After, StepOf, Solo.Undisturbed, Solo.ReturnsWell;
      published, alreadyPresent := 0, 0;
      var acquired := Acquire();
      if !acquired {
        if Solo.Undisturbed(world, store, pid, job, script) {
          Solo.UndisturbedEnd(world, store, pid, job, script, commands);
        }
        return Raised(Some(false), AtLock), published, alreadyPresent;
      }
      var verdict;
      verdict, published, alreadyPresent := PublishLocked();
      outcome := GiveBack(verdict);
      if Solo.Undisturbed(world, store, pid, job, script) {
        Solo.UndisturbedEnd(world, store, pid, job, script, commands);
      }
    }
  }
}
