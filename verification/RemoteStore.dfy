/** The content-addressed store on the dashboard host, and what its retention keeps. */
module RemoteStore {
  import opened Wrappers
  import opened FiniteSets

  /** Digests are compared as numbers: file names are fixed-length lower-case hexadecimal. */
  type Digest = nat
  type Blob = string

  /** What retention reads from a manifest. */
  datatype Manifest = Manifest(objectName: Digest, publishedAt: int)

  /** The hash, the manifest parser and the freshness of a snapshot, all uninterpreted. */
  datatype Codec = Codec(hash: Blob -> Digest, decode: Blob -> Option<Manifest>, isFresh: Blob -> bool)

  ghost predicate Injective(c: Codec) {
    forall x, y :: c.hash(x) == c.hash(y) ==> x == y
  }

  datatype Place = ObjectsDir | ManifestsDir | CurrentDir | PreviousDir | LastKnownGoodDir

  /** A temporary file; its token is unique to one commit of one publisher. */
  datatype Temp = Temp(place: Place, owner: nat, serial: nat)

  datatype Remote = Remote(
    objects: map<Digest, Blob>, archives: map<Digest, Blob>,
    current: Option<Blob>, previous: Option<Blob>, lastKnownGood: Option<Blob>,
    temps: map<Temp, Blob>, lock: bool)

  const EMPTY := Remote(map[], map[], None, None, None, map[], false)

  function Pointers(r: Remote): set<Blob> {
    (if r.current.Some? then {r.current.value} else {})
    + (if r.previous.Some? then {r.previous.value} else {})
    + (if r.lastKnownGood.Some? then {r.lastKnownGood.value} else {})
  }

  /** A manifest that parses and names an object of the store. */
  predicate Resolves(c: Codec, objects: map<Digest, Blob>, b: Blob) {
    c.decode(b).Some? && c.decode(b).value.objectName in objects
  }

  /** Every file carries the digest in its name, every manifest resolves, and every pointer has its archive. */
  ghost predicate Sound(c: Codec, r: Remote) {
    && (forall d :: d in r.objects ==> c.hash(r.objects[d]) == d)
    && (forall d :: d in r.archives ==> c.hash(r.archives[d]) == d && Resolves(c, r.objects, r.archives[d]))
    && (forall b :: b in Pointers(r) ==> Resolves(c, r.objects, b) && c.hash(b) in r.archives)
  }

  // ----- retention -----

  predicate Older(a: Manifest, da: Digest, b: Manifest, db: Digest) {
    a.publishedAt < b.publishedAt || (a.publishedAt == b.publishedAt && da < db)
  }

  /** The archives published after one of them. */
  ghost function Newer(m: map<Digest, Manifest>, d: Digest): set<Digest>
    requires d in m
  {
    set e | e in m && Older(m[d], d, m[e], e)
  }

  ghost predicate IsNewest(m: map<Digest, Manifest>, left: set<Digest>, d: Digest)
    requires left <= m.Keys
  {
    d in left && forall e :: e in left && e != d ==> Older(m[e], e, m[d], d)
  }

  lemma {:induction false} NewestExists(m: map<Digest, Manifest>, left: set<Digest>)
    requires left <= m.Keys && left != {}
    ensures exists d :: IsNewest(m, left, d)
  {
    var d :| d in left;
    if left == {d} {
      assert IsNewest(m, left, d);
    } else {
      NewestExists(m, left - {d});
      var e :| IsNewest(m, left - {d}, e);
      assert IsNewest(m, left, if Older(m[d], d, m[e], e) then e else d);
    }
  }

  ghost function Newest(m: map<Digest, Manifest>, left: set<Digest>): (d: Digest)
    requires left <= m.Keys && left != {}
    ensures IsNewest(m, left, d)
  {
    NewestExists(m, left);
    var d :| IsNewest(m, left, d);
    d
  }

  /** The first `n` archives of a list sorted by time and digest, newest first. */
  ghost function Recent(m: map<Digest, Manifest>, left: set<Digest>, n: nat): (s: set<Digest>)
    requires left <= m.Keys
    ensures s <= left
    decreases n
  {
    if n == 0 || left == {} then {}
    else
      var top := Newest(m, left);
      {top} + Recent(m, left - {top}, n - 1)
  }

  lemma NewestRanks(m: map<Digest, Manifest>, left: set<Digest>, top: Digest, d: Digest)
    requires left <= m.Keys && d in left && IsNewest(m, left, top)
    ensures Newer(m, d) * left == if d == top then {} else {top} + Newer(m, d) * (left - {top})
  {
  }

  /** Exactly the archives with fewer than `n` newer ones are recent. */
  lemma {:induction false} RecentIsByRank(m: map<Digest, Manifest>, left: set<Digest>, n: nat, d: Digest)
    requires left <= m.Keys && d in left
    ensures d in Recent(m, left, n) <==> |Newer(m, d) * left| < n
    decreases n
  {
    hide IsNewest, Newer, Newest;
    if n > 0 {
      var top := Newest(m, left);
      NewestRanks(m, left, top, d);
      if d != top {
        RecentIsByRank(m, left - {top}, n - 1, d);
      }
    }
  }

  /** And there are `n` of them, or all when there are no more. */
  lemma {:induction false} RecentCount(m: map<Digest, Manifest>, left: set<Digest>, n: nat)
    requires left <= m.Keys
    ensures |Recent(m, left, n)| == if n <= |left| then n else |left|
    decreases n
  {
    hide IsNewest, Newest;
    if n > 0 && left != {} {
      var top := Newest(m, left);
      assert top in left && top !in Recent(m, left - {top}, n - 1) by { NewestIsLeft(m, left); }
      RecentCount(m, left - {top}, n - 1);
    }
  }

  lemma NewestIsLeft(m: map<Digest, Manifest>, left: set<Digest>)
    requires left <= m.Keys && left != {}
    ensures Newest(m, left) in left
  {
  }

  datatype Refusal = StrayEntry | NoCurrent | BadArchive | BadPointer | BadObject | MissingObject

  datatype Plan = Plan(manifests: set<Digest>, objects: set<Digest>)

  predicate GoodArchive(c: Codec, d: Digest, b: Blob) {
    c.hash(b) == d && c.decode(b).Some?
  }

  function Decoded(c: Codec, archives: map<Digest, Blob>): map<Digest, Manifest>
    requires forall d :: d in archives ==> c.decode(archives[d]).Some?
  {
    map d | d in archives :: c.decode(archives[d]).value
  }

  /** What retention would delete, or why it refuses to delete anything. */
  ghost function PlanOf(c: Codec, r: Remote, retention: nat): Result<Plan, Refusal> {
    var pointers := Pointers(r);
    if r.temps != map[] then Err(StrayEntry)
    else if r.current.None? then Err(NoCurrent)
    else if exists d :: d in r.archives && !GoodArchive(c, d, r.archives[d]) then Err(BadArchive)
    else if exists b :: b in pointers && c.decode(b).None? then Err(BadPointer)
    else if exists d :: d in r.objects && c.hash(r.objects[d]) != d then Err(BadObject)
    else if (exists d :: d in r.archives && !Resolves(c, r.objects, r.archives[d]))
         || (exists b :: b in pointers && !Resolves(c, r.objects, b)) then Err(MissingObject)
    else
      var kept := Kept(c, r, retention);
      Ok(Plan(r.archives.Keys - kept, r.objects.Keys - Referenced(c, r, kept)))
  }

  /** The newest manifests and those the pointers name. */
  ghost function Kept(c: Codec, r: Remote, retention: nat): set<Digest>
    requires forall d :: d in r.archives ==> c.decode(r.archives[d]).Some?
  {
    Recent(Decoded(c, r.archives), r.archives.Keys, retention) + (set b | b in Pointers(r) :: c.hash(b))
  }

  /** The objects of the kept manifests and of the pointers. */
  function Referenced(c: Codec, r: Remote, kept: set<Digest>): set<Digest>
    requires forall d :: d in r.archives ==> c.decode(r.archives[d]).Some?
    requires forall b :: b in Pointers(r) ==> c.decode(b).Some?
  {
    (set d | d in r.archives && d in kept :: c.decode(r.archives[d]).value.objectName)
    + (set b | b in Pointers(r) :: c.decode(b).value.objectName)
  }

  function Pruned(r: Remote, manifests: set<Digest>, objects: set<Digest>): Remote {
    r.(archives := r.archives - manifests, objects := r.objects - objects)
  }

  /** On a sound store retention refuses only for a leftover temporary file or a missing current. */
  lemma SoundStoreIsPrunable(c: Codec, r: Remote, retention: nat)
    requires Sound(c, r)
    ensures PlanOf(c, r, retention).Ok? <==> r.temps == map[] && r.current.Some?
  {
  }

  predicate NamesPresentObject(c: Codec, r: Remote, text: Blob) {
    match c.decode(text)
    case None => false
    case Some(m) => m.objectName in r.objects
  }

  /** On any store, whatever became of it, retention goes on exactly when nothing is left over, `current` is there,
      every object and archive carries its own hash as its name, and every archive and pointer can be read and
      names an object that is there. */
  lemma RetentionTrustsExactlyIntactStores(c: Codec, r: Remote, retention: nat)
    ensures PlanOf(c, r, retention).Ok? <==>
            && r.temps == map[] && r.current.Some?
            && (forall d :: d in r.objects ==> c.hash(r.objects[d]) == d)
            && (forall d :: d in r.archives ==> c.hash(r.archives[d]) == d && NamesPresentObject(c, r, r.archives[d]))
            && (r.current.Some? ==> NamesPresentObject(c, r, r.current.value))
            && (r.previous.Some? ==> NamesPresentObject(c, r, r.previous.value))
            && (r.lastKnownGood.Some? ==> NamesPresentObject(c, r, r.lastKnownGood.value))
  {
    hide Kept, Referenced;
    assert forall b :: NamesPresentObject(c, r, b) <==> Resolves(c, r.objects, b);
    assert forall b :: b in Pointers(r) <==> Some(b) in {r.current, r.previous, r.lastKnownGood};
  }

  /** No deletion of the plan, nor any part of it in the order manifests before objects, breaks a reference. */
  lemma EveryPrefixKeepsReferences(c: Codec, r: Remote, retention: nat, manifests: set<Digest>, objects: set<Digest>)
    requires Sound(c, r) && PlanOf(c, r, retention).Ok?
    requires var plan := PlanOf(c, r, retention).value;
             && manifests <= plan.manifests && objects <= plan.objects
             && (objects != {} ==> manifests == plan.manifests)
    ensures Sound(c, Pruned(r, manifests, objects))
  {
    hide Recent;
    var plan, kept := PlanOf(c, r, retention).value, Kept(c, r, retention);
    var r' := Pruned(r, manifests, objects);
    assert Pointers(r') == Pointers(r);
    forall b | b in Pointers(r') ensures Resolves(c, r'.objects, b) && c.hash(b) in r'.archives {
      assert c.decode(b).value.objectName in Referenced(c, r, kept);
    }
    forall d | d in r'.archives ensures Resolves(c, r'.objects, r'.archives[d]) {
      if objects != {} {
        assert d in kept;
        assert c.decode(r.archives[d]).value.objectName in Referenced(c, r, kept);
      }
    }
  }

  lemma RecentIsNewest(m: map<Digest, Manifest>, n: nat, d: Digest)
    requires d in m
    ensures d in Recent(m, m.Keys, n) <==> |Newer(m, d)| < n
  {
    RecentIsByRank(m, m.Keys, n, d);
    assert Newer(m, d) * m.Keys == Newer(m, d);
  }

  predicate Named(c: Codec, r: Remote, d: Digest) {
    exists b :: b in Pointers(r) && c.hash(b) == d
  }

  predicate Used(c: Codec, r: Remote, d: Digest) {
    || (exists e :: e in r.archives && c.decode(r.archives[e]).Some? && c.decode(r.archives[e]).value.objectName == d)
    || (exists b :: b in Pointers(r) && c.decode(b).Some? && c.decode(b).value.objectName == d)
  }

  lemma KeptIs(c: Codec, r: Remote, retention: nat, d: Digest)
    requires forall e :: e in r.archives ==> c.decode(r.archives[e]).Some?
    requires d in r.archives
    ensures d in Kept(c, r, retention) <==> |Newer(Decoded(c, r.archives), d)| < retention || Named(c, r, d)
  {
    hide Recent, Newer, Pointers;
    var m := Decoded(c, r.archives);
    RecentIsNewest(m, retention, d);
    assert m.Keys == r.archives.Keys;
    if Named(c, r, d) {
      var b :| b in Pointers(r) && c.hash(b) == d;
    }
  }

  lemma ReferencedIs(c: Codec, r: Remote, r': Remote, kept: set<Digest>, d: Digest)
    requires forall e :: e in r.archives ==> c.decode(r.archives[e]).Some?
    requires forall b :: b in Pointers(r) ==> c.decode(b).Some?
    requires Pointers(r') == Pointers(r) && r'.archives == r.archives - (r.archives.Keys - kept)
    ensures d in Referenced(c, r, kept) <==> Used(c, r', d)
  {
    hide Pointers;
    if d in Referenced(c, r, kept) {
      if e :| e in r.archives && e in kept && c.decode(r.archives[e]).value.objectName == d {
        assert e in r'.archives;
      } else {
        var b :| b in Pointers(r) && c.decode(b).value.objectName == d;
      }
    }
  }

  /** A completed prune leaves exactly the manifests with fewer than `retention` newer ones and those the
      pointers name, and exactly the objects that these and the pointers reference. */
  lemma CompletedPrune(c: Codec, r: Remote, retention: nat)
    requires Sound(c, r) && PlanOf(c, r, retention).Ok?
    ensures var plan := PlanOf(c, r, retention).value;
            var r' := Pruned(r, plan.manifests, plan.objects);
            var m := Decoded(c, r.archives);
            && (forall d :: d in r'.archives <==> d in r.archives && (|Newer(m, d)| < retention || Named(c, r, d)))
            && (forall d :: d in r'.objects <==> d in r.objects && Used(c, r', d))
  {
    hide Recent, Newer;
    var m, kept := Decoded(c, r.archives), Kept(c, r, retention);
    var plan := PlanOf(c, r, retention).value;
    var r' := Pruned(r, plan.manifests, plan.objects);
    assert plan == Plan(r.archives.Keys - kept, r.objects.Keys - Referenced(c, r, kept));
    hide PlanOf;
    forall d | d in r.archives
      ensures d in kept <==> |Newer(m, d)| < retention || Named(c, r, d)
    {
      KeptIs(c, r, retention, d);
    }
    hide Kept, Used;
    SamePointers(r, plan);
    forall d ensures d in Referenced(c, r, kept) <==> Used(c, r', d) {
      ReferencedIs(c, r, r', kept, d);
    }
  }

  /** The archives published after one of them, or at the same time with a greater digest. */
  ghost function PublishedAfter(c: Codec, r: Remote, d: Digest): set<Digest>
    requires d in r.archives && forall e :: e in r.archives ==> c.decode(r.archives[e]).Some?
  {
    var at := c.decode(r.archives[d]).value.publishedAt;
    set e | e in r.archives && (c.decode(r.archives[e]).value.publishedAt > at
                                || (c.decode(r.archives[e]).value.publishedAt == at && e > d))
  }

  /** In terms of the manifests: an archive is deleted exactly when at least `retention` others were published after
      it and no pointer is its text. */
  lemma PruneKeepsTheNewest(c: Codec, r: Remote, retention: nat, d: Digest)
    requires Injective(c) && Sound(c, r) && PlanOf(c, r, retention).Ok? && d in r.archives
    ensures d in PlanOf(c, r, retention).value.manifests <==>
              && |PublishedAfter(c, r, d)| >= retention
              && Some(r.archives[d]) != r.current && Some(r.archives[d]) != r.previous
              && Some(r.archives[d]) != r.lastKnownGood
  {
    hide PlanOf, Newer, Used, PublishedAfter, Decoded;
    SoundManifestsDecode(c, r);
    CompletedPrune(c, r, retention);
    NewerIsLater(c, r, d);
    NamedIsText(c, r, d);
    hide Pointers, Sound, Injective, Named, Resolves;
    var plan := PlanOf(c, r, retention).value;
    assert d in Pruned(r, plan.manifests, plan.objects).archives <==> d !in plan.manifests;
  }

  lemma NamedIsText(c: Codec, r: Remote, d: Digest)
    requires Injective(c) && Sound(c, r) && d in r.archives
    ensures Named(c, r, d) <==>
            || Some(r.archives[d]) == r.current || Some(r.archives[d]) == r.previous
            || Some(r.archives[d]) == r.lastKnownGood
  {
    hide Resolves;
  }

  /** And an object exactly when no remaining manifest and no pointer names it. */
  lemma PruneKeepsTheUsed(c: Codec, r: Remote, retention: nat, d: Digest)
    requires Sound(c, r) && PlanOf(c, r, retention).Ok? && d in r.objects
    ensures var plan := PlanOf(c, r, retention).value;
            d in plan.objects <==>
              && (forall e :: e in r.archives && e !in plan.manifests ==>
                    c.decode(r.archives[e]).value.objectName != d)
              && (forall b :: b in Pointers(r) ==> c.decode(b).value.objectName != d)
  {
    hide PlanOf, Newer, Decoded, Pointers, Named;
    SoundManifestsDecode(c, r);
    CompletedPrune(c, r, retention);
    var plan := PlanOf(c, r, retention).value;
    SamePointers(r, plan);
    var r' := Pruned(r, plan.manifests, plan.objects);
    assert d in r'.objects <==> d !in plan.objects;
  }

  lemma NewerIsLater(c: Codec, r: Remote, d: Digest)
    requires d in r.archives && forall e :: e in r.archives ==> c.decode(r.archives[e]).Some?
    ensures Newer(Decoded(c, r.archives), d) == PublishedAfter(c, r, d)
  {
  }

  lemma FewerNewer(m: map<Digest, Manifest>, n: map<Digest, Manifest>, d: Digest)
    requires d in n && n.Keys <= m.Keys && (forall e :: e in n ==> n[e] == m[e])
    ensures |Newer(n, d)| <= |Newer(m, d)|
  {
    SubsetSize(Newer(n, d), Newer(m, d));
  }

  lemma StillKept(c: Codec, r: Remote, r': Remote, retention: nat)
    requires Sound(c, r) && Sound(c, r') && PlanOf(c, r, retention).Ok? && PlanOf(c, r', retention).Ok?
    requires r'.archives == r.archives - PlanOf(c, r, retention).value.manifests && Pointers(r') == Pointers(r)
    requires r'.objects == r.objects - PlanOf(c, r, retention).value.objects
    ensures PlanOf(c, r', retention).value.manifests == {}
  {
    hide Recent, PlanOf, Newer, Pointers, Used, Resolves;
    CompletedPrune(c, r, retention);
    CompletedPrune(c, r', retention);
    PlanIsWithin(c, r', retention);
    SoundManifestsDecode(c, r);
    SoundManifestsDecode(c, r');
    var plan := PlanOf(c, r', retention).value;
    forall d | d in r'.archives ensures d !in plan.manifests {
      FewerNewer(Decoded(c, r.archives), Decoded(c, r'.archives), d);
      assert d in Pruned(r', plan.manifests, plan.objects).archives;
    }
  }

  /** Pruning a pruned store deletes nothing. */
  lemma SecondPruneDeletesNothing(c: Codec, r: Remote, retention: nat)
    requires Sound(c, r) && PlanOf(c, r, retention).Ok?
    ensures var plan := PlanOf(c, r, retention).value;
            PlanOf(c, Pruned(r, plan.manifests, plan.objects), retention) == Ok(Plan({}, {}))
  {
    hide Recent, PlanOf, Sound, Newer, Pointers, Decoded, Named;
    var plan := PlanOf(c, r, retention).value;
    var r' := Pruned(r, plan.manifests, plan.objects);
    SamePointers(r, plan);
    EveryPrefixKeepsReferences(c, r, retention, plan.manifests, plan.objects);
    SoundStoreIsPrunable(c, r, retention);
    SoundStoreIsPrunable(c, r', retention);
    StillKept(c, r, r', retention);
    SoundManifestsDecode(c, r);
    SoundManifestsDecode(c, r');
    CompletedPrune(c, r, retention);
    CompletedPrune(c, r', retention);
    var again := PlanOf(c, r', retention).value;
    PlanIsWithin(c, r', retention);
    assert Pruned(r', {}, {}) == r';
    var r2 := Pruned(r', again.manifests, again.objects);
    SamePointers(r', again);
    assert r2.archives == r'.archives;
    forall d | d in r'.objects ensures d !in again.objects {
      assert Used(c, r', d) && d in r2.objects;
    }
    assert again.objects == {};
  }

  lemma SamePointers(r: Remote, plan: Plan)
    ensures Pointers(Pruned(r, plan.manifests, plan.objects)) == Pointers(r)
  {
  }

  lemma SoundManifestsDecode(c: Codec, r: Remote)
    requires Sound(c, r)
    ensures forall d :: d in r.archives ==> c.decode(r.archives[d]).Some?
  {
  }

  lemma PlanIsWithin(c: Codec, r: Remote, retention: nat)
    requires PlanOf(c, r, retention).Ok?
    ensures PlanOf(c, r, retention).value.manifests <= r.archives.Keys
    ensures PlanOf(c, r, retention).value.objects <= r.objects.Keys
  {
    hide Kept, Referenced;
  }
}
