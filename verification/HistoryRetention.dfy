/** Trend retention: bucketed, aged and capped pruning applied after every recorded point. */
module HistoryRetention {
  import opened Wrappers

  /** A trend point; the derived metrics are opaque to retention. */
  datatype Point = Point(snapshotId: string, generatedAt: string, metrics: int)

  datatype Resolution = Daily | Hourly | Raw

  /** Retention settings; `instant` is the timestamp parser, in microseconds since the epoch (UTC). */
  datatype Retention = Retention(
    resolution: Resolution, maxPoints: int, maxAge: int, instant: string -> int)

  datatype Bucket = Day(day: int) | Hour(hour: int) | Text(text: string)

  const MICROS_PER_HOUR := 3_600_000_000
  const MICROS_PER_DAY := 24 * MICROS_PER_HOUR

  function Time(c: Retention, p: Point): int {
    c.instant(p.generatedAt)
  }

  function BucketOf(c: Retention, p: Point): Bucket {
    match c.resolution
    case Daily => Day(Time(c, p) / MICROS_PER_DAY)
    case Hourly => Hour(Time(c, p) / MICROS_PER_HOUR)
    case Raw => Text(p.generatedAt)
  }

  // ----- what prune_points computes, step by step -----

  /** One step of a stable sort by time: a new point goes after every point that is not later. */
  function Insert(c: Retention, s: seq<Point>, p: Point): seq<Point> {
    if s == [] || Time(c, s[0]) > Time(c, p) then [p] + s
    else [s[0]] + Insert(c, s[1..], p)
  }

  /** The stable sort by time of a list, later arrivals last among equals. */
  function StableSort(c: Retention, points: seq<Point>): seq<Point> {
    if points == [] then []
    else Insert(c, StableSort(c, points[..|points| - 1]), points[|points| - 1])
  }

  /** Assignment into an insertion-ordered dictionary keyed by bucket, seen through its values. */
  function Assign(c: Retention, values: seq<Point>, p: Point): seq<Point> {
    if values == [] then [p]
    else if BucketOf(c, values[0]) == BucketOf(c, p) then [p] + values[1..]
    else [values[0]] + Assign(c, values[1..], p)
  }

  function ByBucket(c: Retention, ordered: seq<Point>): seq<Point> {
    if ordered == [] then []
    else Assign(c, ByBucket(c, ordered[..|ordered| - 1]), ordered[|ordered| - 1])
  }

  function NotBefore(c: Retention, s: seq<Point>, cutoff: int): seq<Point> {
    if s == [] then []
    else (if Time(c, s[0]) >= cutoff then [s[0]] else []) + NotBefore(c, s[1..], cutoff)
  }

  /** The cap, including what the slice from a non-positive bound really keeps. */
  function Cap(s: seq<Point>, maxPoints: int): seq<Point> {
    if |s| <= maxPoints then s
    else if maxPoints > 0 then s[|s| - maxPoints..]
    else if -maxPoints <= |s| then s[-maxPoints..]
    else []
  }

  function Pruned(c: Retention, points: seq<Point>, now: int): seq<Point> {
    Cap(StableSort(c, NotBefore(c, ByBucket(c, StableSort(c, points)), now - c.maxAge)), c.maxPoints)
  }

  function Without(points: seq<Point>, id: string): seq<Point> {
    if points == [] then []
    else (if points[0].snapshotId != id then [points[0]] else []) + Without(points[1..], id)
  }

  /** The list stored after recording one point. */
  function Recorded(c: Retention, points: seq<Point>, p: Point, now: int): seq<Point> {
    Pruned(c, Without(points, p.snapshotId) + [p], now)
  }

  // ----- the same steps as loops over a stored history -----

  method SortByTime(c: Retention, points: seq<Point>) returns (ordered: seq<Point>)
    ensures ordered == StableSort(c, points)
  {
    ordered := [];
    for i := 0 to |points|
      invariant ordered == StableSort(c, points[..i])
    {
      assert points[..i + 1][..i] == points[..i];
      ordered := Insert(c, ordered, points[i]);
    }
    assert points[..|points|] == points;
  }

  /** `keys` and `byBucket` are an insertion-ordered dictionary whose values, in order, are `values`. */
  ghost predicate IsDict(c: Retention, keys: seq<Bucket>, byBucket: map<Bucket, Point>, values: seq<Point>) {
    && |keys| == |values|
    && (forall b :: b in byBucket ==> b in keys)
    && (forall i :: 0 <= i < |keys| ==>
        keys[i] in byBucket && byBucket[keys[i]] == values[i] && BucketOf(c, values[i]) == keys[i])
    && (forall i, j :: 0 <= i < j < |keys| ==> keys[i] != keys[j])
  }

  lemma {:induction false} AssignNew(c: Retention, values: seq<Point>, p: Point)
    requires forall i :: 0 <= i < |values| ==> BucketOf(c, values[i]) != BucketOf(c, p)
    ensures Assign(c, values, p) == values + [p]
  {
    if values != [] {
      AssignNew(c, values[1..], p);
    }
  }

  lemma {:induction false} AssignOld(c: Retention, values: seq<Point>, p: Point, i: nat)
    requires i < |values| && BucketOf(c, values[i]) == BucketOf(c, p)
    requires forall j :: 0 <= j < i ==> BucketOf(c, values[j]) != BucketOf(c, p)
    ensures Assign(c, values, p) == values[i := p]
  {
    if i > 0 {
      AssignOld(c, values[1..], p, i - 1);
    }
  }

  lemma AssignExisting(
    c: Retention, keys: seq<Bucket>, byBucket: map<Bucket, Point>, values: seq<Point>, p: Point)
    returns (values': seq<Point>)
    requires IsDict(c, keys, byBucket, values) && BucketOf(c, p) in byBucket
    ensures values' == Assign(c, values, p)
    ensures IsDict(c, keys, byBucket[BucketOf(c, p) := p], values')
  {
    hide Assign;
    var i :| 0 <= i < |keys| && keys[i] == BucketOf(c, p);
    values' := values[i := p];
    assert forall j :: 0 <= j < i ==> BucketOf(c, values[j]) != BucketOf(c, p);
    AssignOld(c, values, p, i);
  }

  lemma AssignMissing(
    c: Retention, keys: seq<Bucket>, byBucket: map<Bucket, Point>, values: seq<Point>, p: Point)
    requires IsDict(c, keys, byBucket, values) && BucketOf(c, p) !in byBucket
    ensures values + [p] == Assign(c, values, p)
    ensures IsDict(c, keys + [BucketOf(c, p)], byBucket[BucketOf(c, p) := p], values + [p])
  {
    hide Assign, BucketOf;
    var b := BucketOf(c, p);
    assert forall i :: 0 <= i < |values| ==> BucketOf(c, values[i]) != b;
    AssignNew(c, values, p);
    forall k | k in byBucket[b := p] ensures k in keys + [b] {
      assert (keys + [b])[|keys|] == b;
    }
  }

  method LatestPerBucket(c: Retention, ordered: seq<Point>)
    returns (keys: seq<Bucket>, byBucket: map<Bucket, Point>)
    ensures IsDict(c, keys, byBucket, ByBucket(c, ordered))
  {
    hide BucketOf, Assign;
    keys, byBucket := [], map[];
    ghost var values := [];
    for i := 0 to |ordered|
      invariant IsDict(c, keys, byBucket, values)
      invariant values == ByBucket(c, ordered[..i])
    {
      assert ordered[..i + 1][..i] == ordered[..i];
      var b := BucketOf(c, ordered[i]);
      if b in byBucket {
        values := AssignExisting(c, keys, byBucket, values, ordered[i]);
      } else {
        AssignMissing(c, keys, byBucket, values, ordered[i]);
        keys, values := keys + [b], values + [ordered[i]];
      }
      byBucket := byBucket[b := ordered[i]];
    }
    assert ordered[..|ordered|] == ordered;
  }

  method KeepRecent(
    c: Retention, keys: seq<Bucket>, byBucket: map<Bucket, Point>, ghost values: seq<Point>, cutoff: int)
    returns (kept: seq<Point>)
    requires IsDict(c, keys, byBucket, values)
    ensures kept == NotBefore(c, values, cutoff)
  {
    hide BucketOf;
    kept := [];
    var i := |keys|;
    while i > 0
      invariant 0 <= i <= |keys|
      invariant kept == NotBefore(c, values[i..], cutoff)
    {
      i := i - 1;
      assert values[i..][0] == values[i] && values[i..][1..] == values[i + 1..];
      if Time(c, byBucket[keys[i]]) >= cutoff {
        kept := [byBucket[keys[i]]] + kept;
      }
    }
    assert values[0..] == values;
  }

  method PrunePoints(c: Retention, points: seq<Point>, now: int) returns (kept: seq<Point>)
    ensures kept == Pruned(c, points, now)
  {
    hide StableSort, ByBucket, NotBefore, BucketOf;
    var cutoff := now - c.maxAge;
    var ordered := SortByTime(c, points);
    var keys, byBucket := LatestPerBucket(c, ordered);
    kept := KeepRecent(c, keys, byBucket, ByBucket(c, ordered), cutoff);
    kept := SortByTime(c, kept);
    kept := Cap(kept, c.maxPoints);
  }

  /** The history file: `stored` is what a reload would return. */
  class HistoryStore {
    const retention: Retention
    var stored: Option<seq<Point>>

    constructor (retention: Retention)
      ensures this.retention == retention && stored == None
    {
      this.retention := retention;
      stored := None;
    }

    ghost function Points(): seq<Point>
      reads this
    {
      if stored.Some? then stored.value else []
    }

    /** Records a point; a write that fails raises and leaves the file as it was. */
    method Record(p: Point, now: int, writeOk: bool) returns (r: Option<seq<Point>>)
      modifies this
      ensures writeOk ==> r == Some(Recorded(retention, old(Points()), p, now)) && stored == r
      ensures !writeOk ==> r == None && stored == old(stored)
    {
      var points := if stored.Some? then stored.value else [];
      var others: seq<Point> := [];
      var i := |points|;
      while i > 0
        invariant 0 <= i <= |points|
        invariant others == Without(points[i..], p.snapshotId)
      {
        i := i - 1;
        assert points[i..] == [points[i]] + points[i + 1..];
        if points[i].snapshotId != p.snapshotId {
          others := [points[i]] + others;
        }
      }
      assert points[0..] == points;
      var kept := PrunePoints(retention, others + [p], now);
      if !writeOk {
        return None;
      }
      stored := Some(kept);
      r := stored;
    }
  }

  // ----- online pruning equals offline pruning -----

  ghost predicate Sorted(c: Retention, s: seq<Point>) {
    forall i, j :: 0 <= i < j < |s| ==> Time(c, s[i]) <= Time(c, s[j])
  }

  /** Two points at one instant share their bucket: always so for days and hours. */
  ghost predicate Consistent(c: Retention, points: seq<Point>) {
    forall p, q {:trigger Agree(c, p, q)} :: p in points && q in points ==> Agree(c, p, q)
  }

  ghost predicate Agree(c: Retention, p: Point, q: Point) {
    Time(c, p) == Time(c, q) ==> BucketOf(c, p) == BucketOf(c, q)
  }

  lemma CalendarBucketsAreConsistent(c: Retention, points: seq<Point>)
    requires c.resolution != Raw
    ensures Consistent(c, points)
  {
  }

  function Buckets(c: Retention, s: seq<Point>): set<Bucket> {
    if s == [] then {} else {BucketOf(c, s[0])} + Buckets(c, s[1..])
  }

  /** The last point of each bucket, in the order of the list: the meaning of the dictionary pass. */
  function LastOf(c: Retention, s: seq<Point>): seq<Point> {
    if s == [] then []
    else if BucketOf(c, s[0]) in Buckets(c, s[1..]) then LastOf(c, s[1..])
    else [s[0]] + LastOf(c, s[1..])
  }

  ghost predicate DistinctBuckets(c: Retention, s: seq<Point>) {
    s != [] ==> BucketOf(c, s[0]) !in Buckets(c, s[1..]) && DistinctBuckets(c, s[1..])
  }

  lemma Cons(p: Point, s: seq<Point>)
    ensures ([p] + s)[0] == p && ([p] + s)[1..] == s
  {
  }

  lemma {:induction false} BucketsMember(c: Retention, s: seq<Point>, b: Bucket)
    ensures b in Buckets(c, s) <==> exists p :: p in s && BucketOf(c, p) == b
  {
    if s != [] {
      BucketsMember(c, s[1..], b);
      assert s == [s[0]] + s[1..];
    }
  }

  lemma {:induction false} InsertMembers(c: Retention, s: seq<Point>, p: Point)
    ensures multiset(Insert(c, s, p)) == multiset(s) + multiset{p}
    ensures forall q :: q in Insert(c, s, p) <==> q in s || q == p
    ensures Buckets(c, Insert(c, s, p)) == Buckets(c, s) + {BucketOf(c, p)}
  {
    if s == [] || Time(c, s[0]) > Time(c, p) {
      Cons(p, s);
    } else {
      InsertMembers(c, s[1..], p);
      Cons(s[0], Insert(c, s[1..], p));
      assert s == [s[0]] + s[1..];
    }
  }

  lemma {:induction false} InsertSorted(c: Retention, s: seq<Point>, p: Point)
    requires Sorted(c, s)
    ensures Sorted(c, Insert(c, s, p))
  {
    if s == [] || Time(c, s[0]) > Time(c, p) {
    } else {
      InsertSorted(c, s[1..], p);
      InsertMembers(c, s[1..], p);
      SortedCons(c, s[0], Insert(c, s[1..], p));
    }
  }

  lemma SortedCons(c: Retention, p: Point, s: seq<Point>)
    requires Sorted(c, s) && forall q <- s :: Time(c, p) <= Time(c, q)
    ensures Sorted(c, [p] + s)
  {
  }

  lemma {:induction false} SortIsSorted(c: Retention, s: seq<Point>)
    ensures Sorted(c, StableSort(c, s))
  {
    if s != [] {
      SortIsSorted(c, s[..|s| - 1]);
      InsertSorted(c, StableSort(c, s[..|s| - 1]), s[|s| - 1]);
    }
  }

  lemma {:induction false} SortMembers(c: Retention, s: seq<Point>)
    ensures multiset(StableSort(c, s)) == multiset(s)
  {
    hide Insert, BucketOf;
    if s != [] {
      var n := |s| - 1;
      SortMembers(c, s[..n]);
      InsertMembers(c, StableSort(c, s[..n]), s[n]);
      assert s == s[..n] + [s[n]];
    }
  }

  lemma SortedHasSameMembers(c: Retention, s: seq<Point>)
    ensures forall q :: q in StableSort(c, s) <==> q in s
  {
    SortMembers(c, s);
    forall q ensures q in StableSort(c, s) <==> q in s {
      assert q in multiset(s) <==> q in s;
      assert q in multiset(StableSort(c, s)) <==> q in StableSort(c, s);
    }
  }

  lemma {:induction false} LastOfMembers(c: Retention, s: seq<Point>)
    ensures forall q :: q in LastOf(c, s) ==> q in s
    ensures Buckets(c, LastOf(c, s)) == Buckets(c, s)
    ensures DistinctBuckets(c, LastOf(c, s))
    ensures s != [] ==> LastOf(c, s) != [] && LastOf(c, s)[|LastOf(c, s)| - 1] == s[|s| - 1]
  {
    if s != [] {
      LastOfMembers(c, s[1..]);
      Cons(s[0], LastOf(c, s[1..]));
      if |s| == 1 {
        assert s[1..] == [];
      }
    }
  }

  lemma {:induction false} LastOfLength(c: Retention, s: seq<Point>)
    ensures |LastOf(c, s)| <= |s|
  {
    if s != [] { LastOfLength(c, s[1..]); }
  }

  lemma {:induction false} LastOfSorted(c: Retention, s: seq<Point>)
    requires Sorted(c, s)
    ensures Sorted(c, LastOf(c, s))
  {
    if s != [] {
      LastOfSorted(c, s[1..]);
      LastOfMembers(c, s[1..]);
      SortedCons(c, s[0], LastOf(c, s[1..]));
    }
  }

  lemma {:induction false} LastOfDistinct(c: Retention, s: seq<Point>)
    requires DistinctBuckets(c, s)
    ensures LastOf(c, s) == s
  {
    if s != [] {
      LastOfDistinct(c, s[1..]);
    }
  }

  /** Superseded points do not influence what one more point leaves behind. */
  lemma {:induction false} SupersededPointsAreInert(c: Retention, o: seq<Point>, p: Point)
    requires Sorted(c, o)
    ensures LastOf(c, Insert(c, o, p)) == LastOf(c, Insert(c, LastOf(c, o), p))
  {
    hide BucketOf;
    LastOfMembers(c, o);
    LastOfDistinct(c, LastOf(c, o));
    if o == [] {
    } else if Time(c, o[0]) > Time(c, p) {
      Cons(p, o);
      Cons(p, LastOf(c, o));
      assert LastOf(c, o)[0] in o;
    } else {
      var a, t := o[0], o[1..];
      var x := LastOf(c, t);
      SupersededPointsAreInert(c, t, p);
      LastOfMembers(c, t);
      InsertMembers(c, t, p);
      InsertMembers(c, x, p);
      Cons(a, Insert(c, t, p));
      Cons(a, Insert(c, x, p));
      Cons(a, x);
    }
  }

  /** Ageing and capping a sorted list both drop from its front. */
  function Cut(c: Retention, s: seq<Point>, cutoff: int): seq<Point> {
    if s == [] then []
    else if Time(c, s[0]) < cutoff || |s| > c.maxPoints > 0 then Cut(c, s[1..], cutoff)
    else s
  }

  lemma {:induction false} NothingTooOld(c: Retention, s: seq<Point>, cutoff: int)
    requires Sorted(c, s) && s != [] && Time(c, s[0]) >= cutoff
    ensures NotBefore(c, s, cutoff) == s
  {
    if |s| > 1 {
      assert Time(c, s[1]) >= Time(c, s[0]);
      NothingTooOld(c, s[1..], cutoff);
    }
    assert [s[0]] + s[1..] == s;
  }

  lemma CapDropsFirst(s: seq<Point>, maxPoints: int)
    requires |s| > maxPoints > 0
    ensures Cap(s, maxPoints) == Cap(s[1..], maxPoints)
  {
    assert s[|s| - maxPoints..] == s[1..][|s| - 1 - maxPoints..];
  }

  lemma {:induction false} CutIs(c: Retention, s: seq<Point>, cutoff: int)
    requires Sorted(c, s) && c.maxPoints >= 0
    ensures Cap(NotBefore(c, s, cutoff), c.maxPoints) == Cut(c, s, cutoff)
  {
    if s == [] {
    } else if Time(c, s[0]) >= cutoff && !(|s| > c.maxPoints > 0) {
      NothingTooOld(c, s, cutoff);
    } else if Time(c, s[0]) < cutoff {
      CutIs(c, s[1..], cutoff);
    } else {
      hide Cap;
      NothingTooOld(c, s, cutoff);
      CapDropsFirst(s, c.maxPoints);
      CutIs(c, s[1..], cutoff);
      if |s| > 1 {
        NothingTooOld(c, s[1..], cutoff);
      }
    }
  }

  /** A point that is too old or over the cap never influences a later list. */
  lemma {:induction false} DroppedPointIsInert(
    c: Retention, h: Point, t: seq<Point>, p: Point, cutoff: int)
    requires Sorted(c, [h] + t) && DistinctBuckets(c, [h] + t)
    requires Time(c, h) < cutoff || |t| + 1 > c.maxPoints > 0
    ensures Cut(c, LastOf(c, Insert(c, [h] + t, p)), cutoff) == Cut(c, LastOf(c, Insert(c, t, p)), cutoff)
  {
    hide BucketOf;
    var s := [h] + t;
    Cons(h, t);
    LastOfDistinct(c, s);
    LastOfDistinct(c, t);
    if Time(c, h) > Time(c, p) {
      assert t != [] ==> t[0] == s[1];
      Cons(p, s);
      Cons(p, t);
    } else {
      DroppedPointStaysFirst(c, h, t, p, cutoff);
    }
  }

  lemma DroppedPointStaysFirst(c: Retention, h: Point, t: seq<Point>, p: Point, cutoff: int)
    requires DistinctBuckets(c, [h] + t) && Time(c, h) <= Time(c, p)
    requires Time(c, h) < cutoff || |t| + 1 > c.maxPoints > 0
    ensures Cut(c, LastOf(c, Insert(c, [h] + t, p)), cutoff) == Cut(c, LastOf(c, Insert(c, t, p)), cutoff)
  {
    hide BucketOf;
    Cons(h, t);
    var x := Insert(c, t, p);
    Cons(h, x);
    Cons(h, LastOf(c, x));
    InsertMembers(c, t, p);
    if BucketOf(c, p) != BucketOf(c, h) {
      InsertKeepsBuckets(c, t, p);
    }
  }

  /** Adding a point never lowers the number of buckets. */
  lemma {:induction false} InsertKeepsBuckets(c: Retention, t: seq<Point>, p: Point)
    requires DistinctBuckets(c, t)
    ensures |LastOf(c, Insert(c, t, p))| >= |t|
    ensures BucketOf(c, p) !in Buckets(c, t) ==> |LastOf(c, Insert(c, t, p))| == |t| + 1
  {
    LastOfDistinct(c, t);
    if t == [] || Time(c, t[0]) > Time(c, p) {
      Cons(p, t);
    } else {
      InsertKeepsBuckets(c, t[1..], p);
      InsertMembers(c, t[1..], p);
      Cons(t[0], Insert(c, t[1..], p));
    }
  }

  /** Points cut by an earlier, laxer prune do not influence a later one. */
  lemma {:induction false} CutIsInert(c: Retention, s: seq<Point>, p: Point, early: int, late: int)
    requires Sorted(c, s) && DistinctBuckets(c, s) && early <= late
    ensures Cut(c, LastOf(c, Insert(c, Cut(c, s, early), p)), late) == Cut(c, LastOf(c, Insert(c, s, p)), late)
  {
    if s != [] && (Time(c, s[0]) < early || |s| > c.maxPoints > 0) {
      assert s == [s[0]] + s[1..];
      CutIsInert(c, s[1..], p, early, late);
      DroppedPointIsInert(c, s[0], s[1..], p, late);
    }
  }

  lemma {:induction false} CutMembers(c: Retention, s: seq<Point>, cutoff: int)
    requires Sorted(c, s) && DistinctBuckets(c, s)
    ensures Sorted(c, Cut(c, s, cutoff)) && DistinctBuckets(c, Cut(c, s, cutoff))
    ensures forall q :: q in Cut(c, s, cutoff) ==> q in s
    ensures Cut(c, Cut(c, s, cutoff), cutoff) == Cut(c, s, cutoff)
  {
    if s != [] {
      CutMembers(c, s[1..], cutoff);
    }
  }

  /** Runs of equal buckets are contiguous in time, so the dictionary keeps the sorted order. */
  lemma {:induction false} DictionaryPassIsLastOf(c: Retention, o: seq<Point>)
    requires Sorted(c, o) && Consistent(c, o)
    ensures ByBucket(c, o) == LastOf(c, o)
  {
    if o != [] {
      ConsistentPrefix(c, o, |o| - 1);
      DictionaryPassIsLastOf(c, o[..|o| - 1]);
      LastSameBucketOnly(c, o);
      DictionaryStep(c, o[..|o| - 1], o[|o| - 1]);
      assert o == o[..|o| - 1] + [o[|o| - 1]];
    }
  }

  lemma DictionaryStep(c: Retention, t: seq<Point>, p: Point)
    requires LastOf(c, t) != [] ==> OnlyLast(c, LastOf(c, t), p)
    ensures Assign(c, LastOf(c, t), p) == LastOf(c, t + [p])
  {
    hide Assign, LastOf, BucketOf, OnlyLast;
    AssignAtEnd(c, LastOf(c, t), p);
    LastOfSnoc(c, t, p);
  }

  lemma LastSameBucketOnly(c: Retention, o: seq<Point>)
    requires Sorted(c, o) && Consistent(c, o) && o != []
    ensures LastOf(c, o[..|o| - 1]) != [] ==> OnlyLast(c, LastOf(c, o[..|o| - 1]), o[|o| - 1])
  {
    hide BucketOf, OnlyLast;
    if |o| > 1 {
      EarlierSameBucketIsLast(c, o);
    } else {
      LastOfLength(c, o[..0]);
    }
  }

  lemma ConsistentPrefix(c: Retention, o: seq<Point>, n: nat)
    requires Sorted(c, o) && Consistent(c, o) && n <= |o|
    ensures Sorted(c, o[..n]) && Consistent(c, o[..n])
  {
    forall p, q | p in o[..n] && q in o[..n] ensures Agree(c, p, q) {
      assert p in o && q in o;
    }
  }

  lemma SameBucketBetween(c: Retention, p: Point, q: Point, r: Point)
    requires Time(c, p) <= Time(c, q) <= Time(c, r)
    requires BucketOf(c, p) == BucketOf(c, r)
    requires Agree(c, p, q)
    ensures BucketOf(c, q) == BucketOf(c, p)
  {
  }

  /** A bucket met again in a sorted list can only be the bucket met last. */
  lemma EarlierSameBucketIsLast(c: Retention, o: seq<Point>)
    requires Sorted(c, o) && Consistent(c, o) && |o| > 1
    ensures LastOf(c, o[..|o| - 1]) != [] && OnlyLast(c, LastOf(c, o[..|o| - 1]), o[|o| - 1])
  {
    var n := |o| - 1;
    var x := LastOf(c, o[..n]);
    LastOfMembers(c, o[..n]);
    if !OnlyLast(c, x, o[n]) {
      BucketsMember(c, x[..|x| - 1], BucketOf(c, o[n]));
      var q :| q in x[..|x| - 1] && BucketOf(c, q) == BucketOf(c, o[n]);
      assert q in o[..n];
      EarlierSameBucket(c, o, q);
      DistinctLast(c, x, q);
      assert false;
    }
  }

  lemma EarlierSameBucket(c: Retention, o: seq<Point>, q: Point)
    requires Sorted(c, o) && Consistent(c, o) && |o| > 1
    requires q in o[..|o| - 1] && BucketOf(c, q) == BucketOf(c, o[|o| - 1])
    ensures BucketOf(c, q) == BucketOf(c, o[|o| - 2])
  {
    var n := |o| - 1;
    var i :| 0 <= i < n && o[i] == q;
    assert q in o && o[n - 1] in o;
    SameBucketBetween(c, q, o[n - 1], o[n]);
  }

  ghost predicate OnlyLast(c: Retention, x: seq<Point>, p: Point)
    requires x != []
  {
    BucketOf(c, p) !in Buckets(c, x[..|x| - 1])
  }

  lemma {:induction false} DistinctLast(c: Retention, x: seq<Point>, q: Point)
    requires DistinctBuckets(c, x) && x != [] && q in x[..|x| - 1]
    ensures BucketOf(c, q) != BucketOf(c, x[|x| - 1])
  {
    if q == x[0] {
      BucketsMember(c, x[1..], BucketOf(c, q));
      assert x[|x| - 1] in x[1..];
    } else {
      assert q in x[1..][..|x[1..]| - 1];
      DistinctLast(c, x[1..], q);
    }
  }

  lemma {:induction false} AssignAtEnd(c: Retention, x: seq<Point>, p: Point)
    requires x != [] ==> OnlyLast(c, x, p)
    ensures Assign(c, x, p) ==
            if x != [] && BucketOf(c, x[|x| - 1]) == BucketOf(c, p) then x[..|x| - 1] + [p] else x + [p]
  {
    if |x| > 1 {
      assert x[1..][..|x[1..]| - 1] == x[..|x| - 1][1..];
      AssignAtEnd(c, x[1..], p);
    }
  }

  lemma {:induction false} BucketsSnoc(c: Retention, s: seq<Point>, p: Point)
    ensures Buckets(c, s + [p]) == Buckets(c, s) + {BucketOf(c, p)}
  {
    if s != [] {
      BucketsSnoc(c, s[1..], p);
      assert (s + [p])[1..] == s[1..] + [p];
    }
  }

  lemma LastOfCons(c: Retention, a: Point, u: seq<Point>)
    ensures LastOf(c, [a] + u) == if BucketOf(c, a) in Buckets(c, u) then LastOf(c, u) else [a] + LastOf(c, u)
  {
    Cons(a, u);
  }

  lemma NothingIsLast(c: Retention)
    ensures LastOf(c, []) == [] && Buckets(c, []) == {}
  {
  }

  lemma {:induction false} LastOfSnoc(c: Retention, t: seq<Point>, p: Point)
    requires LastOf(c, t) != [] ==> OnlyLast(c, LastOf(c, t), p)
    ensures var x := LastOf(c, t);
            LastOf(c, t + [p]) ==
            if x != [] && BucketOf(c, x[|x| - 1]) == BucketOf(c, p) then x[..|x| - 1] + [p] else x + [p]
  {
    hide BucketOf, LastOf;
    if t == [] {
      assert t + [p] == [p] + [];
      LastOfCons(c, p, []);
      NothingIsLast(c);
    } else {
      var a, u := t[0], t[1..];
      assert t == [a] + u && t + [p] == [a] + (u + [p]);
      LastOfCons(c, a, u);
      LastOfCons(c, a, u + [p]);
      BucketsSnoc(c, u, p);
      LastOfMembers(c, u);
      var x, y := LastOf(c, t), LastOf(c, u);
      if BucketOf(c, a) in Buckets(c, u) {
        LastOfSnoc(c, u, p);
      } else if y == [] {
        assert u == [] && u + [p] == [p] + [];
        LastOfCons(c, p, []);
        NothingIsLast(c);
      } else {
        assert x[..|x| - 1] == [a] + y[..|y| - 1];
        Cons(a, y[..|y| - 1]);
        LastOfSnoc(c, u, p);
      }
    }
  }

  lemma {:induction false} SortOfSorted(c: Retention, s: seq<Point>)
    requires Sorted(c, s)
    ensures StableSort(c, s) == s
  {
    if s != [] {
      var n := |s| - 1;
      SortOfSorted(c, s[..n]);
      InsertLast(c, s[..n], s[n]);
    }
  }

  lemma {:induction false} InsertLast(c: Retention, s: seq<Point>, p: Point)
    requires forall i :: 0 <= i < |s| ==> Time(c, s[i]) <= Time(c, p)
    ensures Insert(c, s, p) == s + [p]
  {
    if s != [] {
      InsertLast(c, s[1..], p);
    }
  }

  lemma {:induction false} NotBeforeSorted(c: Retention, s: seq<Point>, cutoff: int)
    requires Sorted(c, s)
    ensures Sorted(c, NotBefore(c, s, cutoff))
    ensures forall q :: q in NotBefore(c, s, cutoff) ==> q in s
  {
    if s != [] {
      NotBeforeSorted(c, s[1..], cutoff);
      var r := NotBefore(c, s[1..], cutoff);
      forall i | 0 <= i < |r| ensures Time(c, s[0]) <= Time(c, r[i]) {
        assert r[i] in s[1..];
      }
    }
  }

  /** The newest point of each bucket, oldest bucket first. */
  function Reps(c: Retention, points: seq<Point>): seq<Point> {
    LastOf(c, StableSort(c, points))
  }

  lemma RepsShape(c: Retention, points: seq<Point>)
    ensures Sorted(c, Reps(c, points)) && DistinctBuckets(c, Reps(c, points))
    ensures Within(Reps(c, points), points)
  {
    SortIsSorted(c, points);
    LastOfSorted(c, StableSort(c, points));
    LastOfMembers(c, StableSort(c, points));
    SortedHasSameMembers(c, points);
  }

  /** What one prune keeps: the newest point of each bucket, without the aged and the excess ones. */
  lemma PrunedIs(c: Retention, points: seq<Point>, now: int)
    requires Consistent(c, points)
    ensures Pruned(c, points, now) == Cap(NotBefore(c, Reps(c, points), now - c.maxAge), c.maxPoints)
  {
    hide StableSort, LastOf, BucketOf, ByBucket, NotBefore, Cap;
    var o := StableSort(c, points);
    SortIsSorted(c, points);
    assert ByBucket(c, o) == LastOf(c, o) by {
      SortedHasSameMembers(c, points);
      ConsistentWithin(c, o, points);
      DictionaryPassIsLastOf(c, o);
    }
    LastOfSorted(c, o);
    NotBeforeSorted(c, LastOf(c, o), now - c.maxAge);
    SortOfSorted(c, NotBefore(c, LastOf(c, o), now - c.maxAge));
  }

  lemma PrunedIsCut(c: Retention, points: seq<Point>, now: int)
    requires Consistent(c, points) && c.maxPoints >= 0
    ensures Pruned(c, points, now) == Cut(c, Reps(c, points), now - c.maxAge)
    ensures Sorted(c, Pruned(c, points, now)) && DistinctBuckets(c, Pruned(c, points, now))
    ensures Within(Pruned(c, points, now), points)
  {
    hide Pruned, StableSort, NotBefore, Reps, Cap, Cut;
    var reps, cutoff := Reps(c, points), now - c.maxAge;
    RepsShape(c, points);
    assert Pruned(c, points, now) == Cut(c, reps, cutoff) by {
      PrunedIs(c, points, now);
      CutIs(c, reps, cutoff);
    }
    CutMembers(c, reps, cutoff);
  }

  ghost predicate Within(s: seq<Point>, t: seq<Point>) {
    forall p :: p in s ==> p in t
  }

  lemma ConsistentWithin(c: Retention, s: seq<Point>, t: seq<Point>)
    requires Consistent(c, t) && Within(s, t)
    ensures Consistent(c, s)
  {
    forall p, q | p in s && q in s ensures Agree(c, p, q) {
      assert p in t && q in t;
    }
  }

  datatype Recording = Recording(point: Point, now: int)

  function PointsOf(recs: seq<Recording>): seq<Point> {
    if recs == [] then []
    else PointsOf(recs[..|recs| - 1]) + [recs[|recs| - 1].point]
  }

  /** The stored list when pruning follows every record. */
  function Online(c: Retention, recs: seq<Recording>): seq<Point> {
    if recs == [] then []
    else Recorded(c, Online(c, recs[..|recs| - 1]), recs[|recs| - 1].point, recs[|recs| - 1].now)
  }

  /** The clock does not go back and no snapshot is recorded twice. */
  ghost predicate InOrder(recs: seq<Recording>) {
    && (forall i, j :: 0 <= i < j < |recs| ==> recs[i].now <= recs[j].now)
    && (forall i, j :: 0 <= i < j < |recs| ==> recs[i].point.snapshotId != recs[j].point.snapshotId)
  }

  ghost predicate ValidRun(c: Retention, recs: seq<Recording>) {
    InOrder(recs) && Consistent(c, PointsOf(recs))
  }

  lemma {:induction false} PointsOfIs(recs: seq<Recording>)
    ensures |PointsOf(recs)| == |recs|
    ensures forall i :: 0 <= i < |recs| ==> PointsOf(recs)[i] == recs[i].point
  {
    if recs != [] {
      PointsOfIs(recs[..|recs| - 1]);
    }
  }

  lemma {:induction false} WithoutAbsent(points: seq<Point>, id: string)
    requires forall i :: 0 <= i < |points| ==> points[i].snapshotId != id
    ensures Without(points, id) == points
  {
    if points != [] {
      WithoutAbsent(points[1..], id);
    }
  }

  lemma {:induction false} ValidPrefix(c: Retention, recs: seq<Recording>)
    requires ValidRun(c, recs) && recs != []
    ensures ValidRun(c, recs[..|recs| - 1])
  {
    var before := recs[..|recs| - 1];
    assert PointsOf(recs) == PointsOf(before) + [recs[|recs| - 1].point];
    ConsistentWithin(c, PointsOf(before), PointsOf(recs));
  }

  /** The record step never finds the id it is about to add. */
  lemma OnlineStep(c: Retention, recs: seq<Recording>)
    requires ValidRun(c, recs) && recs != []
    requires Within(Online(c, recs[..|recs| - 1]), PointsOf(recs[..|recs| - 1]))
    ensures var n := |recs| - 1;
            && Within(Online(c, recs[..n]) + [recs[n].point], PointsOf(recs))
            && Online(c, recs) == Pruned(c, Online(c, recs[..n]) + [recs[n].point], recs[n].now)
  {
    var n := |recs| - 1;
    var kept := Online(c, recs[..n]);
    PointsOfIs(recs[..n]);
    forall i | 0 <= i < |kept| ensures kept[i].snapshotId != recs[n].point.snapshotId {
      assert kept[i] in PointsOf(recs[..n]);
      var j :| 0 <= j < n && PointsOf(recs[..n])[j] == kept[i];
      assert recs[j].point == kept[i];
    }
    WithoutAbsent(kept, recs[n].point.snapshotId);
  }

  /** The newest point of each bucket, after one more point. */
  lemma RepsSnoc(c: Retention, all: seq<Point>, p: Point)
    ensures Reps(c, all + [p]) == LastOf(c, Insert(c, Reps(c, all), p))
  {
    assert (all + [p])[..|all|] == all;
    SortIsSorted(c, all);
    SupersededPointsAreInert(c, StableSort(c, all), p);
  }

  lemma RepsOfReps(c: Retention, s: seq<Point>)
    requires Sorted(c, s) && DistinctBuckets(c, s)
    ensures Reps(c, s) == s
  {
    SortOfSorted(c, s);
    LastOfDistinct(c, s);
  }

  /** One more point, then a prune: the same whether or not the earlier points were pruned first. */
  lemma PruneThenAdd(c: Retention, all: seq<Point>, p: Point, early: int, late: int)
    requires Consistent(c, all + [p]) && c.maxPoints >= 0 && early <= late
    ensures Pruned(c, Pruned(c, all, early) + [p], late) == Pruned(c, all + [p], late)
  {
    hide Pruned, StableSort, ByBucket, LastOf, BucketOf, Cut, Insert;
    var kept, reps := Pruned(c, all, early), Reps(c, all);
    assert kept == Cut(c, reps, early - c.maxAge) && Reps(c, kept) == kept && Within(kept, all) by {
      ConsistentWithin(c, all, all + [p]);
      PrunedIsCut(c, all, early);
      RepsOfReps(c, kept);
    }
    assert Pruned(c, kept + [p], late) == Cut(c, LastOf(c, Insert(c, kept, p)), late - c.maxAge) by {
      ConsistentWithin(c, kept + [p], all + [p]);
      PrunedIsCut(c, kept + [p], late);
      RepsSnoc(c, kept, p);
    }
    assert Pruned(c, all + [p], late) == Cut(c, LastOf(c, Insert(c, reps, p)), late - c.maxAge) by {
      PrunedIsCut(c, all + [p], late);
      RepsSnoc(c, all, p);
    }
    RepsShape(c, all);
    CutIsInert(c, reps, p, early - c.maxAge, late - c.maxAge);
  }

  // ----- pruning twice -----

  ghost predicate Apart(c: Retention, s: seq<Point>) {
    forall i, j :: 0 <= i < j < |s| ==> BucketOf(c, s[i]) != BucketOf(c, s[j])
  }

  lemma AssignApart(c: Retention, values: seq<Point>, p: Point)
    requires Apart(c, values)
    ensures Apart(c, Assign(c, values, p))
  {
    hide BucketOf;
    if i :| 0 <= i < |values| && BucketOf(c, values[i]) == BucketOf(c, p) {
      AssignOld(c, values, p, i);
    } else {
      AssignNew(c, values, p);
    }
  }

  lemma {:induction false} ByBucketApart(c: Retention, o: seq<Point>)
    ensures Apart(c, ByBucket(c, o))
  {
    hide BucketOf, Assign;
    if o != [] {
      ByBucketApart(c, o[..|o| - 1]);
      AssignApart(c, ByBucket(c, o[..|o| - 1]), o[|o| - 1]);
    }
  }

  lemma {:induction false} ByBucketOfApart(c: Retention, s: seq<Point>)
    requires Apart(c, s)
    ensures ByBucket(c, s) == s
  {
    hide BucketOf;
    if s != [] {
      var n := |s| - 1;
      ByBucketOfApart(c, s[..n]);
      AssignNew(c, s[..n], s[n]);
    }
  }

  lemma {:induction false} InsertApart(c: Retention, s: seq<Point>, p: Point)
    requires Apart(c, s) && forall q :: q in s ==> BucketOf(c, q) != BucketOf(c, p)
    ensures Apart(c, Insert(c, s, p))
  {
    hide BucketOf;
    if s != [] && Time(c, s[0]) <= Time(c, p) {
      InsertApart(c, s[1..], p);
      InsertMembers(c, s[1..], p);
      var rest := Insert(c, s[1..], p);
      forall j | 0 <= j < |rest| ensures BucketOf(c, s[0]) != BucketOf(c, rest[j]) {
        assert rest[j] in rest;
      }
    }
  }

  lemma {:induction false} SortApart(c: Retention, s: seq<Point>)
    requires Apart(c, s)
    ensures Apart(c, StableSort(c, s)) && |StableSort(c, s)| == |s|
  {
    hide BucketOf, Insert;
    SortMembers(c, s);
    assert |StableSort(c, s)| == |multiset(StableSort(c, s))| == |multiset(s)| == |s|;
    if s != [] {
      var n := |s| - 1;
      SortApart(c, s[..n]);
      SortedHasSameMembers(c, s[..n]);
      InsertApart(c, StableSort(c, s[..n]), s[n]);
    }
  }

  ghost predicate AllInAge(c: Retention, s: seq<Point>, cutoff: int) {
    forall q :: q in s ==> Time(c, q) >= cutoff
  }

  lemma {:induction false} NotBeforeApart(c: Retention, s: seq<Point>, cutoff: int)
    requires Apart(c, s)
    ensures Apart(c, NotBefore(c, s, cutoff)) && AllInAge(c, NotBefore(c, s, cutoff), cutoff)
    ensures forall q :: q in NotBefore(c, s, cutoff) ==> q in s
  {
    hide BucketOf;
    if s != [] {
      NotBeforeApart(c, s[1..], cutoff);
      var rest := NotBefore(c, s[1..], cutoff);
      forall j | 0 <= j < |rest| ensures BucketOf(c, s[0]) != BucketOf(c, rest[j]) {
        assert rest[j] in rest;
      }
    }
  }

  lemma {:induction false} NothingAged(c: Retention, s: seq<Point>, cutoff: int)
    requires AllInAge(c, s, cutoff)
    ensures NotBefore(c, s, cutoff) == s
  {
    if s != [] {
      NothingAged(c, s[1..], cutoff);
      assert s == [s[0]] + s[1..];
    }
  }

  /** What is left to cap: sorted, one point per bucket, all in age. */
  lemma BeforeCap(c: Retention, points: seq<Point>, now: int) returns (kept: seq<Point>)
    ensures Pruned(c, points, now) == Cap(kept, c.maxPoints)
    ensures Sorted(c, kept) && Apart(c, kept) && AllInAge(c, kept, now - c.maxAge)
    ensures |kept| == |NotBefore(c, ByBucket(c, StableSort(c, points)), now - c.maxAge)|
  {
    hide BucketOf, StableSort, ByBucket, NotBefore, Cap;
    var latest := ByBucket(c, StableSort(c, points));
    var inAge := NotBefore(c, latest, now - c.maxAge);
    ByBucketApart(c, StableSort(c, points));
    NotBeforeApart(c, latest, now - c.maxAge);
    SortApart(c, inAge);
    SortIsSorted(c, inAge);
    SortedHasSameMembers(c, inAge);
    kept := StableSort(c, inAge);
  }

  lemma CapIsASuffix(s: seq<Point>, maxPoints: int) returns (n: nat)
    ensures n <= |s| && Cap(s, maxPoints) == s[n..]
  {
    n := if |s| <= maxPoints then 0 else if maxPoints > 0 then |s| - maxPoints
         else if -maxPoints <= |s| then -maxPoints else |s|;
  }

  lemma SuffixShape(c: Retention, s: seq<Point>, n: nat, cutoff: int)
    requires n <= |s| && Sorted(c, s) && Apart(c, s) && AllInAge(c, s, cutoff)
    ensures Sorted(c, s[n..]) && Apart(c, s[n..]) && AllInAge(c, s[n..], cutoff)
  {
    hide BucketOf;
  }

  /** Pruning a pruned list only caps it again. */
  lemma PrunedAgain(c: Retention, kept: seq<Point>, now: int)
    requires Sorted(c, kept) && Apart(c, kept) && AllInAge(c, kept, now - c.maxAge)
    ensures Pruned(c, Cap(kept, c.maxPoints), now) == Cap(Cap(kept, c.maxPoints), c.maxPoints)
  {
    var n := CapIsASuffix(kept, c.maxPoints);
    SuffixShape(c, kept, n, now - c.maxAge);
    hide BucketOf, Sorted, Apart, AllInAge;
    var s := kept[n..];
    hide Cap, StableSort, ByBucket, NotBefore;
    SortOfSorted(c, s);
    ByBucketOfApart(c, s);
    NothingAged(c, s, now - c.maxAge);
  }

  /** Pruning twice is pruning once, for every list and resolution, exactly when the cap is not negative or
      leaves nothing. */
  lemma PruneIsIdempotent(c: Retention, points: seq<Point>, now: int)
    ensures Pruned(c, Pruned(c, points, now), now) == Pruned(c, points, now) <==>
            || c.maxPoints >= 0
            || |NotBefore(c, ByBucket(c, StableSort(c, points)), now - c.maxAge)| <= -c.maxPoints
  {
    hide Pruned, StableSort, ByBucket, NotBefore;
    var kept := BeforeCap(c, points, now);
    PrunedAgain(c, kept, now);
  }

  /** Recording points one by one, in any time order, stores what one prune of all of them would. */
  lemma {:induction false} OnlineEqualsOffline(c: Retention, recs: seq<Recording>)
    requires ValidRun(c, recs) && recs != [] && c.maxPoints >= 0
    ensures Online(c, recs) == Pruned(c, PointsOf(recs), recs[|recs| - 1].now)
  {
    var n := |recs| - 1;
    var before, p, now := recs[..n], recs[n].point, recs[n].now;
    ValidPrefix(c, recs);
    if before == [] {
      OnlineStep(c, recs);
    } else {
      OnlineEqualsOffline(c, before);
      PrunedIsCut(c, PointsOf(before), before[n - 1].now);
      OnlineStep(c, recs);
      PruneThenAdd(c, PointsOf(before), p, before[n - 1].now, now);
    }
  }

  lemma {:induction false} NotBeforeLength(c: Retention, s: seq<Point>, cutoff: int)
    ensures |NotBefore(c, s, cutoff)| <= |s|
  {
    if s != [] { NotBeforeLength(c, s[1..], cutoff); }
  }

  lemma AtMostOneKept(c: Retention, p: Point, now: int)
    requires c.maxPoints < 0
    ensures Pruned(c, [p], now) == []
  {
    hide Pruned, StableSort, LastOf, NotBefore;
    PrunedIs(c, [p], now);
    SortMembers(c, [p]);
    assert |StableSort(c, [p])| == |multiset(StableSort(c, [p]))| == 1;
    LastOfLength(c, StableSort(c, [p]));
    NotBeforeLength(c, Reps(c, [p]), now - c.maxAge);
  }

  /** With a negative cap every online prune empties the list, whatever is recorded. */
  lemma {:induction false} NegativeCapStoresNothing(c: Retention, recs: seq<Recording>)
    requires c.maxPoints < 0
    ensures Online(c, recs) == []
  {
    hide Pruned;
    if recs != [] {
      var n := |recs| - 1;
      NegativeCapStoresNothing(c, recs[..n]);
      assert [] + [recs[n].point] == [recs[n].point];
      AtMostOneKept(c, recs[n].point, recs[n].now);
    }
  }

  lemma NegativeCap(s: seq<Point>, maxPoints: int)
    requires maxPoints < 0
    ensures Cap(s, maxPoints) == [] <==> |s| <= -maxPoints
  {
  }

  /** Exactly when online and offline retention agree: a cap of zero (which keeps everything) or more,
      or so few buckets in age that even one prune under a negative cap drops them all. */
  lemma OnlineEqualsOfflineIff(c: Retention, recs: seq<Recording>)
    requires ValidRun(c, recs) && recs != []
    ensures var now := recs[|recs| - 1].now;
            Online(c, recs) == Pruned(c, PointsOf(recs), now) <==>
            (c.maxPoints >= 0
             || |NotBefore(c, Reps(c, PointsOf(recs)), now - c.maxAge)| <= -c.maxPoints)
  {
    hide Online, Pruned, StableSort, NotBefore, Reps, Cap;
    var now, all := recs[|recs| - 1].now, PointsOf(recs);
    if c.maxPoints >= 0 {
      OnlineEqualsOffline(c, recs);
    } else {
      NegativeCapStoresNothing(c, recs);
      PrunedIs(c, all, now);
      NegativeCap(NotBefore(c, Reps(c, all), now - c.maxAge), c.maxPoints);
    }
  }

  /** For days and hours nothing is asked of the points: in whatever order of their times snapshots arrive, and
      however many share an instant, online and offline retention agree under exactly that condition. */
  lemma CalendarRetentionAgreesIff(c: Retention, recs: seq<Recording>)
    requires c.resolution != Raw && InOrder(recs) && recs != []
    ensures var now := recs[|recs| - 1].now;
            Online(c, recs) == Pruned(c, PointsOf(recs), now) <==>
            (c.maxPoints >= 0
             || |NotBefore(c, Reps(c, PointsOf(recs)), now - c.maxAge)| <= -c.maxPoints)
  {
    CalendarBucketsAreConsistent(c, PointsOf(recs));
    hide Consistent;
    OnlineEqualsOfflineIff(c, recs);
  }

  lemma OnePoint(c: Retention, x: Point)
    ensures StableSort(c, [x]) == [x] && ByBucket(c, [x]) == [x]
    ensures Time(c, x) == 0 && c.maxAge >= 0 ==> NotBefore(c, [x], 0 - c.maxAge) == [x]
  {
    assert [x][..0] == [] && [x][1..] == [];
    assert StableSort(c, []) == [] && ByBucket(c, []) == [] && NotBefore(c, [], 0 - c.maxAge) == [];
  }

  lemma OneInstant(c: Retention, x: Point, y: Point)
    requires c.resolution == Raw && Time(c, x) == Time(c, y) == 0 && x.generatedAt != y.generatedAt
    requires c.maxPoints == 1 && c.maxAge >= 0
    ensures StableSort(c, [x, y]) == [x, y] && ByBucket(c, [x, y]) == [x, y]
    ensures NotBefore(c, [x, y], 0 - c.maxAge) == [x, y]
    ensures Pruned(c, [x, y], 0) == [y]
  {
    assert [x, y][..1] == [x] && [x, y][1..] == [y];
    OnePoint(c, x);
    OnePoint(c, y);
    assert NotBefore(c, [x, y], 0 - c.maxAge) == [x] + NotBefore(c, [y], 0 - c.maxAge);
    InsertLast(c, [x], y);
    AssignNew(c, [x], y);
    assert [x] + [y] == [x, y];
    assert StableSort(c, [x, y]) == [x, y] && ByBucket(c, [x, y]) == [x, y];
    assert Cap([x, y], c.maxPoints) == [y];
  }

  /** Under raw resolution two spellings of one instant are two buckets, and then the order of
      arrival decides under a cap: online and offline retention keep different points. */
  lemma RawSpellingsDiverge(c: Retention, x: Point, y: Point, z: Point)
    requires c.resolution == Raw && c.maxPoints == 1 && c.maxAge >= 0
    requires Time(c, x) == Time(c, y) == 0 && x.generatedAt == z.generatedAt != y.generatedAt
    requires x.snapshotId != y.snapshotId && y.snapshotId != z.snapshotId && x.snapshotId != z.snapshotId
    ensures Recorded(c, Recorded(c, [x], y, 0), z, 0) == [z]
    ensures Pruned(c, [x, y, z], 0) == [y]
  {
    hide Pruned, Recorded;
    RecordNextSpelling(c, x, y);
    RecordNextSpelling(c, y, z);
    PruneThreeSpellings(c, x, y, z);
  }

  lemma RecordNextSpelling(c: Retention, x: Point, y: Point)
    requires c.resolution == Raw && Time(c, x) == Time(c, y) == 0 && x.generatedAt != y.generatedAt
    requires c.maxPoints == 1 && c.maxAge >= 0 && x.snapshotId != y.snapshotId
    ensures Recorded(c, [x], y, 0) == [y]
  {
    hide Pruned;
    WithoutAbsent([x], y.snapshotId);
    assert [x] + [y] == [x, y];
    OneInstant(c, x, y);
  }

  lemma PruneThreeSpellings(c: Retention, x: Point, y: Point, z: Point)
    requires c.resolution == Raw && c.maxPoints == 1 && c.maxAge >= 0
    requires Time(c, x) == Time(c, y) == Time(c, z) == 0 && x.generatedAt == z.generatedAt != y.generatedAt
    ensures Pruned(c, [x, y, z], 0) == [y]
  {
    OneInstant(c, x, y);
    OneInstant(c, z, y);
    assert BucketOf(c, x) == BucketOf(c, z) != BucketOf(c, y);
    hide BucketOf;
    assert StableSort(c, [x, y, z]) == [x, y, z] by {
      assert [x, y, z][..2] == [x, y] && [x, y] + [z] == [x, y, z];
      InsertLast(c, [x, y], z);
    }
    assert ByBucket(c, [x, y, z]) == [z, y] by {
      assert [x, y, z][..2] == [x, y];
      AssignOld(c, [x, y], z, 0);
      assert [x, y][0 := z] == [z, y];
    }
    assert Pruned(c, [x, y, z], 0) == Cap(StableSort(c, NotBefore(c, [z, y], 0 - c.maxAge)), 1);
    assert Cap([z, y], 1) == [y];
  }

  // ----- what is stored, on instants and texts -----

  /** Two points of one UTC day, or of one hour, or with one spelling of their time. */
  predicate SameSlot(c: Retention, p: Point, q: Point) {
    match c.resolution
    case Daily => c.instant(p.generatedAt) / 86_400_000_000 == c.instant(q.generatedAt) / 86_400_000_000
    case Hourly => c.instant(p.generatedAt) / 3_600_000_000 == c.instant(q.generatedAt) / 3_600_000_000
    case Raw => p.generatedAt == q.generatedAt
  }

  lemma SlotsAreBuckets(c: Retention, p: Point, q: Point)
    ensures SameSlot(c, p, q) <==> BucketOf(c, p) == BucketOf(c, q)
  {
  }

  /** A point of the list in the slot of `q` that is not older. */
  ghost predicate Covered(c: Retention, s: seq<Point>, q: Point) {
    exists p :: p in s && BucketOf(c, p) == BucketOf(c, q) && Time(c, q) <= Time(c, p)
  }

  lemma {:induction false} AssignMembers(c: Retention, values: seq<Point>, p: Point)
    ensures forall q :: q in Assign(c, values, p) ==> q == p || q in values
    ensures p in Assign(c, values, p)
    ensures forall q :: q in values && BucketOf(c, q) != BucketOf(c, p) ==> q in Assign(c, values, p)
  {
    hide BucketOf;
    if values != [] {
      AssignMembers(c, values[1..], p);
      assert values == [values[0]] + values[1..];
    }
  }

  /** The dictionary pass over a sorted list keeps a newest point of every bucket. */
  lemma {:induction false} ByBucketCovers(c: Retention, o: seq<Point>)
    requires Sorted(c, o)
    ensures forall q :: q in ByBucket(c, o) ==> q in o
    ensures forall q :: q in o ==> Covered(c, ByBucket(c, o), q)
  {
    hide BucketOf, Time, Covered;
    if o != [] {
      var n := |o| - 1;
      var before := ByBucket(c, o[..n]);
      ByBucketCovers(c, o[..n]);
      AssignMembers(c, before, o[n]);
      assert o == o[..n] + [o[n]];
      forall q | q in o ensures Covered(c, ByBucket(c, o), q) {
        assert Time(c, q) <= Time(c, o[n]);
        AssignCovers(c, before, o[n], q);
      }
    }
  }

  lemma AssignCovers(c: Retention, values: seq<Point>, p: Point, q: Point)
    requires Time(c, q) <= Time(c, p) && (q == p || Covered(c, values, q))
    ensures Covered(c, Assign(c, values, p), q)
  {
    hide BucketOf, Time, Assign;
    AssignMembers(c, values, p);
  }

  lemma {:induction false} NotBeforeMembers(c: Retention, s: seq<Point>, cutoff: int)
    ensures forall q :: q in NotBefore(c, s, cutoff) <==> q in s && Time(c, q) >= cutoff
  {
    if s != [] {
      NotBeforeMembers(c, s[1..], cutoff);
      assert s == [s[0]] + s[1..];
    }
  }

  /** What is left to cap comes from the points and covers every one of them that is in age. */
  lemma BeforeCapCovers(c: Retention, points: seq<Point>, now: int) returns (kept: seq<Point>)
    ensures Pruned(c, points, now) == Cap(kept, c.maxPoints)
    ensures Sorted(c, kept) && Apart(c, kept)
    ensures forall q :: q in kept ==> q in points && Time(c, q) >= now - c.maxAge
    ensures forall q :: q in points && Time(c, q) >= now - c.maxAge ==> Covered(c, kept, q)
  {
    hide BucketOf, StableSort, ByBucket, NotBefore, Cap, Time;
    var o := StableSort(c, points);
    var latest := ByBucket(c, o);
    var inAge := NotBefore(c, latest, now - c.maxAge);
    SortIsSorted(c, points);
    SortedHasSameMembers(c, points);
    ByBucketCovers(c, o);
    ByBucketApart(c, o);
    NotBeforeApart(c, latest, now - c.maxAge);
    NotBeforeMembers(c, latest, now - c.maxAge);
    SortApart(c, inAge);
    SortIsSorted(c, inAge);
    SortedHasSameMembers(c, inAge);
    kept := StableSort(c, inAge);
    forall q | q in points && Time(c, q) >= now - c.maxAge ensures Covered(c, kept, q) {
      assert Covered(c, latest, q);
    }
  }

  /** Points of the list that are in age, in time order, no two of one day (or hour, or spelling). */
  ghost predicate KeepsInOrder(c: Retention, points: seq<Point>, now: int, kept: seq<Point>) {
    && (forall i :: 0 <= i < |kept| ==> kept[i] in points && c.instant(kept[i].generatedAt) >= now - c.maxAge)
    && (forall i, j :: 0 <= i < j < |kept| ==>
          c.instant(kept[i].generatedAt) <= c.instant(kept[j].generatedAt) && !SameSlot(c, kept[i], kept[j]))
  }

  /** Each point kept is the newest of its day (or hour, or spelling). */
  ghost predicate KeepsNewestOfEach(c: Retention, points: seq<Point>, kept: seq<Point>) {
    forall i, q :: 0 <= i < |kept| && q in points && SameSlot(c, kept[i], q) ==>
      c.instant(q.generatedAt) <= c.instant(kept[i].generatedAt)
  }

  /** No more than the cap; and a point in age that has nothing of its own left was dropped by the cap, and is no
      newer than anything kept. */
  ghost predicate DropsOnlyForTheCap(c: Retention, points: seq<Point>, now: int, kept: seq<Point>) {
    && (c.maxPoints > 0 ==> |kept| <= c.maxPoints)
    && (c.maxPoints >= 0 ==>
          forall q :: q in points && c.instant(q.generatedAt) >= now - c.maxAge ==>
            || (exists i :: 0 <= i < |kept| && SameSlot(c, kept[i], q))
            || (|kept| == c.maxPoints > 0
                && forall i :: 0 <= i < |kept| ==> c.instant(q.generatedAt) <= c.instant(kept[i].generatedAt)))
  }

  /** One prune of any list, in terms of instants and texts. */
  lemma PruneStoresNewest(c: Retention, points: seq<Point>, now: int)
    ensures KeepsInOrder(c, points, now, Pruned(c, points, now))
    ensures KeepsNewestOfEach(c, points, Pruned(c, points, now))
    ensures DropsOnlyForTheCap(c, points, now, Pruned(c, points, now))
  {
    hide Pruned, Apart, Sorted, Covered, Cap, Time, KeepsInOrder, KeepsNewestOfEach, DropsOnlyForTheCap;
    var all := BeforeCapCovers(c, points, now);
    var n := CapIsASuffix(all, c.maxPoints);
    SuffixInOrder(c, points, now, all, n);
    SuffixNewest(c, points, now, all, n);
    SuffixDrops(c, points, now, all, n);
  }

  lemma SuffixInOrder(c: Retention, points: seq<Point>, now: int, all: seq<Point>, n: nat)
    requires n <= |all| && Sorted(c, all) && Apart(c, all)
    requires forall q :: q in all ==> q in points && Time(c, q) >= now - c.maxAge
    ensures KeepsInOrder(c, points, now, all[n..])
  {
    hide SameSlot, Apart;
    var kept := all[n..];
    assert forall i :: 0 <= i < |kept| ==> kept[i] == all[n + i] && kept[i] in all;
    forall i, j | 0 <= i < j < |kept| ensures !SameSlot(c, kept[i], kept[j]) {
      SlotsAreBuckets(c, kept[i], kept[j]);
      ApartAt(c, all, n + i, n + j);
    }
  }

  lemma SuffixNewest(c: Retention, points: seq<Point>, now: int, all: seq<Point>, n: nat)
    requires n <= |all| && Apart(c, all)
    requires forall q :: q in all ==> q in points && Time(c, q) >= now - c.maxAge
    requires forall q :: q in points && Time(c, q) >= now - c.maxAge ==> Covered(c, all, q)
    ensures KeepsNewestOfEach(c, points, all[n..])
  {
    hide SameSlot, Apart, Covered, BucketOf;
    var kept := all[n..];
    forall i, q | 0 <= i < |kept| && q in points && SameSlot(c, kept[i], q)
      ensures Time(c, q) <= Time(c, kept[i])
    {
      assert kept[i] == all[n + i] && all[n + i] in all;
      SlotsAreBuckets(c, kept[i], q);
      NewestOfItsOwn(c, points, now, all, n + i, q);
    }
  }

  lemma SuffixDrops(c: Retention, points: seq<Point>, now: int, all: seq<Point>, n: nat)
    requires n <= |all| && Sorted(c, all) && Cap(all, c.maxPoints) == all[n..]
    requires forall q :: q in points && Time(c, q) >= now - c.maxAge ==> Covered(c, all, q)
    ensures DropsOnlyForTheCap(c, points, now, all[n..])
  {
    hide SameSlot, Sorted, Covered, BucketOf, Cap;
    var kept := all[n..];
    CapBounds(all, c.maxPoints);
    if c.maxPoints >= 0 {
      forall q | q in points && Time(c, q) >= now - c.maxAge && forall i :: 0 <= i < |kept| ==> !SameSlot(c, kept[i], q)
        ensures |kept| == c.maxPoints > 0 && forall i :: 0 <= i < |kept| ==> Time(c, q) <= Time(c, kept[i])
      {
        DroppedByTheCap(c, all, n, kept, q);
      }
    }
  }

  lemma CapBounds(s: seq<Point>, maxPoints: int)
    ensures maxPoints > 0 ==> |Cap(s, maxPoints)| <= maxPoints
  {
  }

  lemma ApartAt(c: Retention, s: seq<Point>, i: nat, j: nat)
    requires Apart(c, s) && i < j < |s|
    ensures BucketOf(c, s[i]) != BucketOf(c, s[j])
  {
    hide BucketOf;
  }

  lemma NewestOfItsOwn(c: Retention, points: seq<Point>, now: int, all: seq<Point>, i: nat, q: Point)
    requires i < |all| && Apart(c, all) && Time(c, all[i]) >= now - c.maxAge
    requires forall x :: x in points && Time(c, x) >= now - c.maxAge ==> Covered(c, all, x)
    requires q in points && BucketOf(c, q) == BucketOf(c, all[i])
    ensures Time(c, q) <= Time(c, all[i])
  {
    hide BucketOf, Time;
    if Time(c, q) >= now - c.maxAge {
      var p :| p in all && BucketOf(c, p) == BucketOf(c, q) && Time(c, q) <= Time(c, p);
      var j :| 0 <= j < |all| && all[j] == p;
    }
  }

  lemma DroppedByTheCap(c: Retention, all: seq<Point>, n: nat, kept: seq<Point>, q: Point)
    requires Sorted(c, all) && c.maxPoints >= 0 && kept == Cap(all, c.maxPoints)
    requires n <= |all| && kept == all[n..] && Covered(c, all, q)
    requires forall i :: 0 <= i < |kept| ==> !SameSlot(c, kept[i], q)
    ensures |kept| == c.maxPoints > 0 && forall i :: 0 <= i < |kept| ==> Time(c, q) <= Time(c, kept[i])
  {
    hide BucketOf, Time, SameSlot;
    var p :| p in all && BucketOf(c, p) == BucketOf(c, q) && Time(c, q) <= Time(c, p);
    var j :| 0 <= j < |all| && all[j] == p;
    forall k | n <= k < |all| ensures BucketOf(c, all[k]) != BucketOf(c, q) {
      assert all[k] == kept[k - n];
      SlotsAreBuckets(c, all[k], q);
    }
  }

  lemma {:induction false} WithoutMembers(points: seq<Point>, id: string)
    ensures forall q :: q in Without(points, id) <==> q in points && q.snapshotId != id
  {
    if points != [] {
      WithoutMembers(points[1..], id);
      assert points == [points[0]] + points[1..];
    }
  }

  /** One recording of any point over any list: the point takes the place of everything stored under its snapshot,
      and with it the rest is pruned. */
  lemma RecordReplacesAndPrunes(c: Retention, points: seq<Point>, p: Point, now: int, list: seq<Point>)
    requires forall q :: q in list <==> q == p || (q in points && q.snapshotId != p.snapshotId)
    ensures KeepsInOrder(c, list, now, Recorded(c, points, p, now))
    ensures KeepsNewestOfEach(c, list, Recorded(c, points, p, now))
    ensures DropsOnlyForTheCap(c, list, now, Recorded(c, points, p, now))
  {
    hide Pruned, Time, SameSlot, KeepsInOrder, KeepsNewestOfEach, DropsOnlyForTheCap;
    var others := Without(points, p.snapshotId);
    WithoutMembers(points, p.snapshotId);
    PruneStoresNewest(c, others + [p], now);
    assert forall q :: q in others + [p] <==> q in list;
    SameMembersSameAnswers(c, others + [p], list, now, Pruned(c, others + [p], now));
  }

  lemma SameMembersSameAnswers(c: Retention, a: seq<Point>, b: seq<Point>, now: int, kept: seq<Point>)
    requires forall q :: q in a <==> q in b
    ensures KeepsInOrder(c, a, now, kept) == KeepsInOrder(c, b, now, kept)
    ensures KeepsNewestOfEach(c, a, kept) == KeepsNewestOfEach(c, b, kept)
    ensures DropsOnlyForTheCap(c, a, now, kept) == DropsOnlyForTheCap(c, b, now, kept)
  {
    hide SameSlot;
  }
}
