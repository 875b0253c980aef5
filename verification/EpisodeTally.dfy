/** What one audit episode accumulates from its observations, and what those totals mean. */
module EpisodeTally {
  import opened Wrappers

  datatype Outcome = Processed | Rejected | Unknown

  /** One normalized Modbus write. */
  datatype Operation = Operation(
    functionCode: int, address: int, quantity: int, values: seq<int>, valuesSha: string, truncated: bool)

  datatype Source = Source(ip: string, port: Option<int>, classification: string)

  datatype Destination = Destination(assetId: string, ip: string, port: int, unit: int)

  /** `epoch` is the local clock in seconds. */
  datatype Observation = Observation(
    at: string, epoch: real, source: Source, destination: Destination, operation: Operation, outcome: Outcome)

  datatype Config = Config(emitInterval: real, quietWindow: real, shutdownWindow: real, maxBuckets: int)

  datatype WriteKey = WriteKey(functionCode: int, address: int, quantity: int, valuesSha: string)

  datatype Bucket = Bucket(values: seq<int>, truncated: bool, count: nat)

  datatype Tally = Tally(
    firstAt: string, lastAt: string, lastEpoch: real,
    functionCodes: set<int>, writes: map<WriteKey, Bucket>, requestCount: nat, dropped: nat,
    processed: nat, rejected: nat, unknown: nat, lastOutcome: Outcome,
    seen: map<int, real>, shutdown: bool)

  /** The part of a tally that is printed in an event: no clock and no shutdown table. The table of writes is
      printed in key order, so it is a map. */
  datatype Totals = Totals(
    firstAt: string, lastAt: string, functionCodes: set<int>, writes: map<WriteKey, Bucket>,
    requestCount: nat, dropped: nat, processed: nat, rejected: nat, unknown: nat, lastOutcome: Outcome)

  function Printed(t: Tally): Totals {
    Totals(t.firstAt, t.lastAt, t.functionCodes, t.writes, t.requestCount, t.dropped,
           t.processed, t.rejected, t.unknown, t.lastOutcome)
  }

  /** Holding registers whose zeroing stops the process. */
  const SHUTDOWN_ADDRESSES := {3, 4, 16}

  function Blank(o: Observation): Tally {
    Tally(o.at, o.at, o.epoch, {}, map[], 0, 0, 0, 0, 0, Unknown, map[], false)
  }

  function KeyOfWrite(op: Operation): WriteKey {
    WriteKey(op.functionCode, op.address, op.quantity, op.valuesSha)
  }

  /** A single-register write of zero to one of the shutdown addresses. */
  predicate IsShutdownWrite(op: Operation) {
    op.functionCode == 6 && op.quantity == 1 && op.values == [0] && op.address in SHUTDOWN_ADDRESSES
  }

  function Max(x: real, y: real): real { if x > y then x else y }

  function Min(x: real, y: real): real { if x < y then x else y }

  function Seen(seen: map<int, real>, op: Operation, now: real): map<int, real> {
    if IsShutdownWrite(op) then seen[op.address := now] else seen
  }

  /** The correlation step: only a shutdown write that completes the three addresses recomputes the flag. */
  function Flag(c: Config, was: bool, op: Operation, seen: map<int, real>): bool {
    if IsShutdownWrite(op) && seen.Keys == SHUTDOWN_ADDRESSES then
      Max(Max(seen[3], seen[4]), seen[16]) - Min(Min(seen[3], seen[4]), seen[16]) <= c.shutdownWindow
    else was
  }

  /** Whether a write gets no bucket. */
  predicate Overflows(c: Config, writes: map<WriteKey, Bucket>, op: Operation) {
    KeyOfWrite(op) !in writes && |writes| >= c.maxBuckets
  }

  /** The bucket table step: a known key is counted, a new one gets a bucket while there is room. */
  function CountWrite(c: Config, writes: map<WriteKey, Bucket>, op: Operation): map<WriteKey, Bucket> {
    var k := KeyOfWrite(op);
    if k in writes then writes[k := writes[k].(count := writes[k].count + 1)]
    else if Overflows(c, writes, op) then writes
    else writes[k := Bucket(op.values, op.truncated, 1)]
  }

  function Count(c: Config, t: Tally, o: Observation): Tally {
    var seen := Seen(t.seen, o.operation, o.epoch);
    Tally(
      t.firstAt, o.at, o.epoch,
      t.functionCodes + {o.operation.functionCode},
      CountWrite(c, t.writes, o.operation),
      t.requestCount + 1,
      t.dropped + (if Overflows(c, t.writes, o.operation) then 1 else 0),
      t.processed + (if o.outcome.Processed? then 1 else 0),
      t.rejected + (if o.outcome.Rejected? then 1 else 0),
      t.unknown + (if o.outcome.Unknown? then 1 else 0),
      o.outcome, seen, Flag(c, t.shutdown, o.operation, seen))
  }

  /** The totals of an episode that received exactly `h`, in order. */
  function TallyOf(c: Config, h: seq<Observation>): Tally
    requires h != []
  {
    var n := |h| - 1;
    Count(c, if n == 0 then Blank(h[0]) else TallyOf(c, h[..n]), h[n])
  }

  // ----- the bucket table is a bounded histogram -----

  function Occurrences(h: seq<Observation>, k: WriteKey): nat {
    if h == [] then 0
    else Occurrences(h[..|h| - 1], k) + if KeyOfWrite(h[|h| - 1].operation) == k then 1 else 0
  }

  /** The distinct write keys of an episode, by first appearance. */
  function FirstSeen(h: seq<Observation>): seq<WriteKey> {
    if h == [] then []
    else
      var before, k := FirstSeen(h[..|h| - 1]), KeyOfWrite(h[|h| - 1].operation);
      if k in before then before else before + [k]
  }

  /** The keys that get a bucket. */
  function Tabled(c: Config, h: seq<Observation>): seq<WriteKey> {
    var keys := FirstSeen(h);
    if c.maxBuckets <= 0 then [] else if |keys| <= c.maxBuckets then keys else keys[..c.maxBuckets]
  }

  function SumCounts(keys: seq<WriteKey>, writes: map<WriteKey, Bucket>): nat {
    if keys == [] then 0
    else SumCounts(keys[..|keys| - 1], writes)
         + if keys[|keys| - 1] in writes then writes[keys[|keys| - 1]].count else 0
  }

  lemma {:induction false} FirstSeenIs(h: seq<Observation>)
    ensures forall i, j :: 0 <= i < j < |FirstSeen(h)| ==> FirstSeen(h)[i] != FirstSeen(h)[j]
    ensures forall k :: k in FirstSeen(h) <==> Occurrences(h, k) > 0
  {
    if h != [] {
      FirstSeenIs(h[..|h| - 1]);
    }
  }

  ghost predicate Matches(c: Config, h: seq<Observation>, writes: map<WriteKey, Bucket>) {
    && (forall k :: k in writes <==> k in Tabled(c, h))
    && |writes| == |Tabled(c, h)|
    && (forall k :: k in writes ==> writes[k].count == Occurrences(h, k))
  }

  /** Adding one observation to the table, seen from the history side. */
  lemma TabledSnoc(c: Config, h: seq<Observation>, o: Observation)
    ensures var k, was := KeyOfWrite(o.operation), Tabled(c, h);
            Tabled(c, h + [o]) == if k in was || |was| >= c.maxBuckets then was else was + [k]
  {
    var k, keys := KeyOfWrite(o.operation), FirstSeen(h);
    assert (h + [o])[..|h|] == h;
    FirstSeenIs(h);
    if k in keys {
      var i :| 0 <= i < |keys| && keys[i] == k;
      if 0 < c.maxBuckets <= |keys| && i < c.maxBuckets {
        assert keys[..c.maxBuckets][i] == k;
      }
    } else if 0 < c.maxBuckets < |keys| {
      assert (keys + [k])[..c.maxBuckets] == keys[..c.maxBuckets];
    }
  }

  lemma {:induction false} SumUnchanged(keys: seq<WriteKey>, a: map<WriteKey, Bucket>, b: map<WriteKey, Bucket>)
    requires forall k <- keys :: k in a <==> k in b
    requires forall k <- keys :: k in a && k in b ==> a[k].count == b[k].count
    ensures SumCounts(keys, a) == SumCounts(keys, b)
  {
    if keys != [] {
      SumUnchanged(keys[..|keys| - 1], a, b);
    }
  }

  lemma {:induction false} SumIncrement(
    keys: seq<WriteKey>, a: map<WriteKey, Bucket>, b: map<WriteKey, Bucket>, i: nat)
    requires i < |keys| && forall p, q :: 0 <= p < q < |keys| ==> keys[p] != keys[q]
    requires keys[i] in a && keys[i] in b && b[keys[i]].count == a[keys[i]].count + 1
    requires forall j :: 0 <= j < |keys| && j != i ==> (keys[j] in a <==> keys[j] in b)
    requires forall j :: 0 <= j < |keys| && j != i && keys[j] in a ==> a[keys[j]].count == b[keys[j]].count
    ensures SumCounts(keys, b) == SumCounts(keys, a) + 1
  {
    var n := |keys| - 1;
    if i == n {
      SumUnchanged(keys[..n], a, b);
    } else {
      SumIncrement(keys[..n], a, b, i);
    }
  }

  ghost predicate Histogram(c: Config, h: seq<Observation>, t: Tally) {
    && Matches(c, h, t.writes)
    && t.requestCount == |h|
    && t.requestCount == SumCounts(Tabled(c, h), t.writes) + t.dropped
    && t.requestCount == t.processed + t.rejected + t.unknown
  }

  lemma OneMoreOccurrence(h: seq<Observation>, o: Observation)
    ensures forall k :: Occurrences(h + [o], k) == Occurrences(h, k) + if KeyOfWrite(o.operation) == k then 1 else 0
  {
    assert (h + [o])[..|h|] == h;
  }

  lemma TableStep(c: Config, h: seq<Observation>, writes: map<WriteKey, Bucket>, o: Observation)
    requires Matches(c, h, writes)
    ensures Matches(c, h + [o], CountWrite(c, writes, o.operation))
  {
    hide FirstSeen, Tabled, IsShutdownWrite, Occurrences;
    var k, was, writes' := KeyOfWrite(o.operation), Tabled(c, h), CountWrite(c, writes, o.operation);
    TabledSnoc(c, h, o);
    OneMoreOccurrence(h, o);
    if k !in writes && |writes| < c.maxBuckets {
      NotTabledIsNew(c, h, k);
      assert (was + [k])[|was|] == k;
      assert writes'.Keys == writes.Keys + {k};
    } else if k in writes {
      assert writes'.Keys == writes.Keys;
      assert |writes'.Keys| == |writes.Keys|;
    }
  }

  lemma NotTabledIsNew(c: Config, h: seq<Observation>, k: WriteKey)
    requires k !in Tabled(c, h) && |Tabled(c, h)| < c.maxBuckets
    ensures Occurrences(h, k) == 0
  {
    FirstSeenIs(h);
  }

  lemma SumStep(c: Config, h: seq<Observation>, writes: map<WriteKey, Bucket>, o: Observation)
    requires Matches(c, h, writes)
    ensures SumCounts(Tabled(c, h + [o]), CountWrite(c, writes, o.operation))
            == SumCounts(Tabled(c, h), writes) + if Overflows(c, writes, o.operation) then 0 else 1
  {
    hide FirstSeen, Tabled, Occurrences, IsShutdownWrite;
    var k, was, writes' := KeyOfWrite(o.operation), Tabled(c, h), CountWrite(c, writes, o.operation);
    TabledSnoc(c, h, o);
    TabledDistinct(c, h);
    if k in writes {
      var i :| 0 <= i < |was| && was[i] == k;
      SumIncrement(was, writes, writes', i);
    } else if |writes| < c.maxBuckets {
      SumUnchanged(was, writes, writes');
      assert (was + [k])[..|was|] == was;
    }
  }

  lemma HistogramStep(c: Config, h: seq<Observation>, t: Tally, o: Observation)
    requires Histogram(c, h, t)
    ensures Histogram(c, h + [o], Count(c, t, o))
  {
    hide Matches, SumCounts, Tabled, CountWrite, Overflows, Flag, Seen;
    TableStep(c, h, t.writes, o);
    SumStep(c, h, t.writes, o);
  }

  lemma TabledDistinct(c: Config, h: seq<Observation>)
    ensures forall i, j :: 0 <= i < j < |Tabled(c, h)| ==> Tabled(c, h)[i] != Tabled(c, h)[j]
  {
    FirstSeenIs(h);
  }

  /** The bucket table holds exactly the first `maxBuckets` distinct writes with exact counts, and
      every observation is in a bucket or in `dropped`, and in one outcome state. */
  lemma {:induction false} TableIsBoundedHistogram(c: Config, h: seq<Observation>)
    requires h != []
    ensures Histogram(c, h, TallyOf(c, h))
  {
    var n := |h| - 1;
    assert h[..n] + [h[n]] == h;
    if n == 0 {
      assert Histogram(c, h[..0], Blank(h[0]));
      HistogramStep(c, h[..0], Blank(h[0]), h[0]);
    } else {
      hide Histogram, Count;
      TableIsBoundedHistogram(c, h[..n]);
      HistogramStep(c, h[..n], TallyOf(c, h[..n]), h[n]);
    }
  }

  /** Two writes share a bucket exactly when they agree in function code, address, quantity and value digest. */
  lemma WriteKeysMean(a: Operation, b: Operation)
    ensures KeyOfWrite(a) == KeyOfWrite(b) <==>
            && a.functionCode == b.functionCode && a.address == b.address && a.quantity == b.quantity
            && a.valuesSha == b.valuesSha
  {
  }

  /** A bucket shows the values of the first write with its key. */
  ghost predicate ShowsFirst(h: seq<Observation>, k: WriteKey, b: Bucket) {
    exists i :: 0 <= i < |h| && IsFirst(h, k, i) && b.values == h[i].operation.values
                && b.truncated == h[i].operation.truncated
  }

  ghost predicate IsFirst(h: seq<Observation>, k: WriteKey, i: int)
    requires 0 <= i < |h|
  {
    KeyOfWrite(h[i].operation) == k && forall j :: 0 <= j < i ==> KeyOfWrite(h[j].operation) != k
  }

  lemma {:induction false} NoOccurrences(h: seq<Observation>, k: WriteKey)
    requires Occurrences(h, k) == 0
    ensures forall j :: 0 <= j < |h| ==> KeyOfWrite(h[j].operation) != k
  {
    if h != [] {
      NoOccurrences(h[..|h| - 1], k);
    }
  }

  lemma ShowsFirstLater(h: seq<Observation>, x: Observation, k: WriteKey, b: Bucket, n: nat)
    requires ShowsFirst(h, k, b)
    ensures ShowsFirst(h + [x], k, b.(count := n))
  {
    var i :| 0 <= i < |h| && IsFirst(h, k, i) && b.values == h[i].operation.values
             && b.truncated == h[i].operation.truncated;
    assert IsFirst(h + [x], k, i) && (h + [x])[i] == h[i];
  }

  /** For every history. */
  lemma {:induction false} BucketsShowTheFirst(c: Config, h: seq<Observation>)
    requires h != []
    ensures AllShowFirst(h, TallyOf(c, h).writes)
  {
    hide AllShowFirst, CountWrite, Overflows, Flag, Seen;
    var n := |h| - 1;
    assert h == h[..n] + [h[n]];
    if n == 0 {
      NothingToShow(h[..0]);
      FirstBucketsShow(c, h[..0], map[], h[0]);
    } else {
      BucketsShowTheFirst(c, h[..n]);
      TableIsBoundedHistogram(c, h[..n]);
      FirstBucketsShow(c, h[..n], TallyOf(c, h[..n]).writes, h[n]);
    }
  }

  ghost predicate AllShowFirst(h: seq<Observation>, writes: map<WriteKey, Bucket>) {
    forall k :: k in writes ==> ShowsFirst(h, k, writes[k])
  }

  lemma NothingToShow(h: seq<Observation>)
    ensures AllShowFirst(h, map[])
  {
  }

  lemma FirstBucketsShow(c: Config, h: seq<Observation>, writes: map<WriteKey, Bucket>, x: Observation)
    requires if h == [] then writes == map[] else Matches(c, h, writes)
    requires AllShowFirst(h, writes)
    ensures AllShowFirst(h + [x], CountWrite(c, writes, x.operation))
  {
    hide ShowsFirst, KeyOfWrite, Matches;
    var after := CountWrite(c, writes, x.operation);
    forall k | k in after ensures ShowsFirst(h + [x], k, after[k]) {
      if k in writes {
        ShowsFirstLater(h, x, k, writes[k], after[k].count);
      } else {
        NewBucketShowsFirst(c, h, writes, x);
      }
    }
  }

  lemma NewBucketShowsFirst(c: Config, h: seq<Observation>, writes: map<WriteKey, Bucket>, x: Observation)
    requires h != [] ==> Matches(c, h, writes)
    requires KeyOfWrite(x.operation) !in writes && !Overflows(c, writes, x.operation)
    requires h == [] ==> writes == map[]
    ensures ShowsFirst(h + [x], KeyOfWrite(x.operation), CountWrite(c, writes, x.operation)[KeyOfWrite(x.operation)])
  {
    var k := KeyOfWrite(x.operation);
    if h != [] {
      NotTabledIsNew(c, h, k);
      NoOccurrences(h, k);
    }
    assert (h + [x])[|h|] == x && IsFirst(h + [x], k, |h|);
  }

  // ----- the shutdown flag is a predicate of the history -----

  /** The time of the latest write of a single zero (function code 6) to an address. */
  function LatestZero(h: seq<Observation>, address: int): Option<real> {
    if h == [] then None
    else
      var o, op := h[|h| - 1], h[|h| - 1].operation;
      if op.functionCode == 6 && op.quantity == 1 && op.values == [0] && op.address == address then Some(o.epoch)
      else LatestZero(h[..|h| - 1], address)
  }

  predicate Near(c: Config, s: real, t: real) {
    s - t <= c.shutdownWindow && t - s <= c.shutdownWindow
  }

  /** Addresses 3, 4 and 16 were each written, and the latest such writes lie within the window of each other. */
  predicate ShutdownSequence(c: Config, h: seq<Observation>) {
    var x, y, z := LatestZero(h, 3), LatestZero(h, 4), LatestZero(h, 16);
    && x.Some? && y.Some? && z.Some?
    && Near(c, x.value, y.value) && Near(c, x.value, z.value) && Near(c, y.value, z.value)
  }

  ghost predicate Tracks(h: seq<Observation>, seen: map<int, real>, address: int) {
    LatestZero(h, address) == if address in seen then Some(seen[address]) else None
  }

  ghost predicate Correlated(c: Config, h: seq<Observation>, seen: map<int, real>, shutdown: bool) {
    && Tracks(h, seen, 3) && Tracks(h, seen, 4) && Tracks(h, seen, 16) && seen.Keys <= SHUTDOWN_ADDRESSES
    && (shutdown <==> ShutdownSequence(c, h))
  }

  lemma SpanIs(c: Config, x: real, y: real, z: real)
    ensures Max(Max(x, y), z) - Min(Min(x, y), z) <= c.shutdownWindow <==>
            Near(c, x, y) && Near(c, x, z) && Near(c, y, z)
  {
  }

  lemma LatestZeroSnoc(h: seq<Observation>, o: Observation, address: int)
    ensures address in {3, 4, 16} ==>
              LatestZero(h + [o], address)
              == if IsShutdownWrite(o.operation) && o.operation.address == address then Some(o.epoch)
                 else LatestZero(h, address)
    ensures IsShutdownWrite(o.operation) ==> o.operation.address in {3, 4, 16}
  {
    assert (h + [o])[..|h|] == h;
  }

  lemma CorrelateStep(c: Config, h: seq<Observation>, seen: map<int, real>, shutdown: bool, o: Observation)
    requires Correlated(c, h, seen, shutdown)
    ensures var seen' := Seen(seen, o.operation, o.epoch);
            Correlated(c, h + [o], seen', Flag(c, shutdown, o.operation, seen'))
  {
    hide IsShutdownWrite, LatestZero, Near, Max, Min;
    var seen' := Seen(seen, o.operation, o.epoch);
    LatestZeroSnoc(h, o, 3);
    LatestZeroSnoc(h, o, 4);
    LatestZeroSnoc(h, o, 16);
    if seen'.Keys == SHUTDOWN_ADDRESSES {
      AllWatched();
      SpanIs(c, seen'[3], seen'[4], seen'[16]);
    } else {
      SomeUnwatched(seen');
    }
  }

  lemma AllWatched()
    ensures 3 in SHUTDOWN_ADDRESSES && 4 in SHUTDOWN_ADDRESSES && 16 in SHUTDOWN_ADDRESSES
  {
  }

  lemma SomeUnwatched(seen: map<int, real>)
    requires seen.Keys <= SHUTDOWN_ADDRESSES && seen.Keys != SHUTDOWN_ADDRESSES
    ensures 3 !in seen || 4 !in seen || 16 !in seen
  {
  }

  /** The flag is on exactly when the latest zero writes to the three addresses lie within the window. */
  lemma {:induction false} ShutdownFlagIsHistoryPredicate(c: Config, h: seq<Observation>)
    requires h != []
    ensures Correlated(c, h, TallyOf(c, h).seen, TallyOf(c, h).shutdown)
    ensures TallyOf(c, h).shutdown <==> ShutdownSequence(c, h)
  {
    var n := |h| - 1;
    var before := if n == 0 then Blank(h[0]) else TallyOf(c, h[..n]);
    if n > 0 {
      ShutdownFlagIsHistoryPredicate(c, h[..n]);
    } else {
      assert h[..0] == [];
      NothingCorrelated(c);
    }
    hide Correlated, Flag, Seen, CountWrite, Overflows;
    assert h[..n] + [h[n]] == h;
    CorrelateStep(c, h[..n], before.seen, before.shutdown, h[n]);
    CorrelatedFlag(c, h, TallyOf(c, h).seen, TallyOf(c, h).shutdown);
  }

  lemma NothingCorrelated(c: Config)
    ensures Correlated(c, [], map[], false)
  {
  }

  lemma CorrelatedFlag(c: Config, h: seq<Observation>, seen: map<int, real>, shutdown: bool)
    requires Correlated(c, h, seen, shutdown)
    ensures shutdown <==> ShutdownSequence(c, h)
  {
    hide ShutdownSequence, LatestZero;
  }

  /** The flag is not latched: a late repeat of one zero write turns it off again. */
  lemma FlagIsNotLatched(c: Config, h: seq<Observation>, o: Observation)
    requires h != [] && ShutdownSequence(c, h) && IsShutdownWrite(o.operation)
    requires forall a <- [3, 4, 16] :: o.epoch - LatestZero(h, a).value > c.shutdownWindow
    ensures TallyOf(c, h).shutdown && !TallyOf(c, h + [o]).shutdown
  {
    hide TallyOf;
    ShutdownFlagIsHistoryPredicate(c, h);
    ShutdownFlagIsHistoryPredicate(c, h + [o]);
    assert (h + [o])[..|h|] == h;
    var other := if o.operation.address == 3 then 4 else 3;
    assert other in [3, 4, 16];
    assert LatestZero(h + [o], other) == LatestZero(h, other);
    assert LatestZero(h + [o], o.operation.address) == Some(o.epoch);
  }

  // ----- the plain totals, by the history -----

  /** How many observations had an outcome. */
  function Outcomes(h: seq<Observation>, o: Outcome): nat { |Having(h, o)| }

  function Having(h: seq<Observation>, o: Outcome): set<int> { set i | 0 <= i < |h| && h[i].outcome == o }

  /** First and last time, function codes, each outcome on its own, and the last outcome. */
  ghost predicate TotalsOf(h: seq<Observation>, t: Tally)
    requires h != []
  {
    && t.firstAt == h[0].at && t.lastAt == h[|h| - 1].at && t.lastEpoch == h[|h| - 1].epoch
    && t.functionCodes == (set i | 0 <= i < |h| :: h[i].operation.functionCode)
    && t.processed == Outcomes(h, Processed) && t.rejected == Outcomes(h, Rejected)
    && t.unknown == Outcomes(h, Unknown) && t.lastOutcome == h[|h| - 1].outcome
  }

  lemma HavingSnoc(h: seq<Observation>, x: Observation, o: Outcome)
    ensures Having(h + [x], o) == Having(h, o) + if x.outcome == o then {|h|} else {}
  {
    forall i | 0 <= i <= |h|
      ensures i in Having(h + [x], o) <==> i in Having(h, o) || (i == |h| && x.outcome == o)
    {
      assert (h + [x])[i] == if i < |h| then h[i] else x;
    }
  }

  lemma OutcomesSnoc(h: seq<Observation>, x: Observation, o: Outcome)
    ensures Outcomes(h + [x], o) == Outcomes(h, o) + if x.outcome == o then 1 else 0
  {
    var more := if x.outcome == o then {|h|} else {};
    HavingSnoc(h, x, o);
    assert Having(h, o) !! more;
    assert |Having(h, o) + more| == |Having(h, o)| + |more|;
  }

  lemma CodesSnoc(h: seq<Observation>, x: Observation)
    ensures (set i | 0 <= i < |h + [x]| :: (h + [x])[i].operation.functionCode)
            == (set i | 0 <= i < |h| :: h[i].operation.functionCode) + {x.operation.functionCode}
  {
    var after := set i | 0 <= i < |h + [x]| :: (h + [x])[i].operation.functionCode;
    assert (h + [x])[|h|] == x && x.operation.functionCode in after;
    forall i | 0 <= i < |h| ensures h[i].operation.functionCode in after {
      assert (h + [x])[i] == h[i];
    }
  }

  /** For every history. */
  lemma {:induction false} TallyHoldsTotals(c: Config, h: seq<Observation>)
    requires h != []
    ensures TotalsOf(h, TallyOf(c, h))
  {
    hide Flag, Seen, CountWrite, Overflows, Outcomes;
    var n := |h| - 1;
    var x := h[n];
    assert h == h[..n] + [x];
    OutcomesSnoc(h[..n], x, Processed);
    OutcomesSnoc(h[..n], x, Rejected);
    OutcomesSnoc(h[..n], x, Unknown);
    CodesSnoc(h[..n], x);
    if n > 0 {
      TallyHoldsTotals(c, h[..n]);
    } else {
      NoOutcomes(Processed);
      NoOutcomes(Rejected);
      NoOutcomes(Unknown);
      assert h[..0] == [];
    }
  }

  lemma NoOutcomes(o: Outcome)
    ensures Outcomes([], o) == 0
  {
    assert Having([], o) == {};
  }

  /** What is printed is a true account of some observations. */
  ghost predicate Accounts(c: Config, h: seq<Observation>, t: Totals) {
    && h != [] && t.requestCount == |h| && t.firstAt == h[0].at && t.lastAt == h[|h| - 1].at
    && t.functionCodes == (set i | 0 <= i < |h| :: h[i].operation.functionCode)
    && t.processed == Outcomes(h, Processed) && t.rejected == Outcomes(h, Rejected)
    && t.unknown == Outcomes(h, Unknown) && t.lastOutcome == h[|h| - 1].outcome
    && Matches(c, h, t.writes) && t.requestCount == SumCounts(Tabled(c, h), t.writes) + t.dropped
    && AllShowFirst(h, t.writes)
  }

  lemma PrintedAccounts(c: Config, h: seq<Observation>)
    requires h != []
    ensures Accounts(c, h, Printed(TallyOf(c, h)))
  {
    hide TallyOf, Matches, SumCounts, Tabled, ShowsFirst, Outcomes;
    TallyHoldsTotals(c, h);
    TableIsBoundedHistogram(c, h);
    BucketsShowTheFirst(c, h);
  }

  lemma {:induction false} TallyBasics(c: Config, h: seq<Observation>)
    requires h != []
    ensures TallyOf(c, h).requestCount == |h|
    ensures TallyOf(c, h).lastEpoch == h[|h| - 1].epoch
  {
    hide Flag, Seen, CountWrite, Overflows;
    if |h| > 1 {
      TallyBasics(c, h[..|h| - 1]);
    }
  }
}
