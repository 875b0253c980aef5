/** The episode aggregator: open episodes, their revisions, and what flushing them keeps. */
module Aggregator {
  import opened Wrappers
  import opened EpisodeTally
  import StateStore

  datatype Key = Key(sourceIp: string, sourcePort: Option<int>, destinationIp: string, destinationPort: int, unit: int)

  /** Observations share an episode when they agree in source address and port, and in destination address, port
      and unit. */
  lemma KeysMean(a: Observation, b: Observation)
    ensures KeyOf(a) == KeyOf(b) <==>
            && a.source.ip == b.source.ip && a.source.port == b.source.port && a.destination.ip == b.destination.ip
            && a.destination.port == b.destination.port && a.destination.unit == b.destination.unit
  {
  }

  function KeyOf(o: Observation): Key {
    Key(o.source.ip, o.source.port, o.destination.ip, o.destination.port, o.destination.unit)
  }

  /** An episode; `sequence` identifies it within one boot of one sensor. */
  datatype Episode = Episode(
    sequence: nat, source: Source, destination: Destination, tally: Tally,
    revision: nat, lastEmit: Option<real>, dirty: bool)

  datatype Detection = Detection(ruleId: string, classification: string, severity: string, priority: string)

  datatype Truth = EndpointProcessed | EndpointRejected | RequestObserved

  /** One emitted revision of an episode, with what it prints. */
  datatype Event = Event(
    sequence: nat, revision: nat, source: Source, destination: Destination, totals: Totals,
    detection: Detection, truth: Truth)

  const GENERIC := Detection("DTLAB-MODBUS-WRITE-OBSERVED", "modbus_write", "high", "p2")
  const SHUTDOWN := Detection("DTLAB-MODBUS-SHUTDOWN-SEQUENCE", "process_shutdown_sequence", "critical", "p1")

  function TruthOf(outcome: Outcome): Truth {
    match outcome
    case Processed => EndpointProcessed
    case Rejected => EndpointRejected
    case Unknown => RequestObserved
  }

  function Render(e: Episode): Event {
    Event(e.sequence, e.revision + 1, e.source, e.destination, Printed(e.tally),
          if e.tally.shutdown then SHUTDOWN else GENERIC, TruthOf(e.tally.lastOutcome))
  }

  function Rendered(e: Episode): Episode {
    e.(revision := e.revision + 1, lastEmit := Some(e.tally.lastEpoch), dirty := false)
  }

  function Opened(c: Config, sequence: nat, o: Observation): Episode {
    Episode(sequence, o.source, o.destination, Count(c, Blank(o), o), 0, None, true)
  }

  function Counted(c: Config, e: Episode, o: Observation): Episode {
    e.(tally := Count(c, e.tally, o), dirty := true)
  }

  /** The three ways of closing episodes. */
  datatype Flush = Expired(now: real) | Peer(ip: string, port: Option<int>) | Everything

  predicate Closes(c: Config, f: Flush, k: Key, e: Episode) {
    match f
    case Expired(now) => now - e.tally.lastEpoch >= c.quietWindow
    case Peer(ip, port) => k.sourceIp == ip && k.sourcePort == port
    case Everything => true
  }

  type Episodes = map<Key, Episode>

  function FlushKey(c: Config, f: Flush, open: Episodes, k: Key): (Episodes, seq<Event>) {
    if k in open && Closes(c, f, k, open[k]) then
      (open - {k}, if open[k].dirty then [Render(open[k])] else [])
    else (open, [])
  }

  /** A flush visits the open episodes in the iteration order of the dictionary. */
  function FlushKeys(c: Config, f: Flush, open: Episodes, order: seq<Key>): (Episodes, seq<Event>) {
    if order == [] then (open, [])
    else
      var (rest, events) := FlushKeys(c, f, open, order[..|order| - 1]);
      var (rest', more) := FlushKey(c, f, rest, order[|order| - 1]);
      (rest', events + more)
  }

  lemma FlushKeysNext(c: Config, f: Flush, open: Episodes, order: seq<Key>, i: nat)
    requires i < |order|
    ensures var (rest, events) := FlushKeys(c, f, open, order[..i]);
            var (rest', more) := FlushKey(c, f, rest, order[i]);
            FlushKeys(c, f, open, order[..i + 1]) == (rest', events + more)
  {
    hide FlushKey;
    assert order[..i + 1][..i] == order[..i];
  }

  lemma CloseOne(open: Episodes, closed: set<Key>, k: Key, e: Episode)
    ensures open[k := e] - (closed + {k}) == open - closed - {k} == open - (closed + {k})
  {
  }

  datatype Agg = Agg(open: Episodes, next: nat)

  /** Whether the revision after this observation is due. */
  predicate Due(c: Config, e: Episode, o: Observation) {
    e.lastEmit.None? || o.epoch - e.lastEmit.value >= c.emitInterval
  }

  /** One observation; when no sequence number can be granted the call raises and returns nothing. */
  function Observed(c: Config, a: Agg, o: Observation, order: seq<Key>, granted: bool): (Agg, Option<seq<Event>>) {
    var (open, events) := FlushKeys(c, Expired(o.epoch), a.open, order);
    var k := KeyOf(o);
    if k !in open && !granted then (Agg(open, a.next + 1), None)
    else
      var e := if k in open then Counted(c, open[k], o) else Opened(c, a.next, o);
      var was := k in open && open[k].tally.shutdown;
      var next := if k in open then a.next else a.next + 1;
      if Due(c, e, o) || (e.tally.shutdown && !was) then
        (Agg(open[k := Rendered(e)], next), Some(events + [Render(e)]))
      else (Agg(open[k := e], next), Some(events))
  }

  /** `order` lists each key exactly once. */
  ghost predicate Enumerates(order: seq<Key>, keys: set<Key>) {
    && (forall i, j :: 0 <= i < j < |order| ==> order[i] != order[j])
    && (forall k :: k in order <==> k in keys)
  }

  lemma {:induction false} FlushLeaves(c: Config, f: Flush, open: Episodes, order: seq<Key>)
    ensures var rest := FlushKeys(c, f, open, order).0;
            && rest.Keys <= open.Keys
            && (forall k :: k in rest ==> rest[k] == open[k])
            && (forall k :: k in open && k !in rest <==> k in open && k in order && Closes(c, f, k, open[k]))
  {
    hide Closes;
    if order != [] {
      FlushLeaves(c, f, open, order[..|order| - 1]);
    }
  }

  /** The aggregator object. */
  class EpisodeAggregator {
    const config: Config
    const state: StateStore.Store
    var episodes: map<Key, Episode>

    constructor (config: Config, state: StateStore.Store)
      ensures this.config == config && this.state == state && episodes == map[]
    {
      this.config := config;
      this.state := state;
      this.episodes := map[];
    }

    ghost function State(): Agg
      reads this, state
    {
      Agg(episodes, state.next)
    }

    /** Some iteration order of the dictionary. */
    method Items() returns (order: seq<Key>)
      ensures Enumerates(order, episodes.Keys)
    {
      order := [];
      var left := episodes.Keys;
      while left != {}
        invariant left <= episodes.Keys
        invariant forall k :: k in order <==> k in episodes.Keys - left
        invariant forall i, j :: 0 <= i < j < |order| ==> order[i] != order[j]
      {
        var k :| k in left;
        assert k !in order;
        assert forall i :: 0 <= i < |order| ==> order[i] in order;
        order, left := order + [k], left - {k};
      }
    }

    /** Renders the dirty episodes that close, then forgets all that close. */
    method FlushWhere(f: Flush) returns (emitted: seq<Event>, ghost order: seq<Key>)
      modifies this
      ensures Enumerates(order, old(episodes.Keys))
      ensures (episodes, emitted) == FlushKeys(config, f, old(episodes), order)
    {
      hide Closes, Render, Rendered;
      var items := Items();
      order := items;
      emitted := [];
      var closed: set<Key> := {};
      ghost var rest := episodes;
      assert items[..0] == [];
      forall j | 0 <= j < |items| ensures items[j] in rest {
        assert items[j] in items;
      }
      for i := 0 to |items|
        invariant (rest, emitted) == FlushKeys(config, f, old(episodes), items[..i])
        invariant episodes - closed == rest
        invariant forall j :: i <= j < |items| ==> items[j] in rest
      {
        hide FlushKeys;
        FlushKeysNext(config, f, old(episodes), items, i);
        var k := items[i];
        assert k !in closed && episodes[k] == rest[k] && emitted + [] == emitted;
        if Closes(config, f, k, episodes[k]) {
          CloseOne(episodes, closed, k, Rendered(episodes[k]));
          if episodes[k].dirty {
            emitted := emitted + [Render(episodes[k])];
            episodes := episodes[k := Rendered(episodes[k])];
          }
          closed, rest := closed + {k}, rest - {k};
        }
      }
      assert items[..|items|] == items;
      episodes := episodes - closed;
    }

    /** Consumes one observation; `fate` is what the state file did if a number had to be granted. */
    method Observe(o: Observation, fate: StateStore.SaveFate)
      returns (r: Option<seq<Event>>, ghost order: seq<Key>)
      modifies this, state
      ensures Enumerates(order, old(episodes.Keys))
      ensures (State(), r) == Observed(config, old(State()), o, order, fate.Saved?)
    {
      hide FlushKeys, Count, Enumerates;
      var emitted;
      emitted, order := FlushWhere(Expired(o.epoch));
      var k := KeyOf(o);
      ghost var open := episodes;
      var escalated;
      if k !in episodes {
        var sequence := state.Allocate(fate);
        if sequence.None? {
          return None, order;
        }
        episodes := episodes[k := Opened(config, sequence.value, o)];
        escalated := episodes[k].tally.shutdown;
      } else {
        var was := episodes[k].tally.shutdown;
        episodes := episodes[k := Counted(config, episodes[k], o)];
        escalated := episodes[k].tally.shutdown && !was;
      }
      if Due(config, episodes[k], o) || escalated {
        emitted := emitted + [Render(episodes[k])];
        ghost var e := episodes[k];
        episodes := episodes[k := Rendered(episodes[k])];
        assert episodes == open[k := Rendered(e)];
      }
      r := Some(emitted);
    }

    method FlushExpired(now: real) returns (emitted: seq<Event>, ghost order: seq<Key>)
      modifies this
      ensures Enumerates(order, old(episodes.Keys))
      ensures (episodes, emitted) == FlushKeys(config, Expired(now), old(episodes), order)
    {
      emitted, order := FlushWhere(Expired(now));
    }

    method FlushSource(ip: string, port: Option<int>) returns (emitted: seq<Event>, ghost order: seq<Key>)
      modifies this
      ensures Enumerates(order, old(episodes.Keys))
      ensures (episodes, emitted) == FlushKeys(config, Peer(ip, port), old(episodes), order)
    {
      emitted, order := FlushWhere(Peer(ip, port));
    }

    method FlushAll() returns (emitted: seq<Event>, ghost order: seq<Key>)
      modifies this
      ensures Enumerates(order, old(episodes.Keys))
      ensures (episodes, emitted) == FlushKeys(config, Everything, old(episodes), order)
      ensures episodes == map[]
    {
      emitted, order := FlushWhere(Everything);
      FlushLeaves(config, Everything, old(episodes), order);
      assert episodes.Keys == {};
    }
  }

  // ----- what a run of calls has produced -----

  datatype Op =
    | Observe(observation: Observation, order: seq<Key>, granted: bool)
    | Flushing(flush: Flush, order: seq<Key>)

  /** The aggregator together with the observations of each episode and every event returned. */
  datatype Trace = Trace(agg: Agg, hist: map<nat, seq<Observation>>, events: seq<Event>)

  function Flushed(c: Config, t: Trace, f: Flush, order: seq<Key>): Trace {
    var (open, events) := FlushKeys(c, f, t.agg.open, order);
    t.(agg := t.agg.(open := open), events := t.events + events)
  }

  /** The history after an observation that was counted. */
  function Noted(hist: map<nat, seq<Observation>>, sequence: nat, o: Observation): map<nat, seq<Observation>> {
    hist[sequence := (if sequence in hist then hist[sequence] else []) + [o]]
  }

  function Apply(c: Config, t: Trace, op: Op): Trace {
    match op
    case Flushing(f, order) => Flushed(c, t, f, order)
    case Observe(o, order, granted) =>
      var (agg, events) := Observed(c, t.agg, o, order, granted);
      if events.None? then t.(agg := agg)
      else Trace(agg, Noted(t.hist, agg.open[KeyOf(o)].sequence, o), t.events + events.value)
  }

  const START := Trace(Agg(map[], 0), map[], [])

  function Run(c: Config, ops: seq<Op>): Trace {
    if ops == [] then START else Apply(c, Run(c, ops[..|ops| - 1]), ops[|ops| - 1])
  }

  /** Every operation visits the episodes open at that moment. */
  ghost predicate ValidRun(c: Config, ops: seq<Op>) {
    ops != [] ==>
      && ValidRun(c, ops[..|ops| - 1])
      && Enumerates(ops[|ops| - 1].order, Run(c, ops[..|ops| - 1]).agg.open.Keys)
  }

  function Revisions(events: seq<Event>, n: nat): seq<Event> {
    if events == [] then []
    else Revisions(events[..|events| - 1], n)
         + if events[|events| - 1].sequence == n then [events[|events| - 1]] else []
  }

  lemma {:induction false} RevisionsConcat(a: seq<Event>, b: seq<Event>, n: nat)
    ensures Revisions(a + b, n) == Revisions(a, n) + Revisions(b, n)
  {
    if b == [] {
      assert a + b == a;
    } else {
      RevisionsConcat(a, b[..|b| - 1], n);
      assert (a + b)[..|a + b| - 1] == a + b[..|b| - 1];
    }
  }

  lemma RevisionsOne(a: seq<Event>, e: Event, n: nat)
    ensures Revisions(a + [e], n) == if e.sequence == n then Revisions(a, n) + [e] else Revisions(a, n)
  {
    assert (a + [e])[..|a|] == a;
  }

  /** A revision reports a non-empty prefix of its episode's observations. */
  ghost predicate Reports(c: Config, n: nat, h: seq<Observation>, e: Event) {
    && e.sequence == n
    && 1 <= e.totals.requestCount <= |h|
    && e.totals == Printed(TallyOf(c, h[..e.totals.requestCount]))
    && IsDetection(e.detection, TallyOf(c, h[..e.totals.requestCount]).shutdown)
    && e.source == h[0].source && e.destination == h[0].destination
    && IsTruth(e.truth, h[e.totals.requestCount - 1].outcome)
  }

  /** The rule that is reported: the critical one for a shutdown sequence, the general one otherwise. */
  predicate IsDetection(d: Detection, shutdown: bool) {
    && d.ruleId == (if shutdown then "DTLAB-MODBUS-SHUTDOWN-SEQUENCE" else "DTLAB-MODBUS-WRITE-OBSERVED")
    && d.classification == (if shutdown then "process_shutdown_sequence" else "modbus_write")
    && d.severity == (if shutdown then "critical" else "high")
    && d.priority == if shutdown then "p1" else "p2"
  }

  /** What may be claimed about the endpoint, by the last outcome. */
  predicate IsTruth(t: Truth, last: Outcome) {
    && (t == EndpointProcessed <==> last == Processed)
    && (t == EndpointRejected <==> last == Rejected)
    && (t == RequestObserved <==> last == Unknown)
  }

  /** The revisions of one episode: numbered from one without gaps, each counting strictly more. */
  ghost predicate Faithful(c: Config, n: nat, h: seq<Observation>, revs: seq<Event>) {
    && (forall i :: 0 <= i < |revs| ==> revs[i].revision == i + 1 && Reports(c, n, h, revs[i]))
    && (forall i, j :: 0 <= i < j < |revs| ==> revs[i].totals.requestCount < revs[j].totals.requestCount)
  }

  /** The last revision counts every observation of the episode. */
  ghost predicate Complete(h: seq<Observation>, revs: seq<Event>) {
    revs != [] && revs[|revs| - 1].totals.requestCount == |h|
  }

  ghost predicate EpisodeOk(c: Config, k: Key, e: Episode, h: seq<Observation>, revs: seq<Event>) {
    && h != [] && (forall i :: 0 <= i < |h| ==> KeyOf(h[i]) == k)
    && e.tally == TallyOf(c, h)
    && e.source == h[0].source && e.destination == h[0].destination
    && |revs| == e.revision
    && (!e.dirty <==> Complete(h, revs))
    && e.lastEmit == LastEmit(h, revs)
  }

  /** The time of the observation that the last revision ends with. */
  ghost function LastEmit(h: seq<Observation>, revs: seq<Event>): Option<real> {
    if revs == [] then None
    else
      var n := revs[|revs| - 1].totals.requestCount;
      if 0 < n <= |h| then Some(h[n - 1].epoch) else None
  }

  ghost predicate IsOpen(t: Trace, n: nat)
    requires n in t.hist && t.hist[n] != []
  {
    var k := KeyOf(t.hist[n][0]);
    k in t.agg.open && t.agg.open[k].sequence == n
  }

  ghost predicate OpenOk(c: Config, t: Trace, k: Key)
    requires k in t.agg.open
  {
    var e := t.agg.open[k];
    e.sequence in t.hist && EpisodeOk(c, k, e, t.hist[e.sequence], Revisions(t.events, e.sequence))
  }

  ghost predicate HistoryOk(c: Config, t: Trace, n: nat)
    requires n in t.hist
  {
    && n < t.agg.next && t.hist[n] != []
    && Faithful(c, n, t.hist[n], Revisions(t.events, n))
  }

  ghost predicate Inv(c: Config, t: Trace) {
    && (forall k :: k in t.agg.open ==> OpenOk(c, t, k))
    && (forall n :: n in t.hist ==> HistoryOk(c, t, n))
    && (forall i :: 0 <= i < |t.events| ==> t.events[i].sequence in t.hist)
  }

  // ----- the four elementary changes keep the invariant -----

  function EmitAt(t: Trace, k: Key): Trace
    requires k in t.agg.open
  {
    t.(agg := t.agg.(open := t.agg.open[k := Rendered(t.agg.open[k])]),
       events := t.events + [Render(t.agg.open[k])])
  }

  function CloseAt(t: Trace, k: Key): Trace {
    t.(agg := t.agg.(open := t.agg.open - {k}))
  }

  function CountAt(c: Config, t: Trace, o: Observation): Trace
    requires KeyOf(o) in t.agg.open
  {
    var k := KeyOf(o);
    t.(agg := t.agg.(open := t.agg.open[k := Counted(c, t.agg.open[k], o)]),
       hist := Noted(t.hist, t.agg.open[k].sequence, o))
  }

  function OpenAt(c: Config, t: Trace, o: Observation): Trace {
    Trace(Agg(t.agg.open[KeyOf(o) := Opened(c, t.agg.next, o)], t.agg.next + 1),
          Noted(t.hist, t.agg.next, o), t.events)
  }

  /** Distinct open episodes have distinct numbers. */
  lemma OwnKey(c: Config, t: Trace, k: Key, l: Key)
    requires Inv(c, t) && k in t.agg.open && l in t.agg.open
    requires t.agg.open[k].sequence == t.agg.open[l].sequence
    ensures k == l
  {
    hide Revisions, TallyOf, Faithful, Complete;
    assert OpenOk(c, t, k) && OpenOk(c, t, l);
    var h := t.hist[t.agg.open[k].sequence];
    assert KeyOf(h[0]) == k && KeyOf(h[0]) == l;
  }

  lemma LastOutcomeIs(c: Config, h: seq<Observation>)
    requires h != []
    ensures TallyOf(c, h).lastOutcome == h[|h| - 1].outcome
  {
    TallyHoldsTotals(c, h);
    hide TallyOf;
  }

  lemma RenderIsReport(c: Config, k: Key, e: Episode, h: seq<Observation>, revs: seq<Event>)
    requires EpisodeOk(c, k, e, h, revs)
    ensures Reports(c, e.sequence, h, Render(e)) && Render(e).totals.requestCount == |h|
    ensures Render(e).revision == |revs| + 1
    ensures EpisodeOk(c, k, Rendered(e), h, revs + [Render(e)])
  {
    hide TallyOf;
    TallyBasics(c, h);
    LastOutcomeIs(c, h);
    assert h[..|h|] == h;
  }

  lemma RenderReports(c: Config, k: Key, e: Episode, h: seq<Observation>, revs: seq<Event>)
    requires EpisodeOk(c, k, e, h, revs) && Faithful(c, e.sequence, h, revs) && e.dirty
    ensures var revs' := revs + [Render(e)];
            && Faithful(c, e.sequence, h, revs')
            && EpisodeOk(c, k, Rendered(e), h, revs')
            && Complete(h, revs')
  {
    hide TallyOf, Render, Faithful, Reports, LastEmit;
    RenderIsReport(c, k, e, h, revs);
    if revs != [] {
      LastRevisionIsShort(c, e.sequence, h, revs);
    }
    hide EpisodeOk;
    FaithfulSnoc(c, e.sequence, h, revs, Render(e));
  }

  lemma FaithfulSnoc(c: Config, n: nat, h: seq<Observation>, revs: seq<Event>, e: Event)
    requires Faithful(c, n, h, revs) && Reports(c, n, h, e) && e.revision == |revs| + 1
    requires revs != [] ==> revs[|revs| - 1].totals.requestCount < e.totals.requestCount
    ensures Faithful(c, n, h, revs + [e])
  {
    hide Reports;
  }

  lemma LastRevisionIsShort(c: Config, n: nat, h: seq<Observation>, revs: seq<Event>)
    requires Faithful(c, n, h, revs) && revs != [] && !Complete(h, revs)
    ensures revs[|revs| - 1].totals.requestCount < |h|
  {
    hide TallyOf;
    assert Reports(c, n, h, revs[|revs| - 1]);
  }

  lemma EmitKeepsInv(c: Config, t: Trace, k: Key)
    requires Inv(c, t) && k in t.agg.open && t.agg.open[k].dirty
    ensures Inv(c, EmitAt(t, k)) && !EmitAt(t, k).agg.open[k].dirty
    ensures EmitAt(t, k).agg.open[k].sequence == t.agg.open[k].sequence
  {
    hide Revisions, TallyOf, Faithful, Complete, EpisodeOk, Reports;
    var e, t' := t.agg.open[k], EmitAt(t, k);
    var s := e.sequence;
    assert OpenOk(c, t, k) && HistoryOk(c, t, s);
    RenderReports(c, k, e, t.hist[s], Revisions(t.events, s));
    RevisionsOne(t.events, Render(e), s);
    forall l | l in t'.agg.open ensures OpenOk(c, t', l) {
      if l != k {
        assert OpenOk(c, t, l);
        if t.agg.open[l].sequence == s { OwnKey(c, t, k, l); }
        RevisionsOne(t.events, Render(e), t.agg.open[l].sequence);
      }
    }
    forall n | n in t'.hist ensures HistoryOk(c, t', n) {
      assert HistoryOk(c, t, n);
      RevisionsOne(t.events, Render(e), n);
    }
  }

  lemma CloseKeepsInv(c: Config, t: Trace, k: Key)
    requires Inv(c, t)
    ensures Inv(c, CloseAt(t, k))
  {
    hide Revisions, TallyOf, Faithful, Complete;
    var t' := CloseAt(t, k);
    forall l | l in t'.agg.open ensures OpenOk(c, t', l) {
      assert OpenOk(c, t, l);
    }
    forall n | n in t'.hist ensures HistoryOk(c, t', n) {
      assert HistoryOk(c, t, n);
    }
  }

  lemma TallySnoc(c: Config, h: seq<Observation>, o: Observation)
    requires h != []
    ensures TallyOf(c, h + [o]) == Count(c, TallyOf(c, h), o)
  {
    assert (h + [o])[..|h|] == h;
  }

  lemma ReportsLonger(c: Config, n: nat, h: seq<Observation>, o: Observation, revs: seq<Event>)
    requires Faithful(c, n, h, revs)
    ensures Faithful(c, n, h + [o], revs)
    ensures !Complete(h + [o], revs) && LastEmit(h + [o], revs) == LastEmit(h, revs)
  {
    hide TallyOf;
    forall i | 0 <= i < |revs| ensures revs[i].revision == i + 1 && Reports(c, n, h + [o], revs[i]) {
      var m := revs[i].totals.requestCount;
      assert Reports(c, n, h, revs[i]);
      assert (h + [o])[..m] == h[..m];
    }
  }

  lemma CountKeepsInv(c: Config, t: Trace, o: Observation)
    requires Inv(c, t) && KeyOf(o) in t.agg.open
    ensures Inv(c, CountAt(c, t, o)) && CountAt(c, t, o).agg.open[KeyOf(o)].dirty
  {
    hide Revisions, TallyOf, Count, Faithful, Complete;
    var k := KeyOf(o);
    var e, s := t.agg.open[k], t.agg.open[k].sequence;
    var t' := CountAt(c, t, o);
    assert OpenOk(c, t, k) && HistoryOk(c, t, s);
    ReportsLonger(c, s, t.hist[s], o, Revisions(t.events, s));
    TallySnoc(c, t.hist[s], o);
    forall l | l in t'.agg.open ensures OpenOk(c, t', l) {
      if l != k {
        assert OpenOk(c, t, l);
        if t.agg.open[l].sequence == s { OwnKey(c, t, k, l); }
      }
    }
    forall n | n in t'.hist ensures HistoryOk(c, t', n) {
      assert HistoryOk(c, t, n);
    }
  }

  lemma {:induction false} NoRevisions(events: seq<Event>, n: nat)
    requires forall i :: 0 <= i < |events| ==> events[i].sequence != n
    ensures Revisions(events, n) == []
  {
    if events != [] {
      NoRevisions(events[..|events| - 1], n);
    }
  }

  lemma OpenedOk(c: Config, n: nat, o: Observation)
    ensures EpisodeOk(c, KeyOf(o), Opened(c, n, o), [o], [])
    ensures Faithful(c, n, [o], [])
  {
    hide Count;
    assert [o][..0] == [];
  }

  lemma OpenKeepsInv(c: Config, t: Trace, o: Observation)
    requires Inv(c, t) && KeyOf(o) !in t.agg.open
    ensures Inv(c, OpenAt(c, t, o)) && OpenAt(c, t, o).agg.open[KeyOf(o)].dirty
  {
    hide Revisions, Count, TallyOf, Faithful, Complete, EpisodeOk;
    var k, s := KeyOf(o), t.agg.next;
    var t' := OpenAt(c, t, o);
    forall n | n in t.hist ensures n < s {
      assert HistoryOk(c, t, n);
    }
    NoRevisions(t.events, s);
    OpenedOk(c, s, o);
    assert t'.hist[s] == [o];
    forall l | l in t'.agg.open ensures OpenOk(c, t', l) {
      if l != k {
        assert OpenOk(c, t, l);
      }
    }
    forall n | n in t'.hist ensures HistoryOk(c, t', n) {
      if n != s {
        assert HistoryOk(c, t, n);
      }
    }
  }

  /** What a flush renders are episodes that it closes. */
  lemma {:induction false} FlushRendersTheClosed(c: Config, f: Flush, open: Episodes, order: seq<Key>, e: Event)
    returns (k: Key)
    requires e in FlushKeys(c, f, open, order).1
    ensures k in open && k !in FlushKeys(c, f, open, order).0 && e == Render(open[k])
  {
    hide Closes, Render;
    var n := |order| - 1;
    var (rest, events) := FlushKeys(c, f, open, order[..n]);
    FlushLeaves(c, f, open, order[..n]);
    if e in events {
      k := FlushRendersTheClosed(c, f, open, order[..n], e);
    } else {
      k := order[n];
    }
  }

  /** A flush adds no revision of an episode that it leaves open. */
  lemma FlushSparesTheOpen(c: Config, t: Trace, f: Flush, order: seq<Key>, k: Key)
    requires Inv(c, t) && k in FlushKeys(c, f, t.agg.open, order).0
    ensures k in t.agg.open && FlushKeys(c, f, t.agg.open, order).0[k] == t.agg.open[k]
    ensures Revisions(Flushed(c, t, f, order).events, t.agg.open[k].sequence)
            == Revisions(t.events, t.agg.open[k].sequence)
  {
    hide FlushKeys, Inv, Revisions;
    var (rest, events) := FlushKeys(c, f, t.agg.open, order);
    FlushLeaves(c, f, t.agg.open, order);
    var n := t.agg.open[k].sequence;
    forall i | 0 <= i < |events| ensures events[i].sequence != n {
      var l := FlushRendersTheClosed(c, f, t.agg.open, order, events[i]);
      if t.agg.open[l].sequence == n {
        OwnKey(c, t, k, l);
      }
    }
    NoRevisions(events, n);
    RevisionsConcat(t.events, events, n);
    assert Revisions(t.events, n) + [] == Revisions(t.events, n);
  }

  // ----- every operation keeps it -----

  lemma FlushKeyKeepsInv(c: Config, t: Trace, f: Flush, k: Key)
    requires Inv(c, t)
    ensures var (open, events) := FlushKey(c, f, t.agg.open, k);
            Inv(c, t.(agg := t.agg.(open := open), events := t.events + events))
  {
    hide Inv, Closes;
    if k in t.agg.open && Closes(c, f, k, t.agg.open[k]) {
      if t.agg.open[k].dirty {
        EmitKeepsInv(c, t, k);
        CloseKeepsInv(c, EmitAt(t, k), k);
        assert EmitAt(t, k).agg.open - {k} == t.agg.open - {k};
      } else {
        CloseKeepsInv(c, t, k);
        assert t.events + [] == t.events;
      }
    } else {
      assert t.events + [] == t.events;
    }
  }

  lemma {:induction false} FlushKeepsInv(c: Config, t: Trace, f: Flush, order: seq<Key>)
    requires Inv(c, t)
    ensures Inv(c, Flushed(c, t, f, order))
  {
    hide Inv, FlushKey;
    if order == [] {
      assert t.events + [] == t.events;
    } else {
      var n := |order| - 1;
      var before := Flushed(c, t, f, order[..n]);
      FlushKeepsInv(c, t, f, order[..n]);
      FlushKeyKeepsInv(c, before, f, order[n]);
      var (_, events) := FlushKeys(c, f, t.agg.open, order[..n]);
      var (_, more) := FlushKey(c, f, before.agg.open, order[n]);
      assert (t.events + events) + more == t.events + (events + more);
    }
  }

  /** The observation part of `Observed`, after its flush. */
  function Absorbed(c: Config, t: Trace, o: Observation): Trace {
    var k := KeyOf(o);
    var t1 := if k in t.agg.open then CountAt(c, t, o) else OpenAt(c, t, o);
    var was := k in t.agg.open && t.agg.open[k].tally.shutdown;
    var e := t1.agg.open[k];
    if Due(c, e, o) || (e.tally.shutdown && !was) then EmitAt(t1, k) else t1
  }

  lemma AbsorbKeepsInv(c: Config, t: Trace, o: Observation)
    requires Inv(c, t)
    ensures Inv(c, Absorbed(c, t, o))
  {
    hide Inv, Due;
    var k := KeyOf(o);
    if k in t.agg.open {
      CountKeepsInv(c, t, o);
      if Absorbed(c, t, o) != CountAt(c, t, o) {
        EmitKeepsInv(c, CountAt(c, t, o), k);
      }
    } else {
      OpenKeepsInv(c, t, o);
      if Absorbed(c, t, o) != OpenAt(c, t, o) {
        EmitKeepsInv(c, OpenAt(c, t, o), k);
      }
    }
  }

  /** Observing is flushing what expired, then absorbing the observation. */
  lemma ApplyObserve(c: Config, t: Trace, o: Observation, order: seq<Key>, granted: bool)
    requires granted || KeyOf(o) in Flushed(c, t, Expired(o.epoch), order).agg.open
    ensures Apply(c, t, Observe(o, order, granted)) == Absorbed(c, Flushed(c, t, Expired(o.epoch), order), o)
  {
    hide FlushKeys, Count, Due, Closes;
    var flushed := Flushed(c, t, Expired(o.epoch), order);
    var (open, events) := FlushKeys(c, Expired(o.epoch), t.agg.open, order);
    var k := KeyOf(o);
    var e := if k in open then Counted(c, open[k], o) else Opened(c, t.agg.next, o);
    assert t.events + (events + [Render(e)]) == (t.events + events) + [Render(e)];
    assert open[k := e][k := Rendered(e)] == open[k := Rendered(e)];
  }

  /** Closing alone, as in a call that raises after its flush. */
  lemma {:induction false} ClosingKeepsInv(c: Config, t: Trace, f: Flush, order: seq<Key>)
    requires Inv(c, t)
    ensures Inv(c, t.(agg := t.agg.(open := FlushKeys(c, f, t.agg.open, order).0)))
  {
    hide Inv, Closes;
    if order != [] {
      var n := |order| - 1;
      var before := t.(agg := t.agg.(open := FlushKeys(c, f, t.agg.open, order[..n]).0));
      ClosingKeepsInv(c, t, f, order[..n]);
      CloseKeepsInv(c, before, order[n]);
    }
  }

  /** Every call keeps the invariant, also one that raises after rendering closing episodes. */
  lemma ApplyKeepsInv(c: Config, t: Trace, op: Op)
    requires Inv(c, t)
    ensures Inv(c, Apply(c, t, op))
  {
    hide Inv, FlushKeys;
    match op
    case Flushing(f, order) =>
      FlushKeepsInv(c, t, f, order);
    case Observe(o, order, granted) =>
      var flushed := Flushed(c, t, Expired(o.epoch), order);
      if granted || KeyOf(o) in flushed.agg.open {
        FlushKeepsInv(c, t, Expired(o.epoch), order);
        AbsorbKeepsInv(c, flushed, o);
        ApplyObserve(c, t, o, order, granted);
      } else {
        ClosingKeepsInv(c, t, Expired(o.epoch), order);
        SkippedNumberKeepsInv(c, t.(agg := t.agg.(open := flushed.agg.open)));
      }
  }

  lemma SkippedNumberKeepsInv(c: Config, t: Trace)
    requires Inv(c, t)
    ensures Inv(c, t.(agg := t.agg.(next := t.agg.next + 1)))
  {
    hide Revisions, TallyOf, Faithful, Complete, EpisodeOk;
    var t' := t.(agg := t.agg.(next := t.agg.next + 1));
    forall l | l in t'.agg.open ensures OpenOk(c, t', l) {
      assert OpenOk(c, t, l);
    }
    forall n | n in t'.hist ensures HistoryOk(c, t', n) {
      assert HistoryOk(c, t, n);
    }
  }

  /** For every run, whatever fails in it. */
  lemma {:induction false} RunKeepsInv(c: Config, ops: seq<Op>)
    ensures Inv(c, Run(c, ops))
  {
    if ops == [] {
      assert Inv(c, START);
    } else {
      hide Inv, Apply;
      RunKeepsInv(c, ops[..|ops| - 1]);
      ApplyKeepsInv(c, Run(c, ops[..|ops| - 1]), ops[|ops| - 1]);
    }
  }
}
