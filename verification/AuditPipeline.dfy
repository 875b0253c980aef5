/** The hook runtime that joins aggregator and spool, and what holds from an observation to its export. */
module AuditPipeline {
  import opened Wrappers
  import opened EpisodeTally
  import opened Aggregator
  import opened EpisodeLoss
  import opened EpisodeGuarantees
  import StateStore
  import Spool = AuditSpool
  import Sender = AuditSender

  type Crypto = Spool.Crypto<Event>
  type Records = seq<Spool.Envelope<Event>>

  datatype Setup = Setup(config: Config, crypto: Crypto, keyId: string, key: string, maxBytes: int)

  function NextRecord(s: Setup, records: Records, e: Event): Spool.Envelope<Event> {
    Spool.BuildEnvelope(s.crypto, e, s.keyId, s.key, Spool.HeadHash(records, Spool.ZERO_HASH))
  }

  predicate Fits(s: Setup, records: Records, e: Event) {
    |Spool.Text(s.crypto, records)| + |Spool.Line(s.crypto, NextRecord(s, records, e))| <= s.maxBytes
  }

  /** Appends events one by one; the first refusal raises, and the events after it are dropped. */
  function AppendAll(s: Setup, records: Records, events: seq<Event>): (Records, bool)
    decreases |events|
  {
    if events == [] then (records, true)
    else if !Fits(s, records, events[0]) then (records, false)
    else AppendAll(s, records + [NextRecord(s, records, events[0])], events[1..])
  }

  class AuditRuntime {
    const setup: Setup
    const aggregator: EpisodeAggregator
    const spool: Spool.SignedSpool<Event>
    var failureCode: Option<string>
    var lastEvent: Option<nat>

    constructor (setup: Setup, aggregator: EpisodeAggregator, spool: Spool.SignedSpool<Event>)
      ensures this.setup == setup && this.aggregator == aggregator && this.spool == spool
      ensures failureCode == None && lastEvent == None
    {
      this.setup, this.aggregator, this.spool := setup, aggregator, spool;
      this.failureCode, this.lastEvent := None, None;
    }

    ghost predicate Valid()
      reads this, spool
    {
      && spool.Valid()
      && spool.crypto == setup.crypto && spool.keyId == setup.keyId
      && spool.key == setup.key && spool.maxBytes == setup.maxBytes
      && aggregator.config == setup.config
    }

    method AppendEvents(events: seq<Event>) returns (ok: bool)
      requires Valid()
      modifies this, spool
      ensures Valid()
      ensures (spool.records, ok) == AppendAll(setup, old(spool.records), events)
      ensures ok && events != [] ==> failureCode == None && lastEvent == Some(events[|events| - 1].sequence)
      ensures !ok || events == [] ==> failureCode == old(failureCode) && lastEvent == old(lastEvent)
    {
      assert events[0..] == events;
      for i := 0 to |events|
        invariant Valid() && unchanged(this)
        invariant AppendAll(setup, old(spool.records), events) == AppendAll(setup, spool.records, events[i..])
      {
        hide Spool.BuildEnvelope, Spool.Text, Spool.Line;
        ghost var before := spool.records;
        assert events[i..][1..] == events[i + 1..];
        var appended := spool.Append(events[i]);
        if appended.Err? {
          return false;
        }
      }
      if events != [] {
        failureCode := None;
        lastEvent := Some(events[|events| - 1].sequence);
      }
      ok := true;
    }

    /** One decoded write; a failed allocation raises before anything is appended. */
    method Observe(o: Observation, fate: StateStore.SaveFate)
      returns (emitted: Option<nat>, ghost order: seq<Key>)
      requires Valid()
      modifies this, spool, aggregator, aggregator.state
      ensures Valid() && Enumerates(order, old(aggregator.episodes.Keys))
      ensures var (agg, events) := Observed(setup.config, old(aggregator.State()), o, order, fate.Saved?);
              && aggregator.State() == agg
              && if events.None? then emitted == None && spool.records == old(spool.records)
                 else (spool.records, emitted.Some?) == AppendAll(setup, old(spool.records), events.value)
                      && (emitted.Some? ==> emitted.value == |events.value|)
    {
      hide Observed, AppendAll, Enumerates;
      var events;
      events, order := aggregator.Observe(o, fate);
      if events.None? {
        return None, order;
      }
      var ok := AppendEvents(events.value);
      emitted := if ok then Some(|events.value|) else None;
    }

    method Flush(f: Flush) returns (emitted: Option<nat>, ghost order: seq<Key>)
      requires Valid()
      modifies this, spool, aggregator
      ensures Valid() && Enumerates(order, old(aggregator.episodes.Keys))
      ensures var (open, events) := FlushKeys(setup.config, f, old(aggregator.episodes), order);
              && aggregator.episodes == open
              && (spool.records, emitted.Some?) == AppendAll(setup, old(spool.records), events)
              && (emitted.Some? ==> emitted.value == |events|)
    {
      hide FlushKeys, AppendAll, Enumerates;
      var events;
      events, order := aggregator.FlushWhere(f);
      var ok := AppendEvents(events);
      emitted := if ok then Some(|events|) else None;
    }
  }

  // ----- whole runs: hook calls, a reader that sees part of a line, sends and restarts -----

  datatype Step =
    | Hook(op: Op)
    | Export(action: Sender.Action<Event>)

  datatype System = System(trace: Trace, pipe: Sender.Pipe<Event>)

  /** What a hook call handed to the spool. */
  function Emitted(s: Setup, t: Trace, op: Op): seq<Event> {
    match op
    case Flushing(f, order) => FlushKeys(s.config, f, t.agg.open, order).1
    case Observe(o, order, granted) =>
      var events := Observed(s.config, t.agg, o, order, granted).1;
      if events.Some? then events.value else []
  }

  function Do(s: Setup, y: System, step: Step): System {
    match step
    case Hook(op) =>
      System(Apply(s.config, y.trace, op),
             y.pipe.(records := AppendAll(s, y.pipe.records, Emitted(s, y.trace, op)).0, partial := ""))
    case Export(action) => y.(pipe := Sender.Act(s.crypto, s.key, y.pipe, action))
  }

  const EMPTY: Sender.Pipe<Event> := Sender.Pipe([], "", Sender.Sender(Sender.ORIGIN, None, []))

  function Run(s: Setup, steps: seq<Step>): System {
    if steps == [] then System(START, EMPTY)
    else Do(s, Run(s, steps[..|steps| - 1]), steps[|steps| - 1])
  }

  /** The reader only reads, and only a complete line ends with a newline. */
  predicate IsRead(step: Step) {
    step.Hook? || (!step.action.Append? && (step.action.Tear? ==> Spool.NEWLINE !in step.action.partial))
  }

  predicate Reads(steps: seq<Step>) {
    forall i :: 0 <= i < |steps| ==> IsRead(steps[i])
  }

  /** The hook calls of a run, in order. */
  function Ops(steps: seq<Step>): seq<Op> {
    if steps == [] then []
    else
      var last := steps[|steps| - 1];
      Ops(steps[..|steps| - 1]) + if last.Hook? then [last.op] else []
  }

  predicate Refused(s: Setup, y: System, step: Step) {
    step.Hook? && !AppendAll(s, y.pipe.records, Emitted(s, y.trace, step.op)).1
  }

  ghost predicate NothingRefused(s: Setup, steps: seq<Step>) {
    forall i :: 0 <= i < |steps| ==> !Refused(s, Run(s, steps[..i]), steps[i])
  }

  function Events(records: Records): seq<Event> {
    if records == [] then [] else Events(records[..|records| - 1]) + [records[|records| - 1].event]
  }

  function Delivered(log: seq<Sender.Delivery<Event>>): seq<Event> {
    if log == [] then [] else Delivered(log[..|log| - 1]) + [log[|log| - 1].event]
  }

  lemma EventsSnoc(records: Records, r: Spool.Envelope<Event>)
    ensures Events(records + [r]) == Events(records) + [r.event]
  {
    assert (records + [r])[..|records|] == records;
  }

  /** An unrefused append adds exactly the events, a refused one a proper beginning of them. */
  lemma {:induction false} AppendAllAdds(s: Setup, records: Records, events: seq<Event>)
    returns (n: nat)
    ensures n <= |events| && Events(AppendAll(s, records, events).0) == Events(records) + events[..n]
    ensures AppendAll(s, records, events).1 <==> n == |events|
    decreases |events|
  {
    hide Fits, NextRecord;
    if events == [] || !Fits(s, records, events[0]) {
      assert Events(records) + events[..0] == Events(records);
      n := 0;
    } else {
      var r := NextRecord(s, records, events[0]);
      var m := AppendAllAdds(s, records + [r], events[1..]);
      EventsSnoc(records, r);
      assert r.event == events[0] by { CarriesEvent(s, records, events[0]); }
      assert [events[0]] + events[1..][..m] == events[..m + 1];
      assert (Events(records) + [events[0]]) + events[1..][..m] == Events(records) + ([events[0]] + events[1..][..m]);
      n := m + 1;
    }
  }

  lemma CarriesEvent(s: Setup, records: Records, e: Event)
    ensures NextRecord(s, records, e).event == e
  {
  }

  lemma {:induction false} AppendAllKeepsInv(s: Setup, p: Sender.Pipe<Event>, events: seq<Event>)
    requires Spool.Readable(s.crypto, s.key) && Sender.Inv(s.crypto, s.key, p)
    ensures Sender.Inv(s.crypto, s.key, p.(records := AppendAll(s, p.records, events).0, partial := ""))
    decreases |events|
  {
    hide Sender.Stands, Fits, Spool.Chained;
    if events == [] || !Fits(s, p.records, events[0]) {
      assert Sender.Inv(s.crypto, s.key, p.(partial := ""));
    } else {
      var a := Sender.Append(events[0], s.keyId);
      Sender.ActKeepsInv(s.crypto, s.key, p, a);
      AppendAllKeepsInv(s, Sender.Act(s.crypto, s.key, p, a), events[1..]);
    }
  }

  lemma TraceFollows(s: Setup, t: Trace, op: Op)
    ensures Apply(s.config, t, op).events == t.events + Emitted(s, t, op)
  {
    hide FlushKeys, Count, Due;
    assert t.events + [] == t.events;
  }

  lemma {:induction false} TraceIsTheHooks(s: Setup, steps: seq<Step>)
    ensures Run(s, steps).trace == Aggregator.Run(s.config, Ops(steps))
  {
    hide Apply, Sender.Act;
    if steps != [] {
      TraceIsTheHooks(s, steps[..|steps| - 1]);
      var last, ops := steps[|steps| - 1], Ops(steps[..|steps| - 1]);
      if last.Hook? {
        assert (ops + [last.op])[..|ops|] == ops;
      } else {
        assert ops + [] == ops;
      }
    }
  }

  /** The sender's place is kept, and an unrefused run spools exactly the aggregator's events in order. */
  lemma {:induction false} RunKeepsPlace(s: Setup, steps: seq<Step>)
    requires Spool.Readable(s.crypto, s.key) && Reads(steps)
    ensures Sender.Inv(s.crypto, s.key, Run(s, steps).pipe)
    ensures NothingRefused(s, steps) ==> Events(Run(s, steps).pipe.records) == Run(s, steps).trace.events
  {
    hide Apply, Sender.Inv, Emitted, AppendAll, Spool.Readable;
    if steps == [] {
      assert Sender.Inv(s.crypto, s.key, EMPTY) by { EmptyPlace(s); }
    } else {
      var n := |steps| - 1;
      RunKeepsPlace(s, steps[..n]);
      var y := Run(s, steps[..n]);
      assert IsRead(steps[n]);
      if NothingRefused(s, steps) {
        forall i | 0 <= i < n ensures !Refused(s, Run(s, steps[..n][..i]), steps[..n][i]) {
          assert steps[..n][..i] == steps[..i];
        }
      }
      match steps[n]
      case Hook(op) =>
        var events := Emitted(s, y.trace, op);
        AppendAllKeepsInv(s, y.pipe, events);
        var m := AppendAllAdds(s, y.pipe.records, events);
        TraceFollows(s, y.trace, op);
        assert events[..|events|] == events;
      case Export(action) =>
        Sender.ActKeepsInv(s.crypto, s.key, y.pipe, action);
    }
  }

  lemma EmptyPlace(s: Setup)
    ensures Sender.Inv(s.crypto, s.key, EMPTY)
  {
    Sender.EmptyStands(s.crypto);
  }

  // ----- the highest revisions survive redelivery -----

  lemma HighestAgain(events: seq<Event>, e: Event, n: nat)
    requires events != [] && events[|events| - 1] == e
    ensures Highest(events + [e], n) == Highest(events, n)
  {
    assert (events + [e])[..|events|] == events;
  }

  lemma HighestNext(a: seq<Event>, b: seq<Event>, e: Event, n: nat)
    requires Highest(a, n) == Highest(b, n)
    ensures Highest(a + [e], n) == Highest(b + [e], n)
  {
    assert (a + [e])[..|a|] == a && (b + [e])[..|b|] == b;
  }

  lemma {:induction false} CollapseKeepsHighest(log: seq<Sender.Delivery<Event>>, n: nat)
    ensures Highest(Delivered(Sender.Collapse(log)), n) == Highest(Delivered(log), n)
    ensures log != [] ==> Delivered(log) != [] && Delivered(log)[|Delivered(log)| - 1] == log[|log| - 1].event
  {
    hide Highest;
    if |log| <= 1 {
    } else {
      var m := |log| - 1;
      CollapseKeepsHighest(log[..m], n);
      var e := log[m].event;
      if log[m] == log[m - 1] {
        HighestAgain(Delivered(log[..m]), e, n);
      } else {
        var c := Sender.Collapse(log[..m]);
        assert (c + [log[m]])[..|c|] == c;
        HighestNext(Delivered(c), Delivered(log[..m]), e, n);
      }
    }
  }

  lemma {:induction false} SameHighestSameSum(a: seq<Event>, b: seq<Event>, n: nat)
    requires forall i: nat :: i < n ==> Highest(a, i) == Highest(b, i)
    ensures SumHighest(a, n) == SumHighest(b, n)
  {
    hide Highest;
    if n > 0 {
      SameHighestSameSum(a, b, n - 1);
    }
  }

  lemma {:induction false} DeliveriesCarryEvents(c: Crypto, records: Records, d: nat)
    requires d <= |records|
    ensures Delivered(Sender.Deliveries(c, records, d)) == Events(records[..d])
  {
    hide Sender.At;
    if d > 0 {
      DeliveriesCarryEvents(c, records, d - 1);
      var before := Sender.Deliveries(c, records, d - 1);
      var all := Sender.Deliveries(c, records, d);
      assert all[..|all| - 1] == before;
      assert records[..d][..d - 1] == records[..d - 1];
    }
  }

  /** The exported log sums to what the delivered records sum to, whatever was delivered twice. */
  lemma ExportedSum(c: Crypto, records: Records, log: seq<Sender.Delivery<Event>>, d: nat, n: nat)
    requires d <= |records| && Sender.Collapse(log) == Sender.Deliveries(c, records, d)
    ensures SumHighest(Delivered(log), n) == SumHighest(Events(records[..d]), n)
  {
    hide Highest, Sender.Collapse, Sender.Deliveries, Delivered;
    DeliveriesCarryEvents(c, records, d);
    forall i: nat | i < n ensures Highest(Delivered(log), i) == Highest(Events(records[..d]), i) {
      CollapseKeepsHighest(log, i);
    }
    SameHighestSameSum(Delivered(log), Events(records[..d]), n);
  }

  /** The sender finds nothing left to send. */
  ghost predicate Drained(s: Setup, p: Sender.Pipe<Event>) {
    Sender.NothingToSend(s.crypto, s.key, p, 1)
  }

  /** End to end: hook calls and sends in any interleaving, with failures before and after every delivery
      and cursor save, then a final flush and sends until nothing is left. If no append was refused, the
      highest revisions among everything delivered never count more than the observations made, and count all
      of them exactly when no call lost events. */
  lemma EveryObservationIsExported(s: Setup, steps: seq<Step>, order: seq<Key>, tail: seq<Step>)
    requires Spool.Readable(s.crypto, s.key)
    requires var all := steps + [Hook(Flushing(Everything, order))] + tail;
             && Reads(all) && NothingRefused(s, all) && Drained(s, Run(s, all).pipe)
    requires forall i :: 0 <= i < |tail| ==> tail[i].Export?
    requires ValidRun(s.config, Ops(steps) + [Flushing(Everything, order)])
    ensures var y := Run(s, steps + [Hook(Flushing(Everything, order))] + tail);
            var sum := SumHighest(Delivered(y.pipe.sender.log), y.trace.agg.next);
            && sum <= CountedCalls(s.config, Ops(steps))
            && (sum == CountedCalls(s.config, Ops(steps)) <==> NoLoss(s.config, Ops(steps)))
  {
    hide Sender.Inv, Sender.Scan, Run, Aggregator.Run, NothingRefused, ValidRun, NoLoss, SumHighest, Delivered,
      Events, CountedCalls, Sender.Collapse, Sender.Deliveries, Reads;
    var flush := Hook(Flushing(Everything, order));
    var all := steps + [flush] + tail;
    RunKeepsPlace(s, all);
    TraceIsTheHooks(s, all);
    OpsOfTail(steps + [flush], tail);
    OpsSnoc(steps, flush);
    var y := Run(s, all);
    Sender.NothingPending(s.crypto, s.key, y.pipe, 1);
    ExportedSum(s.crypto, y.pipe.records, y.pipe.sender.log, |y.pipe.records|, y.trace.agg.next);
    assert y.pipe.records[..|y.pipe.records|] == y.pipe.records;
    HighestRevisionsCountEveryObservation(s.config, Ops(steps), order);
  }

  /** Nothing to send can always be reached: after any run, one send without a failure is enough. */
  lemma OneSendDrains(s: Setup, steps: seq<Step>, limit: nat)
    requires Spool.Readable(s.crypto, s.key) && Reads(steps) && limit >= |Run(s, steps).pipe.records|
    ensures var y := Run(s, steps + [Export(Sender.Send(limit, []))]);
            Drained(s, y.pipe) && y.trace == Run(s, steps).trace
  {
    hide Sender.Inv, Spool.Readable, Sender.Act, Sender.NothingToSend;
    RunKeepsPlace(s, steps);
    var send := Export(Sender.Send(limit, []));
    assert (steps + [send])[..|steps|] == steps;
    Sender.FaultlessSendDrains(s.crypto, s.key, Run(s, steps).pipe, limit, 1);
  }

  lemma OpsSnoc(steps: seq<Step>, step: Step)
    requires step.Hook?
    ensures Ops(steps + [step]) == Ops(steps) + [step.op]
  {
    assert (steps + [step])[..|steps|] == steps;
  }

  lemma {:induction false} OpsOfTail(steps: seq<Step>, tail: seq<Step>)
    requires forall i :: 0 <= i < |tail| ==> tail[i].Export?
    ensures Ops(steps + tail) == Ops(steps)
  {
    if tail == [] {
      assert steps + tail == steps;
    } else {
      OpsOfTail(steps, tail[..|tail| - 1]);
      assert (steps + tail)[..|steps + tail| - 1] == steps + tail[..|tail| - 1];
      assert Ops(steps) + [] == Ops(steps);
    }
  }

  // ----- nothing is ever overstated -----

  /** Nothing counts more than its episode's history holds. */
  ghost predicate Sound(t: Trace) {
    && (forall k :: k in t.agg.open ==> Within(t.hist, t.agg.open[k].sequence, t.agg.open[k].tally.requestCount))
    && (forall e :: e in t.events ==> Within(t.hist, e.sequence, e.totals.requestCount))
  }

  predicate Within(hist: map<nat, seq<Observation>>, n: nat, count: nat) {
    n in hist && count <= |hist[n]|
  }

  lemma SoundAfterFlush(c: Config, t: Trace, f: Flush, order: seq<Key>)
    requires Sound(t)
    ensures Sound(Flushed(c, t, f, order))
  {
    hide Closes, FlushKeys, Within;
    var t' := Flushed(c, t, f, order);
    FlushLeaves(c, f, t.agg.open, order);
    forall e | e in t'.events ensures Within(t'.hist, e.sequence, e.totals.requestCount) {
      if e !in t.events {
        var k := FlushRendersTheClosed(c, f, t.agg.open, order, e);
      }
    }
  }

  lemma WithinNoted(hist: map<nat, seq<Observation>>, s: nat, o: Observation, n: nat, count: nat)
    ensures Within(hist, n, count) ==> Within(Noted(hist, s, o), n, count)
  {
  }

  /** Counting adds one to the tally and one observation to the history. */
  lemma CountsOneMore(c: Config, e: Episode, o: Observation, hist: map<nat, seq<Observation>>, n: nat)
    ensures Within(hist, e.sequence, e.tally.requestCount) ==>
            Within(Noted(hist, e.sequence, o), e.sequence, Counted(c, e, o).tally.requestCount)
    ensures Within(Noted(hist, n, o), n, Opened(c, n, o).tally.requestCount)
    ensures Counted(c, e, o).sequence == e.sequence && Opened(c, n, o).sequence == n
  {
  }

  /** Replacing the open episode of one key, and noting the observation for it, stays sound. */
  lemma SoundAfterCounting(t: Trace, k: Key, e: Episode, o: Observation, next: nat)
    requires Sound(t) && Within(Noted(t.hist, e.sequence, o), e.sequence, e.tally.requestCount)
    ensures Sound(Trace(Agg(t.agg.open[k := e], next), Noted(t.hist, e.sequence, o), t.events))
  {
    hide Within, Noted;
    forall n, count: nat ensures Within(t.hist, n, count) ==> Within(Noted(t.hist, e.sequence, o), n, count) {
      WithinNoted(t.hist, e.sequence, o, n, count);
    }
  }

  lemma SoundEpisode(t: Trace, k: Key)
    requires Sound(t) && k in t.agg.open
    ensures Within(t.hist, t.agg.open[k].sequence, t.agg.open[k].tally.requestCount)
  {
  }

  lemma SoundAfterEmitting(t: Trace, k: Key)
    requires Sound(t) && k in t.agg.open
    ensures Sound(EmitAt(t, k))
  {
    hide Within;
  }

  lemma SoundAfterAbsorbing(c: Config, t: Trace, o: Observation)
    requires Sound(t)
    ensures Sound(Absorbed(c, t, o))
  {
    hide Due, Sound, Within, Noted, Counted, Opened, EmitAt;
    var k := KeyOf(o);
    if k in t.agg.open {
      var e := t.agg.open[k];
      SoundEpisode(t, k);
      CountsOneMore(c, e, o, t.hist, 0);
      SoundAfterCounting(t, k, Counted(c, e, o), o, t.agg.next);
      SoundAfterEmitting(CountAt(c, t, o), k);
    } else {
      CountsOneMore(c, Opened(c, 0, o), o, t.hist, t.agg.next);
      SoundAfterCounting(t, k, Opened(c, t.agg.next, o), o, t.agg.next + 1);
      SoundAfterEmitting(OpenAt(c, t, o), k);
    }
  }

  lemma SoundStep(c: Config, t: Trace, op: Op)
    requires Sound(t)
    ensures Sound(Apply(c, t, op))
  {
    hide FlushKeys, Absorbed, Within, Count, Due;
    match op
    case Flushing(f, order) => SoundAfterFlush(c, t, f, order);
    case Observe(o, order, granted) =>
      SoundAfterFlush(c, t, Expired(o.epoch), order);
      var flushed := Flushed(c, t, Expired(o.epoch), order);
      if granted || KeyOf(o) in flushed.agg.open {
        SoundAfterAbsorbing(c, flushed, o);
        ApplyObserve(c, t, o, order, granted);
      }
  }

  lemma {:induction false} SpoolHoldsOnlyEmitted(s: Setup, steps: seq<Step>)
    requires Reads(steps)
    ensures Sound(Run(s, steps).trace)
    ensures forall e :: e in Events(Run(s, steps).pipe.records) ==> e in Run(s, steps).trace.events
  {
    hide Apply, Emitted, AppendAll, Sound, Events;
    if steps == [] {
      assert Sound(START) && Events([]) == [] by { NothingYet(); }
    } else {
      var n := |steps| - 1;
      SpoolHoldsOnlyEmitted(s, steps[..n]);
      var y := Run(s, steps[..n]);
      assert IsRead(steps[n]);
      match steps[n]
      case Hook(op) =>
        var m := AppendAllAdds(s, y.pipe.records, Emitted(s, y.trace, op));
        TraceFollows(s, y.trace, op);
        SoundStep(s.config, y.trace, op);
      case Export(_) =>
    }
  }

  lemma NothingYet()
    ensures Sound(START) && Events([]) == []
  {
  }

  lemma {:induction false} EventsPrefix(records: Records, d: nat)
    requires d <= |records|
    ensures |Events(records)| == |records| && Events(records[..d]) == Events(records)[..d]
  {
    if d == |records| {
      assert records[..d] == records;
      if d > 0 {
        EventsPrefix(records[..d - 1], d - 1);
      }
    } else {
      EventsPrefix(records[..|records| - 1], d);
      assert records[..|records| - 1][..d] == records[..d];
    }
  }

  lemma {:induction false} HighestIsMember(events: seq<Event>, n: nat)
    ensures Highest(events, n).Some? ==> Highest(events, n).value in events && Highest(events, n).value.sequence == n
  {
    if events != [] {
      HighestIsMember(events[..|events| - 1], n);
    }
  }

  lemma {:induction false} SumIsBounded(hist: map<nat, seq<Observation>>, events: seq<Event>, n: nat)
    requires forall e :: e in events ==> Within(hist, e.sequence, e.totals.requestCount)
    ensures SumHighest(events, n) <= Total(hist, n)
  {
    hide Highest;
    if n > 0 {
      SumIsBounded(hist, events, n - 1);
      HighestIsMember(events, n - 1);
    }
  }

  /** Over every run, whatever is refused, lost, repeated or torn: what was exported never counts more
      observations than were made. */
  lemma {:induction false} ExportNeverOverstates(s: Setup, steps: seq<Step>)
    requires Spool.Readable(s.crypto, s.key) && Reads(steps)
    ensures var y := Run(s, steps);
            SumHighest(Delivered(y.pipe.sender.log), y.trace.agg.next) <= CountedCalls(s.config, Ops(steps))
  {
    hide Sender.Scan, Run, Aggregator.Run, SumHighest, Delivered, Events, CountedCalls, Within,
      Sender.Collapse, Sender.Deliveries, Sender.At, Reads, Spool.Chained, Spool.Readable;
    var y := Run(s, steps);
    RunKeepsPlace(s, steps);
    SpoolHoldsOnlyEmitted(s, steps);
    TraceIsTheHooks(s, steps);
    HistoryCountsCalls(s.config, Ops(steps));
    var m: nat, q: nat, d: nat :| Sender.Stands(s.crypto, y.pipe.records, y.pipe.sender, m, q, d);
    ExportedSum(s.crypto, y.pipe.records, y.pipe.sender.log, d, y.trace.agg.next);
    EventsPrefix(y.pipe.records, d);
    SumIsBounded(y.trace.hist, Events(y.pipe.records[..d]), y.trace.agg.next);
  }
}
