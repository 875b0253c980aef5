/** Guarantees over whole runs of the aggregator: completeness, conservation, alarms, sessions. */
module EpisodeGuarantees {
  import opened Wrappers
  import opened EpisodeTally
  import opened Aggregator
  import opened EpisodeLoss

  /** For every run ended by a global flush: nothing is open, every episode's revisions are numbered 1..n
      without gaps, count strictly more each time and report true prefixes of its history, and they end by
      counting all of it exactly unless a raising call closed the episode with something to report. */
  lemma FlushAllReportsEverything(c: Config, ops: seq<Op>, order: seq<Key>)
    requires ValidRun(c, ops + [Flushing(Everything, order)])
    ensures var t := Run(c, ops + [Flushing(Everything, order)]);
            && t.agg.open == map[] && t.hist == Run(c, ops).hist
            && forall n :: n in t.hist ==>
                 && Faithful(c, n, t.hist[n], Revisions(t.events, n))
                 && (Complete(t.hist[n], Revisions(t.events, n)) <==> !Lost(c, ops, n))
  {
    hide Faithful, Complete, TallyOf, FlushKeys, Revisions, Enumerates, Lost;
    var all := ops + [Flushing(Everything, order)];
    assert all[..|all| - 1] == ops && all[|all| - 1] == Flushing(Everything, order);
    RunKeepsInv(c, all);
    EverythingCloses(c, Run(c, ops).agg.open, order);
    forall n | n in Run(c, all).hist
      ensures Complete(Run(c, all).hist[n], Revisions(Run(c, all).events, n)) <==> !Lost(c, ops, n)
    {
      assert HistoryOk(c, Run(c, all), n);
      FlushLosesNothing(c, ops, order, n);
      RunSettles(c, all, n);
    }
    forall n | n in Run(c, all).hist ensures Faithful(c, n, Run(c, all).hist[n], Revisions(Run(c, all).events, n)) {
      assert HistoryOk(c, Run(c, all), n);
    }
  }

  lemma FlushLosesNothing(c: Config, ops: seq<Op>, order: seq<Key>, n: nat)
    ensures Lost(c, ops + [Flushing(Everything, order)], n) <==> Lost(c, ops, n)
  {
    hide Lost, Run;
    var all := ops + [Flushing(Everything, order)];
    assert all[..|all| - 1] == ops;
    LostSnoc(c, all, n);
  }

  lemma EverythingCloses(c: Config, open: Episodes, order: seq<Key>)
    requires Enumerates(order, open.Keys)
    ensures FlushKeys(c, Everything, open, order).0 == map[]
  {
    FlushLeaves(c, Everything, open, order);
    assert FlushKeys(c, Everything, open, order).0.Keys == {};
  }

  // ----- losing events -----

  /** Every episode of a run is reported completely exactly when no observe call rendered closing episodes and
      then failed to allocate a number. */
  lemma LossIsExactlyTheFailedAllocation(c: Config, ops: seq<Op>, order: seq<Key>)
    requires ValidRun(c, ops + [Flushing(Everything, order)])
    ensures var t := Run(c, ops + [Flushing(Everything, order)]);
            (forall n :: n in t.hist ==> Complete(t.hist[n], Revisions(t.events, n))) <==> NoLoss(c, ops)
  {
    hide Complete, Revisions, Lost, NoLoss, Run, ValidRun;
    var t := Run(c, ops + [Flushing(Everything, order)]);
    FlushAllReportsEverything(c, ops, order);
    NoLossMeans(c, ops);
    forall n | n !in t.hist ensures !Lost(c, ops, n) {
      RunSettles(c, ops, n);
    }
  }

  /** What a first observation leaves behind: its revision goes out at once. */
  function FirstEpisode(c: Config, a: Observation): Episode {
    Rendered(Opened(c, 0, a))
  }

  lemma AfterFirst(c: Config, a: Observation)
    ensures var t := Run(c, [Observe(a, [], true)]);
            && t.agg == Agg(map[KeyOf(a) := FirstEpisode(c, a)], 1)
            && t.hist == map[0 := [a]] && |t.events| == 1 && t.events[0].totals.requestCount == 1
  {
    hide Flag, Seen, CountWrite, Overflows;
    assert [Observe(a, [], true)][..0] == [];
    assert FlushKeys(c, Expired(a.epoch), map[], []) == (map[], []);
    assert [] + [Render(Opened(c, 0, a))] == [Render(Opened(c, 0, a))];
    assert [] + [a] == [a];
  }

  lemma AfterSecond(c: Config, a: Observation, b: Observation)
    requires KeyOf(a) == KeyOf(b) && a.epoch == b.epoch && c.quietWindow > 0.0 && c.emitInterval > 0.0
    requires !IsShutdownWrite(a.operation) && !IsShutdownWrite(b.operation)
    ensures var k, t := KeyOf(a), Run(c, [Observe(a, [], true), Observe(b, [KeyOf(a)], true)]);
            && t.agg == Agg(map[k := Counted(c, FirstEpisode(c, a), b)], 1)
            && t.hist == map[0 := [a, b]] && |t.events| == 1 && t.events[0].totals.requestCount == 1
  {
    hide CountWrite, Overflows, IsShutdownWrite;
    var k, o1, o2 := KeyOf(a), Observe(a, [], true), Observe(b, [KeyOf(a)], true);
    assert [o1, o2][..1] == [o1] && [k][..0] == [];
    AfterFirst(c, a);
    var e := FirstEpisode(c, a);
    var open := map[k := e];
    assert FlushKeys(c, Expired(b.epoch), open, [k]) == (open, []) by {
      FlushKeysNext(c, Expired(b.epoch), open, [k], 0);
      var none: seq<Event> := [];
      assert [k][..1] == [k] && [k][..0] == [] && none + none == none;
      assert FlushKeys(c, Expired(b.epoch), open, []) == (open, none);
      assert FlushKey(c, Expired(b.epoch), open, k) == (open, none);
    }
    assert !Due(c, Counted(c, e, b), b);
    assert Run(c, [o1]).events + [] == Run(c, [o1]).events;
    assert [a] + [b] == [a, b];
    assert open[k := Counted(c, e, b)] == map[k := Counted(c, e, b)];
  }

  /** Two observations together and a third a quiet window later for which no number can be allocated:
      the episode is closed, yet its only returned revision counts one of its two observations. */
  lemma FailedAllocationLosesCounts(c: Config, a: Observation, b: Observation, d: Observation)
    requires KeyOf(a) == KeyOf(b) == KeyOf(d) && a.epoch == b.epoch && d.epoch - b.epoch >= c.quietWindow
    requires c.quietWindow > 0.0 && c.emitInterval > 0.0
    requires !IsShutdownWrite(a.operation) && !IsShutdownWrite(b.operation)
    ensures var k := KeyOf(a);
            var t := Run(c, [Observe(a, [], true), Observe(b, [k], true), Observe(d, [k], false)]);
            && t.agg.open == map[] && t.hist == map[0 := [a, b]]
            && |t.events| == 1 && t.events[0].totals.requestCount == 1
  {
    hide Count, IsShutdownWrite;
    var k := KeyOf(a);
    var o1, o2, o3 := Observe(a, [], true), Observe(b, [k], true), Observe(d, [k], false);
    assert [o1, o2, o3][..2] == [o1, o2];
    AfterSecond(c, a, b);
    var e := Counted(c, FirstEpisode(c, a), b);
    var open := map[k := e];
    assert e.tally.lastEpoch == b.epoch by { CountDates(c, FirstEpisode(c, a).tally, b); }
    assert FlushKeys(c, Expired(d.epoch), open, [k]).0 == map[] by {
      assert [k][..0] == [] && FlushKeys(c, Expired(d.epoch), open, []) == (open, []);
      assert Closes(c, Expired(d.epoch), k, e);
      assert open - {k} == map[];
    }
  }

  lemma CountDates(c: Config, t: Tally, o: Observation)
    ensures Count(c, t, o).lastEpoch == o.epoch
  {
  }

  // ----- conservation -----

  /** The observations an episode table accounts for, over the first `n` numbers. */
  function Total(hist: map<nat, seq<Observation>>, n: nat): nat {
    if n == 0 then 0 else Total(hist, n - 1) + if n - 1 in hist then |hist[n - 1]| else 0
  }

  /** Whether a call counted an observation: an observe call that did not raise. */
  predicate Counts(c: Config, agg: Agg, op: Op) {
    op.Observe? && Observed(c, agg, op.observation, op.order, op.granted).1.Some?
  }

  function CountedCalls(c: Config, ops: seq<Op>): nat {
    if ops == [] then 0
    else CountedCalls(c, ops[..|ops| - 1])
         + if Counts(c, Run(c, ops[..|ops| - 1]).agg, ops[|ops| - 1]) then 1 else 0
  }

  /** The highest revision of an episode among some events, whatever their order and repetitions. */
  function Highest(events: seq<Event>, n: nat): Option<Event> {
    if events == [] then None
    else
      var best := Highest(events[..|events| - 1], n);
      var e := events[|events| - 1];
      if e.sequence == n && (best.None? || e.revision > best.value.revision) then Some(e) else best
  }

  function SumHighest(events: seq<Event>, n: nat): nat {
    if n == 0 then 0
    else
      var best := Highest(events, n - 1);
      SumHighest(events, n - 1) + if best.None? then 0 else best.value.totals.requestCount
  }

  lemma {:induction false} HighestIsLast(c: Config, events: seq<Event>, n: nat, h: seq<Observation>)
    requires Faithful(c, n, h, Revisions(events, n))
    ensures var revs := Revisions(events, n);
            Highest(events, n) == if revs == [] then None else Some(revs[|revs| - 1])
  {
    hide Reports;
    if events != [] {
      var init := events[..|events| - 1];
      var r, q := Revisions(events, n), Revisions(init, n);
      assert forall i :: 0 <= i < |q| ==> q[i] == r[i];
      HighestIsLast(c, init, n, h);
    }
  }

  lemma {:induction false} TotalUnchanged(a: map<nat, seq<Observation>>, b: map<nat, seq<Observation>>, n: nat)
    requires forall i: nat :: i < n ==> (i in a <==> i in b) && (i in a ==> a[i] == b[i])
    ensures Total(a, n) == Total(b, n)
  {
    if n > 0 {
      TotalUnchanged(a, b, n - 1);
    }
  }

  lemma {:induction false} TotalNoted(hist: map<nat, seq<Observation>>, s: nat, o: Observation, n: nat)
    requires s < n
    ensures Total(Noted(hist, s, o), n) == Total(hist, n) + 1
  {
    if s == n - 1 {
      TotalUnchanged(hist, Noted(hist, s, o), n - 1);
    } else {
      TotalNoted(hist, s, o, n - 1);
    }
  }

  /** Numbers are below the counter, and only observe calls that return enter the history. */
  ghost predicate Numbered(t: Trace) {
    && (forall n :: n in t.hist ==> n < t.agg.next)
    && (forall k :: k in t.agg.open ==> t.agg.open[k].sequence < t.agg.next)
  }

  lemma NumberedStep(c: Config, t: Trace, op: Op)
    requires Numbered(t)
    ensures var t' := Apply(c, t, op);
            && Numbered(t') && t'.agg.next >= t.agg.next
            && Total(t'.hist, t'.agg.next) == Total(t.hist, t.agg.next) + if Counts(c, t.agg, op) then 1 else 0
  {
    hide FlushKeys, Count, Closes, Due;
    match op
    case Flushing(f, order) =>
      FlushLeaves(c, f, t.agg.open, order);
    case Observe(o, order, granted) =>
      FlushLeaves(c, Expired(o.epoch), t.agg.open, order);
      var t' := Apply(c, t, op);
      if t'.agg.next == t.agg.next + 1 {
        assert Total(t.hist, t.agg.next + 1) == Total(t.hist, t.agg.next);
      }
      if Counts(c, t.agg, op) {
        TotalNoted(t.hist, t'.agg.open[KeyOf(o)].sequence, o, t'.agg.next);
      }
  }

  lemma {:induction false} HistoryCountsCalls(c: Config, ops: seq<Op>)
    ensures Numbered(Run(c, ops))
    ensures Total(Run(c, ops).hist, Run(c, ops).agg.next) == CountedCalls(c, ops)
  {
    if ops != [] {
      hide Apply, Numbered, Total, Counts;
      HistoryCountsCalls(c, ops[..|ops| - 1]);
      NumberedStep(c, Run(c, ops[..|ops| - 1]), ops[|ops| - 1]);
    }
  }

  lemma LastCounts(c: Config, n: nat, h: seq<Observation>, revs: seq<Event>)
    requires Faithful(c, n, h, revs) && revs != []
    ensures revs[|revs| - 1].totals.requestCount <= |h|
  {
    hide TallyOf;
    assert Reports(c, n, h, revs[|revs| - 1]);
  }

  lemma OneSum(c: Config, t: Trace, n: nat)
    requires Inv(c, t)
    ensures var best := Highest(t.events, n);
            var count := if best.None? then 0 else best.value.totals.requestCount;
            if n in t.hist then
              count <= |t.hist[n]| && (count == |t.hist[n]| <==> Complete(t.hist[n], Revisions(t.events, n)))
            else count == 0
  {
    hide Revisions, Highest, TallyOf, OpenOk, Faithful;
    if n in t.hist {
      assert HistoryOk(c, t, n);
      HighestIsLast(c, t.events, n, t.hist[n]);
      if Revisions(t.events, n) != [] {
        LastCounts(c, n, t.hist[n], Revisions(t.events, n));
      }
    } else {
      NoRevisions(t.events, n);
      NothingIsFaithful(c, n);
      HighestIsLast(c, t.events, n, []);
    }
  }

  /** The highest revisions never count more than there was, and all of it exactly when every episode is complete. */
  lemma {:induction false} SumsWithin(c: Config, t: Trace, n: nat)
    requires Inv(c, t)
    ensures SumHighest(t.events, n) <= Total(t.hist, n)
    ensures SumHighest(t.events, n) == Total(t.hist, n) <==>
            forall i: nat :: i < n && i in t.hist ==> Complete(t.hist[i], Revisions(t.events, i))
  {
    hide Inv, Revisions, Highest, Complete;
    if n > 0 {
      SumsWithin(c, t, n - 1);
      OneSum(c, t, n - 1);
    }
  }

  lemma NothingIsFaithful(c: Config, n: nat)
    ensures Faithful(c, n, [], [])
  {
  }

  /** Conservation, for every run ended by a global flush: the highest revisions never count more than the
      observations made, and count every one of them exactly when no call lost events. */
  lemma HighestRevisionsCountEveryObservation(c: Config, ops: seq<Op>, order: seq<Key>)
    requires ValidRun(c, ops + [Flushing(Everything, order)])
    ensures var t := Run(c, ops + [Flushing(Everything, order)]);
            && SumHighest(t.events, t.agg.next) <= CountedCalls(c, ops)
            && (SumHighest(t.events, t.agg.next) == CountedCalls(c, ops) <==> NoLoss(c, ops))
  {
    hide Faithful, Complete, Revisions, Apply, LosesEvents, Enumerates, Counts, OpenOk, ValidRun;
    var all := ops + [Flushing(Everything, order)];
    assert all[..|all| - 1] == ops && all[|all| - 1] == Flushing(Everything, order);
    var t := Run(c, all);
    RunKeepsInv(c, all);
    HistoryCountsCalls(c, all);
    LossIsExactlyTheFailedAllocation(c, ops, order);
    SumsWithin(c, t, t.agg.next);
    assert CountedCalls(c, all) == CountedCalls(c, ops) by {
      FlushDoesNotCount(c, Run(c, ops).agg, Everything, order);
    }
    hide Run, NoLoss, SumHighest, Total, CountedCalls;
    forall i | i in t.hist ensures i < t.agg.next {
      assert HistoryOk(c, t, i);
    }
  }

  lemma FlushDoesNotCount(c: Config, agg: Agg, f: Flush, order: seq<Key>)
    ensures !Counts(c, agg, Flushing(f, order))
  {
  }

  // ----- alarms -----

  /** The observation `h` ends with completes a shutdown sequence. */
  ghost predicate Completes(c: Config, h: seq<Observation>) {
    h != [] && ShutdownSequence(c, h) && !ShutdownSequence(c, h[..|h| - 1])
  }

  /** The last event is the critical revision of episode `n` over its first `count` observations. */
  ghost predicate EndsCritical(events: seq<Event>, n: nat, count: nat) {
    && events != []
    && events[|events| - 1].sequence == n
    && events[|events| - 1].detection.severity == "critical"
    && events[|events| - 1].totals.requestCount == count
  }

  lemma AbsorbedIntoOpen(c: Config, u: Trace, o: Observation)
    requires Inv(c, u) && KeyOf(o) in u.agg.open
    ensures var u' := Absorbed(c, u, o);
            var n := u'.agg.open[KeyOf(o)].sequence;
            n in u'.hist && (Completes(c, u'.hist[n]) ==> EndsCritical(u'.events, n, |u'.hist[n]|))
  {
    hide Revisions, TallyOf, Faithful, Complete, Count, Due, ShutdownSequence;
    var k := KeyOf(o);
    assert OpenOk(c, u, k);
    var h := u.hist[u.agg.open[k].sequence];
    ShutdownFlagIsHistoryPredicate(c, h);
    ShutdownFlagIsHistoryPredicate(c, h + [o]);
    TallySnoc(c, h, o);
    TallyBasics(c, h + [o]);
    assert (h + [o])[..|h|] == h;
  }

  lemma AbsorbedIntoNew(c: Config, u: Trace, o: Observation)
    requires Numbered(u) && KeyOf(o) !in u.agg.open
    ensures var u' := Absorbed(c, u, o);
            var n := u'.agg.open[KeyOf(o)].sequence;
            n in u'.hist && (Completes(c, u'.hist[n]) ==> EndsCritical(u'.events, n, |u'.hist[n]|))
  {
    hide Count, Due, ShutdownSequence;
    var n := u.agg.next;
    ShutdownFlagIsHistoryPredicate(c, [o]);
    TallyBasics(c, [o]);
    OneTally(c, o);
    assert [] + [o] == [o];
    assert Noted(u.hist, n, o)[n] == [o];
  }

  lemma AbsorbedIsReported(c: Config, t: Trace, o: Observation, order: seq<Key>, granted: bool)
    requires Inv(c, t) && Numbered(t) && Counts(c, t.agg, Observe(o, order, granted))
    ensures var t' := Apply(c, t, Observe(o, order, granted));
            && KeyOf(o) in t'.agg.open
            && var n := t'.agg.open[KeyOf(o)].sequence;
               n in t'.hist && (Completes(c, t'.hist[n]) ==> EndsCritical(t'.events, n, |t'.hist[n]|))
  {
    hide Absorbed, FlushKeys, Inv, Completes, EndsCritical;
    var u := Flushed(c, t, Expired(o.epoch), order);
    FlushKeepsInv(c, t, Expired(o.epoch), order);
    NumberedStep(c, t, Flushing(Expired(o.epoch), order));
    CountsMeans(c, t, o, order, granted);
    ApplyObserve(c, t, o, order, granted);
    if KeyOf(o) in u.agg.open {
      AbsorbedIntoOpen(c, u, o);
    } else {
      AbsorbedIntoNew(c, u, o);
    }
  }

  /** After every run, whatever failed in it: the observation that completes a shutdown sequence is reported as
      critical by the last event of the same call, over exactly the observations of its episode. */
  lemma RisingEdgeIsReported(c: Config, ops: seq<Op>, o: Observation, order: seq<Key>, granted: bool)
    requires Counts(c, Run(c, ops).agg, Observe(o, order, granted))
    ensures var t := Run(c, ops + [Observe(o, order, granted)]);
            && KeyOf(o) in t.agg.open
            && var n := t.agg.open[KeyOf(o)].sequence;
               n in t.hist && (Completes(c, t.hist[n]) ==> EndsCritical(t.events, n, |t.hist[n]|))
  {
    hide Apply, Inv, Numbered, Counts, Completes, EndsCritical;
    var longer := ops + [Observe(o, order, granted)];
    assert longer[..|ops|] == ops;
    RunKeepsInv(c, ops);
    HistoryCountsCalls(c, ops);
    AbsorbedIsReported(c, Run(c, ops), o, order, granted);
  }

  lemma CountsMeans(c: Config, t: Trace, o: Observation, order: seq<Key>, granted: bool)
    ensures Counts(c, t.agg, Observe(o, order, granted)) <==>
            granted || KeyOf(o) in Flushed(c, t, Expired(o.epoch), order).agg.open
  {
    hide FlushKeys, Count, Due;
  }

  lemma OneTally(c: Config, o: Observation)
    ensures TallyOf(c, [o]) == Count(c, Blank(o), o)
  {
    hide Count;
  }

  // ----- when a revision goes out -----

  /** At least the emit interval lies between the last reported observation and the last one. */
  ghost predicate IntervalPassed(c: Config, h: seq<Observation>, revs: seq<Event>)
    requires revs != []
  {
    var n := revs[|revs| - 1].totals.requestCount;
    0 < n <= |h| && h[|h| - 1].epoch - h[n - 1].epoch >= c.emitInterval
  }

  /** What the call adds for the episode that takes its observation: one revision over all of its history, as the
      last event of all, when it has none yet, or the interval has passed, or a shutdown sequence is completed;
      otherwise none. */
  ghost predicate EmitsWhenDue(c: Config, before: seq<Event>, after: seq<Event>, n: nat, h: seq<Observation>) {
    var revs := Revisions(before, n);
    if revs == [] || IntervalPassed(c, h, revs) || Completes(c, h) then
      && after != [] && after[|after| - 1].sequence == n && after[|after| - 1].totals.requestCount == |h|
      && Revisions(after, n) == revs + [after[|after| - 1]]
    else Revisions(after, n) == revs
  }

  lemma OpenEmitsWhenDue(c: Config, u: Trace, o: Observation)
    requires Inv(c, u) && KeyOf(o) in u.agg.open
    ensures var u' := Absorbed(c, u, o);
            var n := u'.agg.open[KeyOf(o)].sequence;
            && n == u.agg.open[KeyOf(o)].sequence && n in u'.hist && u'.hist[n] != []
            && u'.hist[n][|u'.hist[n]| - 1] == o
            && EmitsWhenDue(c, u.events, u'.events, n, u'.hist[n])
  {
    hide Revisions, TallyOf, Complete, Count, ShutdownSequence, Reports;
    var k := KeyOf(o);
    assert OpenOk(c, u, k);
    var e, n := u.agg.open[k], u.agg.open[k].sequence;
    var h, revs := u.hist[n], Revisions(u.events, n);
    assert HistoryOk(c, u, n);
    ShutdownFlagIsHistoryPredicate(c, h);
    ShutdownFlagIsHistoryPredicate(c, h + [o]);
    TallySnoc(c, h, o);
    TallyBasics(c, h + [o]);
    assert (h + [o])[..|h|] == h;
    LastEmitIsTimed(c, n, h, o, revs);
    RevisionsOne(u.events, Render(Counted(c, e, o)), n);
  }

  lemma LastEmitIsTimed(c: Config, n: nat, h: seq<Observation>, o: Observation, revs: seq<Event>)
    requires Faithful(c, n, h, revs)
    ensures LastEmit(h, revs).None? <==> revs == []
    ensures revs != [] ==>
              (o.epoch - LastEmit(h, revs).value >= c.emitInterval <==> IntervalPassed(c, h + [o], revs))
  {
    hide TallyOf;
    if revs != [] {
      assert Reports(c, n, h, revs[|revs| - 1]);
    }
  }

  lemma NewEmits(c: Config, u: Trace, o: Observation)
    requires Inv(c, u) && Numbered(u) && KeyOf(o) !in u.agg.open
    ensures var u' := Absorbed(c, u, o);
            var n := u'.agg.open[KeyOf(o)].sequence;
            && n == u.agg.next && n in u'.hist && u'.hist[n] == [o]
            && EmitsWhenDue(c, u.events, u'.events, n, u'.hist[n])
  {
    hide Revisions, Count, ShutdownSequence;
    var n := u.agg.next;
    TallyBasics(c, [o]);
    OneTally(c, o);
    assert [] + [o] == [o];
    NoRevisions(u.events, n);
    RevisionsOne(u.events, Render(Opened(c, n, o)), n);
  }

  lemma NewNumberHasNoRevisions(c: Config, t: Trace)
    requires Inv(c, t) && Numbered(t)
    ensures Revisions(t.events, t.agg.next) == []
  {
    hide HistoryOk, OpenOk;
    NoRevisions(t.events, t.agg.next);
  }

  /** Over every run, for every observation that is counted, in terms of the history alone. */
  lemma RevisionGoesOutExactlyWhenDue(c: Config, ops: seq<Op>, o: Observation, order: seq<Key>, granted: bool)
    requires Counts(c, Run(c, ops).agg, Observe(o, order, granted))
    ensures var t, t' := Run(c, ops), Run(c, ops + [Observe(o, order, granted)]);
            && KeyOf(o) in t'.agg.open
            && var n := t'.agg.open[KeyOf(o)].sequence;
               && n in t'.hist && t'.hist[n] != [] && t'.hist[n][|t'.hist[n]| - 1] == o
               && EmitsWhenDue(c, t.events, t'.events, n, t'.hist[n])
  {
    hide Apply, Inv, Numbered, Counts, EmitsWhenDue, Absorbed, FlushKeys, Revisions;
    var longer := ops + [Observe(o, order, granted)];
    assert longer[..|ops|] == ops;
    RunKeepsInv(c, ops);
    HistoryCountsCalls(c, ops);
    var t := Run(c, ops);
    var u := Flushed(c, t, Expired(o.epoch), order);
    FlushKeepsInv(c, t, Expired(o.epoch), order);
    NumberedStep(c, t, Flushing(Expired(o.epoch), order));
    assert Apply(c, t, Flushing(Expired(o.epoch), order)) == u by { FlushingIsFlushed(c, t, Expired(o.epoch), order); }
    CountsMeans(c, t, o, order, granted);
    ApplyObserve(c, t, o, order, granted);
    AbsorbedIsReported(c, t, o, order, granted);
    if KeyOf(o) in u.agg.open {
      FlushSparesTheOpen(c, t, Expired(o.epoch), order, KeyOf(o));
      OpenEmitsWhenDue(c, u, o);
      SameBefore(c, t.events, u.events, Absorbed(c, u, o).events, u.agg.open[KeyOf(o)].sequence,
                 Absorbed(c, u, o).hist[u.agg.open[KeyOf(o)].sequence]);
    } else {
      NewNumberHasNoRevisions(c, t);
      NewNumberHasNoRevisions(c, u);
      NewEmits(c, u, o);
      SameBefore(c, t.events, u.events, Absorbed(c, u, o).events, u.agg.next, [o]);
    }
  }

  lemma FlushingIsFlushed(c: Config, t: Trace, f: Flush, order: seq<Key>)
    ensures Apply(c, t, Flushing(f, order)) == Flushed(c, t, f, order)
  {
  }

  lemma SameBefore(c: Config, a: seq<Event>, b: seq<Event>, after: seq<Event>, n: nat, h: seq<Observation>)
    requires Revisions(a, n) == Revisions(b, n) && EmitsWhenDue(c, b, after, n, h)
    ensures EmitsWhenDue(c, a, after, n, h)
  {
    hide Revisions, IntervalPassed, Completes;
  }

  // ----- every revision is true -----

  lemma {:induction false} InItsRevisions(events: seq<Event>, i: nat)
    requires i < |events|
    ensures events[i] in Revisions(events, events[i].sequence)
  {
    var n := |events| - 1;
    if i < n {
      InItsRevisions(events[..n], i);
    }
  }

  /** Over every run, whatever failed in it: each revision that was ever returned is a true account of the first
      observations of its episode, names their endpoints, claims of the endpoint what the last of them shows, and
      is critical exactly when they end in a shutdown sequence. */
  lemma EveryRevisionIsTrue(c: Config, ops: seq<Op>, i: nat)
    requires i < |Run(c, ops).events|
    ensures var t := Run(c, ops);
            var e := t.events[i];
            && e.sequence in t.hist && 0 < e.totals.requestCount <= |t.hist[e.sequence]|
            && var h := t.hist[e.sequence][..e.totals.requestCount];
               && Accounts(c, h, e.totals)
               && e.source == h[0].source && e.destination == h[0].destination
               && IsTruth(e.truth, h[|h| - 1].outcome) && IsDetection(e.detection, ShutdownSequence(c, h))
  {
    hide TallyOf, Accounts, IsTruth, IsDetection, ShutdownSequence, Revisions, OpenOk;
    RunKeepsInv(c, ops);
    var t := Run(c, ops);
    hide Run;
    var e := t.events[i];
    assert HistoryOk(c, t, e.sequence);
    InItsRevisions(t.events, i);
    var all := t.hist[e.sequence];
    var j :| 0 <= j < |Revisions(t.events, e.sequence)| && Revisions(t.events, e.sequence)[j] == e;
    assert Reports(c, e.sequence, all, e);
    var h := all[..e.totals.requestCount];
    PrintedAccounts(c, h);
    ShutdownFlagIsHistoryPredicate(c, h);
  }
}
