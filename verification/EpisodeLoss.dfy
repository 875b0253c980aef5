/** Which episodes lose counts: exactly those that a raising observe call closed with something to report. */
module EpisodeLoss {
  import opened Wrappers
  import opened EpisodeTally
  import opened Aggregator

  /** The call raises because no number could be allocated, after its flush. */
  predicate Raises(c: Config, t: Trace, op: Op) {
    && op.Observe? && !op.granted
    && KeyOf(op.observation) !in FlushKeys(c, Expired(op.observation.epoch), t.agg.open, op.order).0
  }

  /** A call loses events when it has rendered closing episodes and then raises. */
  predicate LosesEvents(c: Config, t: Trace, op: Op) {
    Raises(c, t, op) && FlushKeys(c, Expired(op.observation.epoch), t.agg.open, op.order).1 != []
  }

  ghost predicate NoLoss(c: Config, ops: seq<Op>) {
    forall i :: 0 <= i < |ops| ==> !LosesEvents(c, Run(c, ops[..i]), ops[i])
  }

  /** The raising call closed episode `n`, which had changed since its last revision. */
  ghost predicate Drops(c: Config, t: Trace, op: Op, n: nat) {
    && Raises(c, t, op)
    && var open := FlushKeys(c, Expired(op.observation.epoch), t.agg.open, op.order).0;
       exists k :: k in t.agg.open && k !in open && t.agg.open[k].sequence == n && t.agg.open[k].dirty
  }

  ghost predicate Lost(c: Config, ops: seq<Op>, n: nat) {
    exists i :: 0 <= i < |ops| && Drops(c, Run(c, ops[..i]), ops[i], n)
  }

  /** A flush renders something exactly when it closes an episode that changed. */
  lemma {:induction false} RendersTheChanged(c: Config, f: Flush, open: Episodes, order: seq<Key>)
    ensures FlushKeys(c, f, open, order).1 != [] <==>
            exists k :: k in open && open[k].dirty && k !in FlushKeys(c, f, open, order).0
  {
    hide Closes;
    if order != [] {
      var n := |order| - 1;
      RendersTheChanged(c, f, open, order[..n]);
      FlushLeaves(c, f, open, order[..n]);
    }
  }

  lemma LosesExactlyTheDropped(c: Config, t: Trace, op: Op)
    ensures LosesEvents(c, t, op) <==> exists n :: Drops(c, t, op, n)
  {
    if Raises(c, t, op) {
      var f, open := Expired(op.observation.epoch), t.agg.open;
      RendersTheChanged(c, f, open, op.order);
      hide FlushKeys;
      if LosesEvents(c, t, op) {
        var k :| k in open && open[k].dirty && k !in FlushKeys(c, f, open, op.order).0;
        assert Drops(c, t, op, open[k].sequence);
      }
    }
  }

  /** No call lost events exactly when no episode lost any. */
  lemma NoLossMeans(c: Config, ops: seq<Op>)
    ensures NoLoss(c, ops) <==> forall n :: !Lost(c, ops, n)
  {
    hide LosesEvents, Drops, Run;
    forall i | 0 <= i < |ops|
      ensures LosesEvents(c, Run(c, ops[..i]), ops[i]) <==> exists n :: Drops(c, Run(c, ops[..i]), ops[i], n)
    {
      LosesExactlyTheDropped(c, Run(c, ops[..i]), ops[i]);
    }
    if i :| 0 <= i < |ops| && LosesEvents(c, Run(c, ops[..i]), ops[i]) {
      var n :| Drops(c, Run(c, ops[..i]), ops[i], n);
      assert Lost(c, ops, n);
    }
  }

  // ----- what the elementary changes do to one episode -----

  ghost predicate Reported(t: Trace, n: nat) {
    n in t.hist && Complete(t.hist[n], Revisions(t.events, n))
  }

  ghost predicate Kept(t: Trace, n: nat) {
    n in t.hist && t.hist[n] != [] && IsOpen(t, n)
  }

  /** An episode that stays closed is not touched, and one that closes is reported completely. */
  ghost predicate Watched(t: Trace, t': Trace, n: nat) {
    && (n in t.hist ==> n in t'.hist)
    && (Kept(t', n) && n in t.hist ==> Kept(t, n))
    && (n in t.hist && !Kept(t, n) ==> t'.hist[n] == t.hist[n] && Revisions(t'.events, n) == Revisions(t.events, n))
    && (Kept(t, n) && !Kept(t', n) ==> Reported(t', n))
    && (n !in t.hist && n in t'.hist ==> Kept(t', n) || Reported(t', n))
  }

  lemma WatchedThen(a: Trace, b: Trace, d: Trace, n: nat)
    requires Watched(a, b, n) && Watched(b, d, n)
    ensures Watched(a, d, n)
  {
    hide Revisions, Complete;
  }

  lemma WatchedSame(t: Trace, n: nat)
    ensures Watched(t, t, n)
  {
  }

  lemma EmitWatched(c: Config, t: Trace, k: Key, n: nat)
    requires Inv(c, t) && k in t.agg.open
    ensures Watched(t, EmitAt(t, k), n)
  {
    hide Revisions, TallyOf, Faithful, Complete;
    assert OpenOk(c, t, k) && HistoryOk(c, t, t.agg.open[k].sequence);
    assert Kept(t, t.agg.open[k].sequence);
    RevisionsOne(t.events, Render(t.agg.open[k]), n);
  }

  lemma CloseWatched(c: Config, t: Trace, k: Key, n: nat)
    requires Inv(c, t) && k in t.agg.open && !t.agg.open[k].dirty
    ensures Watched(t, CloseAt(t, k), n)
  {
    hide Revisions, TallyOf, Faithful, Complete;
    assert OpenOk(c, t, k);
  }

  lemma CountWatched(c: Config, t: Trace, o: Observation, n: nat)
    requires Inv(c, t) && KeyOf(o) in t.agg.open
    ensures Watched(t, CountAt(c, t, o), n)
  {
    hide Revisions, TallyOf, Faithful, Complete, Count;
    assert OpenOk(c, t, KeyOf(o));
  }

  lemma OpenWatched(c: Config, t: Trace, o: Observation, n: nat)
    requires Inv(c, t) && KeyOf(o) !in t.agg.open
    ensures Watched(t, OpenAt(c, t, o), n)
  {
    hide Revisions, TallyOf, Faithful, Complete, Count;
    if n in t.hist {
      assert HistoryOk(c, t, n);
    }
    forall m | m in t.hist ensures m < t.agg.next {
      assert HistoryOk(c, t, m);
    }
    assert OpenAt(c, t, o).hist[t.agg.next] == [o];
  }

  lemma FlushKeyWatched(c: Config, t: Trace, f: Flush, k: Key, n: nat)
    requires Inv(c, t)
    ensures var (open, events) := FlushKey(c, f, t.agg.open, k);
            Watched(t, t.(agg := t.agg.(open := open), events := t.events + events), n)
  {
    hide Inv, Closes, Watched;
    if k in t.agg.open && Closes(c, f, k, t.agg.open[k]) {
      if t.agg.open[k].dirty {
        EmitWatched(c, t, k, n);
        EmitKeepsInv(c, t, k);
        CloseWatched(c, EmitAt(t, k), k, n);
        WatchedThen(t, EmitAt(t, k), CloseAt(EmitAt(t, k), k), n);
        assert EmitAt(t, k).agg.open - {k} == t.agg.open - {k};
      } else {
        CloseWatched(c, t, k, n);
        assert t.events + [] == t.events;
      }
    } else {
      WatchedSame(t, n);
      assert t.events + [] == t.events;
    }
  }

  lemma {:induction false} FlushWatched(c: Config, t: Trace, f: Flush, order: seq<Key>, n: nat)
    requires Inv(c, t)
    ensures Watched(t, Flushed(c, t, f, order), n)
  {
    hide Inv, FlushKey, Watched;
    if order == [] {
      assert t.events + [] == t.events;
      WatchedSame(t, n);
    } else {
      var m := |order| - 1;
      var before := Flushed(c, t, f, order[..m]);
      FlushWatched(c, t, f, order[..m], n);
      FlushKeepsInv(c, t, f, order[..m]);
      FlushKeyWatched(c, before, f, order[m], n);
      WatchedThen(t, before, Flushed(c, t, f, order), n) by {
        FlushedNext(c, t, f, order);
      }
    }
  }

  lemma FlushedNext(c: Config, t: Trace, f: Flush, order: seq<Key>)
    requires order != []
    ensures var before := Flushed(c, t, f, order[..|order| - 1]);
            var (open, events) := FlushKey(c, f, before.agg.open, order[|order| - 1]);
            Flushed(c, t, f, order) == before.(agg := before.agg.(open := open), events := before.events + events)
  {
    hide FlushKey;
    var n := |order| - 1;
    var (_, events) := FlushKeys(c, f, t.agg.open, order[..n]);
    var (_, more) := FlushKey(c, f, Flushed(c, t, f, order[..n]).agg.open, order[n]);
    assert (t.events + events) + more == t.events + (events + more);
  }

  lemma AbsorbWatched(c: Config, t: Trace, o: Observation, n: nat)
    requires Inv(c, t)
    ensures Watched(t, Absorbed(c, t, o), n)
  {
    hide Inv, Due, Watched;
    var k := KeyOf(o);
    var t1 := if k in t.agg.open then CountAt(c, t, o) else OpenAt(c, t, o);
    if k in t.agg.open {
      CountKeepsInv(c, t, o);
      CountWatched(c, t, o, n);
    } else {
      OpenKeepsInv(c, t, o);
      OpenWatched(c, t, o, n);
    }
    if Absorbed(c, t, o) != t1 {
      EmitWatched(c, t1, k, n);
      WatchedThen(t, t1, EmitAt(t1, k), n);
    }
  }

  // ----- what one call does to one episode -----

  /** A call leaves closed episodes alone and reports the episodes it closes completely, except those it drops. */
  ghost predicate Settles(c: Config, t: Trace, op: Op, n: nat) {
    var t' := Apply(c, t, op);
    && (n in t.hist ==> n in t'.hist)
    && (Kept(t', n) && n in t.hist ==> Kept(t, n))
    && (n in t.hist && !Kept(t, n) ==> t'.hist[n] == t.hist[n] && Revisions(t'.events, n) == Revisions(t.events, n))
    && (Kept(t, n) && !Kept(t', n) ==> (Reported(t', n) <==> !Drops(c, t, op, n)))
    && (n !in t.hist && n in t'.hist ==> Kept(t', n) || Reported(t', n))
    && (Drops(c, t, op, n) ==> Kept(t, n) && !Kept(t', n))
  }

  lemma RaisingSettles(c: Config, t: Trace, op: Op, n: nat)
    requires Inv(c, t) && Raises(c, t, op)
    ensures Settles(c, t, op, n)
  {
    hide FlushKeys, Revisions, TallyOf, Faithful, Complete;
    FlushLeaves(c, Expired(op.observation.epoch), t.agg.open, op.order);
    forall k | k in t.agg.open ensures OpenOk(c, t, k) && Kept(t, t.agg.open[k].sequence) {
      assert OpenOk(c, t, k);
    }
    if n in t.hist {
      assert HistoryOk(c, t, n);
    }
  }

  lemma ReturningSettles(c: Config, t: Trace, op: Op, n: nat)
    requires Inv(c, t) && !Raises(c, t, op)
    ensures Settles(c, t, op, n)
  {
    hide Inv, FlushKeys, Absorbed;
    match op
    case Flushing(f, order) => FlushWatched(c, t, f, order, n);
    case Observe(o, order, granted) =>
      var flushed := Flushed(c, t, Expired(o.epoch), order);
      FlushWatched(c, t, Expired(o.epoch), order, n);
      FlushKeepsInv(c, t, Expired(o.epoch), order);
      AbsorbWatched(c, flushed, o, n);
      WatchedThen(t, flushed, Absorbed(c, flushed, o), n);
      ApplyObserve(c, t, o, order, granted);
  }

  // ----- over runs -----

  lemma LostSnoc(c: Config, ops: seq<Op>, n: nat)
    requires ops != []
    ensures var m := |ops| - 1;
            Lost(c, ops, n) <==> Lost(c, ops[..m], n) || Drops(c, Run(c, ops[..m]), ops[m], n)
  {
    hide Drops, Run;
    var m := |ops| - 1;
    assert forall i :: 0 <= i < m ==> ops[..m][i] == ops[i] && ops[..m][..i] == ops[..i];
  }

  /** Over every run: an open episode has lost nothing yet, and a closed one is reported completely exactly
      when no raising call closed it with something to report. */
  lemma {:induction false} RunSettles(c: Config, ops: seq<Op>, n: nat)
    ensures var t := Run(c, ops);
            && (Kept(t, n) || n !in t.hist ==> !Lost(c, ops, n))
            && (n in t.hist && !Kept(t, n) ==> (Reported(t, n) <==> !Lost(c, ops, n)))
  {
    hide Apply, Drops, IsOpen, Inv, Revisions, Complete, Raises;
    if ops == [] {
      assert !Lost(c, [], n) && n !in START.hist;
    } else {
      var m := |ops| - 1;
      var t := Run(c, ops[..m]);
      RunSettles(c, ops[..m], n);
      RunKeepsInv(c, ops[..m]);
      if Raises(c, t, ops[m]) {
        RaisingSettles(c, t, ops[m], n);
      } else {
        ReturningSettles(c, t, ops[m], n);
      }
      LostSnoc(c, ops, n);
    }
  }
}
