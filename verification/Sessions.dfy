/** The incremental aggregator computes gap-based sessions. */
module Sessions {
  import opened Wrappers
  import opened EpisodeTally
  import opened Aggregator
  import opened EpisodeGuarantees

  /** The time an operation brings, if it brings one. */
  function TimeOf(op: Op): Option<real> {
    match op
    case Observe(o, _, _) => Some(o.epoch)
    case Flushing(Expired(now), _) => Some(now)
    case Flushing(_, _) => None
  }

  ghost predicate Chronological(ops: seq<Op>) {
    forall i, j :: 0 <= i < j < |ops| && TimeOf(ops[i]).Some? && TimeOf(ops[j]).Some?
      ==> TimeOf(ops[i]).value <= TimeOf(ops[j]).value
  }

  /** A peer or global flush that closes the key whatever its age. */
  predicate Hits(op: Op, k: Key) {
    op.Flushing? && match op.flush
                    case Expired(_) => false
                    case Peer(ip, port) => k.sourceIp == ip && k.sourcePort == port
                    case Everything => true
  }

  ghost predicate CountedAt(c: Config, ops: seq<Op>, i: nat)
    requires i < |ops|
  {
    Counts(c, Run(c, ops[..i]).agg, ops[i])
  }

  /** `i` counts an observation of `k`. */
  ghost predicate Sees(c: Config, ops: seq<Op>, i: nat, k: Key)
    requires i < |ops|
  {
    ops[i].Observe? && CountedAt(c, ops, i) && KeyOf(ops[i].observation) == k
  }

  /** `j` is the next counted observation of its key after `i`. */
  ghost predicate Consecutive(c: Config, ops: seq<Op>, i: nat, j: nat, k: Key) {
    && i < j < |ops| && Sees(c, ops, i, k) && Sees(c, ops, j, k)
    && forall m :: i < m < j ==> !Sees(c, ops, m, k)
  }

  /** The episode that took the observation of operation `i`. */
  ghost function Owner(c: Config, ops: seq<Op>, i: nat, k: Key): nat
    requires i < |ops| && Sees(c, ops, i, k)
  {
    RunSnoc(c, ops, i);
    CountedIsOpen(c, Run(c, ops[..i]), ops[i]);
    Run(c, ops[..i + 1]).agg.open[k].sequence
  }

  lemma RunSnoc(c: Config, ops: seq<Op>, i: nat)
    requires i < |ops|
    ensures Run(c, ops[..i + 1]) == Apply(c, Run(c, ops[..i]), ops[i])
  {
    hide Apply;
    assert ops[..i + 1][..i] == ops[..i];
  }

  lemma CountedIsOpen(c: Config, t: Trace, op: Op)
    requires Counts(c, t.agg, op)
    ensures KeyOf(op.observation) in Apply(c, t, op).agg.open
    ensures Apply(c, t, op).agg.open[KeyOf(op.observation)].tally.lastEpoch == op.observation.epoch
  {
    hide FlushKeys, Flag, Seen, CountWrite, Overflows, Due;
  }

  lemma {:induction false} ValidPrefix(c: Config, ops: seq<Op>, i: nat)
    requires ValidRun(c, ops) && i <= |ops|
    ensures ValidRun(c, ops[..i])
    ensures i < |ops| ==> Enumerates(ops[i].order, Run(c, ops[..i]).agg.open.Keys)
    decreases |ops|
  {
    hide Enumerates, Apply;
    var n := |ops| - 1;
    if i == |ops| {
      assert ops[..i] == ops;
    } else if i < n {
      ValidPrefix(c, ops[..n], i);
      assert ops[..n][..i] == ops[..i];
    }
  }

  /** What an operation that does not count `k` does to the episode of `k`: it stays as it is, or closes. */
  lemma OthersOnlyClose(c: Config, t: Trace, op: Op, k: Key)
    requires Enumerates(op.order, t.agg.open.Keys)
    requires !(op.Observe? && Counts(c, t.agg, op) && KeyOf(op.observation) == k)
    ensures var open, open' := t.agg.open, Apply(c, t, op).agg.open;
            && (k in open' ==> k in open && open'[k] == open[k])
            && (k in open && k !in open' <==>
                k in open && (Hits(op, k) || (TimeOf(op).Some? &&
                              TimeOf(op).value - open[k].tally.lastEpoch >= c.quietWindow)))
  {
    hide FlushKeys, Count, Due;
    var f := if op.Flushing? then op.flush else Expired(op.observation.epoch);
    FlushLeaves(c, f, t.agg.open, op.order);
  }

  /** Something between `i` and `m` closes an episode of `k` last seen at time `since`. */
  ghost predicate Closed(c: Config, ops: seq<Op>, i: nat, m: nat, k: Key, since: real) {
    exists x :: i < x < m && x < |ops| && Ends(c, ops[x], k, since)
  }

  ghost predicate Ends(c: Config, op: Op, k: Key, since: real) {
    Hits(op, k) || (TimeOf(op).Some? && TimeOf(op).value - since >= c.quietWindow)
  }

  /** Between two observations of a key its episode is carried along untouched, or has been closed. */
  lemma {:induction false} Carried(c: Config, ops: seq<Op>, i: nat, m: nat, k: Key)
    requires ValidRun(c, ops) && i < m <= |ops| && Sees(c, ops, i, k)
    requires forall x :: i < x < m ==> !Sees(c, ops, x, k)
    ensures var open := Run(c, ops[..m]).agg.open;
            && (k in open <==> !Closed(c, ops, i, m, k, ops[i].observation.epoch))
            && (k in open ==> open[k].sequence == Owner(c, ops, i, k)
                              && open[k].tally.lastEpoch == ops[i].observation.epoch)
    decreases m
  {
    hide Apply, Hits, TimeOf, Enumerates, Ends, Counts;
    var since := ops[i].observation.epoch;
    if m == i + 1 {
      RunSnoc(c, ops, i);
      CountedIsOpen(c, Run(c, ops[..i]), ops[i]);
    } else {
      Carried(c, ops, i, m - 1, k);
      RunSnoc(c, ops, m - 1);
      ValidPrefix(c, ops, m - 1);
      assert !Sees(c, ops, m - 1, k);
      CarryOne(c, Run(c, ops[..m - 1]), ops[m - 1], k, since);
      ClosedStep(c, ops, i, m - 1, k, since);
    }
  }

  lemma CarryOne(c: Config, t: Trace, op: Op, k: Key, since: real)
    requires Enumerates(op.order, t.agg.open.Keys)
    requires !(op.Observe? && Counts(c, t.agg, op) && KeyOf(op.observation) == k)
    requires k in t.agg.open ==> t.agg.open[k].tally.lastEpoch == since
    ensures var open' := Apply(c, t, op).agg.open;
            && (k in open' <==> k in t.agg.open && !Ends(c, op, k, since))
            && (k in open' ==> open'[k] == t.agg.open[k])
  {
    hide Apply, Hits, TimeOf, Enumerates, Counts;
    OthersOnlyClose(c, t, op, k);
  }

  lemma ClosedStep(c: Config, ops: seq<Op>, i: nat, m: nat, k: Key, since: real)
    requires i < m < |ops|
    ensures Closed(c, ops, i, m + 1, k, since) <==> Closed(c, ops, i, m, k, since) || Ends(c, ops[m], k, since)
  {
    hide Ends;
    if Closed(c, ops, i, m + 1, k, since) {
      var x :| i < x < m + 1 && Ends(c, ops[x], k, since);
      if x < m {
        assert Closed(c, ops, i, m, k, since);
      }
    }
  }

  /** Where a counted observation goes: into the open episode unless it has expired, else into a new one. */
  lemma Joins(c: Config, t: Trace, op: Op, k: Key)
    requires Enumerates(op.order, t.agg.open.Keys) && Numbered(t)
    requires Counts(c, t.agg, op) && KeyOf(op.observation) == k
    ensures var open' := Apply(c, t, op).agg.open;
            && k in open'
            && (k in t.agg.open && op.observation.epoch - t.agg.open[k].tally.lastEpoch < c.quietWindow ==>
                open'[k].sequence == t.agg.open[k].sequence)
            && (!(k in t.agg.open && op.observation.epoch - t.agg.open[k].tally.lastEpoch < c.quietWindow) ==>
                open'[k].sequence == t.agg.next)
  {
    hide FlushKeys, Count, Due;
    FlushLeaves(c, Expired(op.observation.epoch), t.agg.open, op.order);
  }

  lemma {:induction false} NextGrows(c: Config, ops: seq<Op>, i: nat, j: nat)
    requires i <= j <= |ops|
    ensures Run(c, ops[..i]).agg.next <= Run(c, ops[..j]).agg.next
    decreases j
  {
    hide Apply;
    if i < j {
      NextGrows(c, ops, i, j - 1);
      RunSnoc(c, ops, j - 1);
      HistoryCountsCalls(c, ops[..j - 1]);
      NumberedStep(c, Run(c, ops[..j - 1]), ops[j - 1]);
    }
  }

  /** Consecutive observations of a key share an episode exactly when less than the quiet window lies
      between them and no peer or global flush does; other keys and timer flushes change nothing. */
  lemma EpisodesAreGapSessions(c: Config, ops: seq<Op>, i: nat, j: nat, k: Key)
    requires ValidRun(c, ops) && Chronological(ops) && Consecutive(c, ops, i, j, k)
    ensures Owner(c, ops, i, k) == Owner(c, ops, j, k) <==>
            && ops[j].observation.epoch - ops[i].observation.epoch < c.quietWindow
            && forall m :: i < m < j ==> !Hits(ops[m], k)
    ensures Owner(c, ops, i, k) <= Owner(c, ops, j, k)
  {
    hide Apply, Enumerates, Counts;
    var since, now := ops[i].observation.epoch, ops[j].observation.epoch;
    Carried(c, ops, i, j, k);
    ValidPrefix(c, ops, j);
    RunSnoc(c, ops, j);
    HistoryCountsCalls(c, ops[..j]);
    Joins(c, Run(c, ops[..j]), ops[j], k);
    assert Owner(c, ops, i, k) < Run(c, ops[..j]).agg.next by {
      NextGrows(c, ops, i + 1, j);
      HistoryCountsCalls(c, ops[..i + 1]);
      RunSnoc(c, ops, i);
      CountedIsOpen(c, Run(c, ops[..i]), ops[i]);
    }
    ClosedMeans(c, ops, i, j, k);
  }

  lemma ClosedMeans(c: Config, ops: seq<Op>, i: nat, j: nat, k: Key)
    requires Chronological(ops) && i < j < |ops| && ops[i].Observe? && ops[j].Observe?
    ensures var since := ops[i].observation.epoch;
            (!Closed(c, ops, i, j, k, since) && ops[j].observation.epoch - since < c.quietWindow) <==>
            (ops[j].observation.epoch - since < c.quietWindow && forall m :: i < m < j ==> !Hits(ops[m], k))
  {
    var since, now := ops[i].observation.epoch, ops[j].observation.epoch;
    if Closed(c, ops, i, j, k, since) && now - since < c.quietWindow {
      var x :| i < x < j && Ends(c, ops[x], k, since);
      assert TimeOf(ops[j]) == Some(now);
      assert Hits(ops[x], k);
    }
    if m :| i < m < j && Hits(ops[m], k) {
      assert Ends(c, ops[m], k, since);
    }
  }
}
