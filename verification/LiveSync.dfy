/** Publishing one snapshot to several targets, and what the reported lists of targets mean. */
module LiveSync {
  import opened Wrappers
  import opened RemoteStore
  import opened RemoteProtocol
  import opened RemoteSafety
  import opened RemotePublisher
  import opened RemoteSolo

  // ----- several targets -----

  datatype TargetError = TargetError(failed: string, published: seq<string>, unknown: seq<string>)

  function ErrorFor(failed: string, published: seq<string>, committed: Option<bool>): TargetError {
    TargetError(failed,
                if committed == Some(true) && failed !in published then published + [failed] else published,
                if committed == None then [failed] else [])
  }

  ghost predicate CanPublish(p: SnapshotPublisher, item: Prepared)
    reads p
  {
    && Injective(p.world.codec) && Sound(p.world.codec, p.host) && GoodJob(p.world.codec, p.job)
    && p.job.current == Some(item) && p.Follows() && p.local.pc.Begin? && p.commands == 0
  }

  /** Whether the target's `current` is the published manifest. */
  predicate Updated(p: SnapshotPublisher, item: Prepared)
    reads p
  {
    p.host.current == Some(item.text)
  }

  /** Nothing will go wrong at this target. */
  ghost predicate Untroubled(p: SnapshotPublisher) {
    Undisturbed(p.world, p.store, p.pid, p.job, p.script)
  }

  lemma OutcomeTells(p: SnapshotPublisher, item: Prepared, outcome: Verdict)
    requires Injective(p.world.codec) && Sound(p.world.codec, p.store) && GoodJob(p.world.codec, p.job)
    requires p.job.current == Some(item) && p.local.pc == Finished(outcome)
    requires After(p.world, p.store, p.pid, Fresh(p.job), p.script, p.commands) == (p.host, p.local)
    ensures Tells(p.store.current, p.host.current, item.text, outcome)
  {
    SoloRun(p.world, p.store, p.pid, p.job, p.script, p.commands);
    hide After, Inv;
  }

  /** Publishes to each target in turn and stops at the first error. A listed target is truly updated, the
      targets after the failed one are untouched, a target is reported unknown when and only when its commit
      is, and an updated target is left out of the list only when its final hash read failed. When no target is
      disturbed, all are listed. */
  method PublishApproved(targets: seq<string>, publishers: seq<SnapshotPublisher>, item: Prepared)
    returns (r: Result<seq<string>, TargetError>, ghost at: nat, ghost outcome: Verdict)
    requires |targets| == |publishers|
    requires forall i, j :: 0 <= i < j < |publishers| ==> publishers[i] != publishers[j]
    requires forall i :: 0 <= i < |publishers| ==> CanPublish(publishers[i], item)
    modifies publishers
    ensures at <= |targets| && forall i :: 0 <= i < at ==> Updated(publishers[i], item)
    ensures r.Ok? ==> at == |targets| && r.value == targets
    ensures (forall i :: 0 <= i < |publishers| ==> Untroubled(publishers[i])) ==> r.Ok?
    ensures r.Err? ==>
              && at < |targets| && outcome.Raised? && r.error.failed == targets[at]
              && r.error.unknown == (if outcome.committed.None? then [targets[at]] else [])
              && targets[..at] <= r.error.published
              && (forall name :: name in r.error.published <==>
                    name in targets[..at] || (name == targets[at] && outcome.committed == Some(true)))
              && Tells(old(publishers[at].host.current), publishers[at].host.current, item.text, outcome)
              && forall i :: at < i < |targets| ==> publishers[i].host == old(publishers[i].host)
    ensures r.Err? ==> forall name :: name in r.error.published ==>
              exists i :: 0 <= i <= at && targets[i] == name && Updated(publishers[i], item)
  {
    hide After, Sound, GoodJob, Injective, Tells, Undisturbed;
    var published: seq<string> := [];
    outcome := Returned(false);
    for i := 0 to |targets|
      invariant published == targets[..i]
      invariant forall j :: 0 <= j < i ==> Updated(publishers[j], item)
      invariant forall j :: i <= j < |targets| ==> unchanged(publishers[j])
    {
      var p := publishers[i];
      assert CanPublish(p, item);
      ghost var was := p.host;
      assert p.store == was by { NothingIssued(p); }
      var verdict, _, _ := p.Publish();
      OutcomeTells(p, item, verdict);
      outcome := verdict;
      if verdict.Raised? {
        if verdict.committed == Some(true) {
          CommittedTells(was.current, p.host.current, item.text, verdict);
        }
        return Err(ErrorFor(targets[i], published, verdict.committed)), i, verdict;
      }
      assert Updated(p, item) by { ReturnedTells(was.current, p.host.current, item.text, verdict); }
      published := published + [targets[i]];
    }
    assert targets[..|targets|] == targets;
    return Ok(published), |targets|, outcome;
  }

  lemma NothingIssued(p: SnapshotPublisher)
    requires p.Follows() && p.commands == 0
    ensures p.store == p.host
  {
  }

  lemma CommittedTells(was: Option<Blob>, now: Option<Blob>, text: Blob, outcome: Verdict)
    requires Tells(was, now, text, outcome) && outcome.Raised? && outcome.committed == Some(true)
    ensures now == Some(text)
  {
  }

  lemma ReturnedTells(was: Option<Blob>, now: Option<Blob>, text: Blob, outcome: Verdict)
    requires Tells(was, now, text, outcome) && outcome.Returned?
    ensures now == Some(text)
  {
  }
}
