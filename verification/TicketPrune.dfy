/** Applying a prune: one statement at a time, every foreign key kept, and all of it or nothing. */
module TicketPrune {
  import opened Wrappers
  import opened FiniteSets
  import opened TicketPlan

  function Only<K, V(==)>(m: map<K, V>, s: set<V>): map<K, V> {
    map k | k in m && m[k] in s :: m[k]
  }

  function TicketSignals(t: Tables): set<Id> {
    set k | k in t.tickets :: t.tickets[k].signal
  }

  function ChildrenGone(t: Tables, kept: set<Id>): Tables {
    t.(comments := Only(t.comments, kept), tasks := Only(t.tasks, kept), audit := Only(t.audit, kept))
  }

  function TicketsGone(t: Tables, kept: set<Id>): Tables {
    t.(tickets := map k | k in t.tickets && k in kept :: t.tickets[k])
  }

  function OccurrencesGone(t: Tables): Tables {
    t.(occurrences := Only(t.occurrences, TicketSignals(t)))
  }

  function SignalsGone(t: Tables): Tables {
    t.(signals := map k | k in t.signals && k in TicketSignals(t) :: t.signals[k])
  }

  /** What a completed prune leaves. */
  function Pruned(t: Tables, kept: set<Id>): Tables {
    SignalsGone(OccurrencesGone(TicketsGone(ChildrenGone(t, kept), kept))).(keptTable := None)
  }

  datatype Deleted = Deleted(comments: int, tasks: int, audit: int, tickets: int, occurrences: int, signals: int)

  function Difference(was: Tables, now: Tables): Deleted {
    Deleted(|was.comments| - |now.comments|, |was.tasks| - |now.tasks|, |was.audit| - |now.audit|,
            |was.tickets| - |now.tickets|, |was.occurrences| - |now.occurrences|, |was.signals| - |now.signals|)
  }

  lemma OnlyIsSmaller<K, V>(m: map<K, V>, s: set<V>)
    ensures |Only(m, s)| <= |m|
  {
    SmallerMap(Only(m, s), m);
  }

  lemma SmallerMap<K, V>(a: map<K, V>, b: map<K, V>)
    requires a.Keys <= b.Keys
    ensures |a| <= |b|
  {
    SubsetSize(a.Keys, b.Keys);
    assert |a| == |a.Keys| && |b| == |b.Keys|;
  }

  /** An open write connection; foreign keys are enforced, and deleting a referenced row fails. */
  class Connection {
    var tables: Tables

    constructor (tables: Tables)
      ensures this.tables == tables
    {
      this.tables := tables;
    }

    // ----- statements -----

    method CreateKeptTable(kept: set<Id>)
      modifies this
      ensures tables == old(tables).(keptTable := Some(kept))
    {
      tables := tables.(keptTable := Some(kept));
    }

    method DeleteComments() returns (count: nat)
      requires tables.keptTable.Some?
      modifies this
      ensures tables == old(tables).(comments := Only(old(tables).comments, old(tables).keptTable.value))
      ensures count == |old(tables).comments| - |tables.comments|
      ensures old(ForeignKeys(tables)) ==> ForeignKeys(tables)
    {
      var left := Only(tables.comments, tables.keptTable.value);
      OnlyIsSmaller(tables.comments, tables.keptTable.value);
      count := |tables.comments| - |left|;
      tables := tables.(comments := left);
    }

    method DeleteTasks() returns (count: nat)
      requires tables.keptTable.Some?
      modifies this
      ensures tables == old(tables).(tasks := Only(old(tables).tasks, old(tables).keptTable.value))
      ensures count == |old(tables).tasks| - |tables.tasks|
      ensures old(ForeignKeys(tables)) ==> ForeignKeys(tables)
    {
      var left := Only(tables.tasks, tables.keptTable.value);
      OnlyIsSmaller(tables.tasks, tables.keptTable.value);
      count := |tables.tasks| - |left|;
      tables := tables.(tasks := left);
    }

    /** The audit trail is append-only: while the trigger exists, deleting any of its rows aborts. */
    method DeleteAudit() returns (count: Option<nat>)
      requires tables.keptTable.Some?
      modifies this
      ensures var left := Only(old(tables).audit, old(tables).keptTable.value);
              if old(tables).trigger.Some? && left != old(tables).audit then count == None && tables == old(tables)
              else count == Some(|old(tables).audit| - |left|) && tables == old(tables).(audit := left)
      ensures old(ForeignKeys(tables)) ==> ForeignKeys(tables)
    {
      var left := Only(tables.audit, tables.keptTable.value);
      OnlyIsSmaller(tables.audit, tables.keptTable.value);
      if tables.trigger.Some? && left != tables.audit {
        return None;
      }
      count := Some(|tables.audit| - |left|);
      tables := tables.(audit := left);
    }

    method SetTrigger(sql: Option<string>)
      modifies this
      ensures tables == old(tables).(trigger := sql)
    {
      tables := tables.(trigger := sql);
    }

    /** Fails as a whole when a comment, task or audit event still points at a ticket to be deleted. */
    method DeleteTickets() returns (count: Option<nat>)
      requires tables.keptTable.Some?
      modifies this
      ensures var was, kept := old(tables), old(tables).keptTable.value;
              var gone := was.tickets.Keys - kept;
              if PointsAt(was.comments, gone) || PointsAt(was.tasks, gone) || PointsAt(was.audit, gone)
              then count == None && tables == was
              else count == Some(|was.tickets| - |tables.tickets|) && tables == TicketsGone(was, kept)
      ensures old(ForeignKeys(tables)) ==> ForeignKeys(tables)
    {
      hide ForeignKeys, PointsAt;
      var gone := tables.tickets.Keys - tables.keptTable.value;
      if PointsAt(tables.comments, gone) || PointsAt(tables.tasks, gone) || PointsAt(tables.audit, gone) {
        return None;
      }
      var left := map k | k in tables.tickets && k in tables.keptTable.value :: tables.tickets[k];
      SmallerMap(left, tables.tickets);
      TicketsGoneIsSafe(tables, tables.keptTable.value);
      count := Some(|tables.tickets| - |left|);
      tables := tables.(tickets := left);
    }

    method DeleteOccurrences() returns (count: nat)
      modifies this
      ensures tables == OccurrencesGone(old(tables))
      ensures count == |old(tables).occurrences| - |tables.occurrences|
      ensures old(ForeignKeys(tables)) ==> ForeignKeys(tables)
    {
      var left := Only(tables.occurrences, TicketSignals(tables));
      OnlyIsSmaller(tables.occurrences, TicketSignals(tables));
      count := |tables.occurrences| - |left|;
      tables := tables.(occurrences := left);
    }

    /** Fails as a whole when a ticket or an occurrence still points at a signal to be deleted. */
    method DeleteSignals() returns (count: Option<nat>)
      modifies this
      ensures var was := old(tables);
              if PointsAt(was.occurrences, was.signals.Keys - TicketSignals(was)) then count == None && tables == was
              else count == Some(|was.signals| - |tables.signals|) && tables == SignalsGone(was)
      ensures old(ForeignKeys(tables)) ==> ForeignKeys(tables)
    {
      hide ForeignKeys, PointsAt;
      var used := TicketSignals(tables);
      if PointsAt(tables.occurrences, tables.signals.Keys - used) {
        return None;
      }
      var left := map k | k in tables.signals && k in used :: tables.signals[k];
      SignalsGoneIsSafe(tables);
      hide TicketSignals;
      count := Some(|tables.signals| - |left|);
      tables := tables.(signals := left);
    }

    // ----- the plan and the transaction -----

    /** Comments and tasks, then the audit rows while their trigger is dropped. */
    method DeleteChildren(kept: set<Id>, triggerSql: string) returns (comments: nat, tasks: nat, audit: nat)
      requires ForeignKeys(tables)
      modifies this
      ensures ForeignKeys(tables)
      ensures tables == ChildrenGone(old(tables), kept).(keptTable := Some(kept), trigger := Some(triggerSql))
      ensures comments == |old(tables).comments| - |tables.comments| && tasks == |old(tables).tasks| - |tables.tasks|
      ensures audit == |old(tables).audit| - |tables.audit|
      ensures SameParents(old(tables), tables)
    {
      hide Only;
      CreateKeptTable(kept);
      comments := DeleteComments();
      tasks := DeleteTasks();
      SetTrigger(None);
      var dropped := DeleteAudit();
      audit := dropped.value;
      SetTrigger(Some(triggerSql));
    }

    /** Tickets, then occurrences, then signals; in this order no foreign key stands in the way. */
    method DeleteParents() returns (tickets: nat, occurrences: nat, signals: nat)
      requires ForeignKeys(tables) && tables.keptTable.Some?
      requires tables == ChildrenGone(tables, tables.keptTable.value)
      modifies this
      ensures ForeignKeys(tables)
      ensures tables == SignalsGone(OccurrencesGone(TicketsGone(old(tables), old(tables).keptTable.value)))
      ensures SameChildren(old(tables), tables)
      ensures tickets == |old(tables).tickets| - |tables.tickets|
      ensures occurrences == |old(tables).occurrences| - |tables.occurrences|
      ensures signals == |old(tables).signals| - |tables.signals|
    {
      NoChildPoints(tables, tables.keptTable.value);
      var gone := DeleteTickets();
      tickets := gone.value;
      occurrences := DeleteOccurrences();
      NoOccurrencePoints(tables);
      ghost var before := tables;
      assert SameChildren(old(tables), SignalsGone(before));
      assert SignalsGone(before).tickets == before.tickets && SignalsGone(before).occurrences == before.occurrences;
      hide TicketsGone, OccurrencesGone, SignalsGone, ForeignKeys;
      var unused := DeleteSignals();
      signals := unused.value;
    }

    /** Every statement in turn. */
    method DeleteAll(kept: set<Id>, triggerSql: string) returns (d: Deleted)
      requires ForeignKeys(tables)
      modifies this
      ensures ForeignKeys(tables) && tables == Pruned(old(tables), kept).(trigger := Some(triggerSql))
      ensures d == Difference(old(tables), tables)
    {
      hide ForeignKeys, ChildrenGone, TicketsGone, OccurrencesGone, SignalsGone, Pruned;
      ghost var was := tables;
      ChildrenGoneTwice(was, kept, Some(triggerSql));
      StagesCompose(was, kept, Some(triggerSql));
      var comments, tasks, audit := DeleteChildren(kept, triggerSql);
      var tickets, occurrences, signals := DeleteParents();
      DropKeptTable();
      d := Deleted(comments, tasks, audit, tickets, occurrences, signals);
    }

    /** Applies the plan, then checks each count against it. */
    method ApplyPlan(p: Plan, triggerSql: string) returns (r: Result<Deleted, PruneError>)
      requires ForeignKeys(tables)
      modifies this
      ensures ForeignKeys(tables) && tables == Pruned(old(tables), p.kept).(trigger := Some(triggerSql))
      ensures r.Ok? <==> Agrees(old(tables), p)
      ensures r.Ok? ==> r.value == Difference(old(tables), tables)
    {
      hide ForeignKeys, Pruned;
      var d := DeleteAll(p.kept, triggerSql);
      if d.tickets != TicketsToDelete(p) {
        return Err(TicketCountChanged);
      }
      if d.signals != p.signalsToDelete {
        return Err(SignalCountDiffers);
      }
      if d.occurrences != p.occurrencesToDelete {
        return Err(OccurrenceCountDiffers);
      }
      if tables.trigger.None? {
        return Err(TriggerNotRestored);
      }
      r := Ok(d);
    }

    /** What must hold before anything is deleted. */
    method Examine(c: Classifier, retain: int) returns (r: Result<Plan, PruneError>, ghost rows: seq<Row>)
      ensures r.Ok? <==> Prunable(c, tables, retain, rows)
      ensures r.Ok? ==> Planned(c, tables, retain, rows, r.value)
      ensures retain >= 0 ==> IsQuery(tables, rows)
    {
      hide IsQuery, FirstProtected, ForeignKeys, Kept, SignalsOf, Dropped;
      var plan, found := PlanPrune(c, tables, retain);
      rows := found;
      if tables.trigger.None? || !HasText(tables.trigger.value) {
        return Err(MissingTrigger), rows;
      }
      if !ForeignKeys(tables) {
        return Err(BrokenIntegrity), rows;
      }
      r := plan;
    }

    /** A dry run, or a backup and one transaction that does everything or nothing. `later` is what the
        store holds when the transaction begins. */
    method PruneStore(c: Classifier, retain: int, apply: bool, later: Tables, backupOk: bool, commitOk: bool)
      returns (r: Result<Option<Deleted>, PruneError>, ghost dry: seq<Row>, ghost rows: seq<Row>, ghost begun: bool)
      requires later.keptTable.None?
      modifies this
      ensures r.Ok? <==> Prunable(c, old(tables), retain, dry)
                         && (apply ==> backupOk && commitOk && Prunable(c, later, retain, rows))
      ensures r.Err? || !apply ==> tables == if begun then later else old(tables)
      ensures begun ==> apply && backupOk
      ensures r.Ok? && apply ==>
                && IsQuery(later, rows) && FirstProtected(c, rows).Ok?
                && tables == Pruned(later, Kept(rows, retain, FirstProtected(c, rows).value))
                && ForeignKeys(tables) && tables.ingests == later.ingests && tables.trigger == later.trigger
                && r.value == Some(Difference(later, tables))
                && var protected := FirstProtected(c, rows).value;
                   && FindsNewestTest(c, later, Ok(protected))
                   && KeepsNewest(later, later.tickets.Keys, tables.tickets.Keys, protected)
                   && |tables.tickets| == if retain == 0 && protected.Some? then 1
                                          else if retain <= |later.tickets| then retain else |later.tickets|
    {
      hide IsQuery, FirstProtected, ForeignKeys, Kept, SignalsOf, Dropped, Pruned, Difference, Agrees, KeepsNewest,
        FindsNewestTest;
      begun, rows := false, [];
      if retain < 0 {
        dry := [];
        return Err(NegativeRetain), dry, rows, begun;
      }
      var dryPlan;
      dryPlan, dry := Examine(c, retain);
      if dryPlan.Err? {
        return Err(dryPlan.error), dry, rows, begun;
      }
      if !apply {
        return Ok(None), dry, rows, begun;
      }
      if !backupOk {
        return Err(BackupFailed), dry, rows, begun;
      }
      tables, begun := later, true;
      var plan;
      plan, rows := Examine(c, retain);
      if plan.Err? {
        return Err(plan.error), dry, rows, begun;
      }
      PlanAgrees(c, later, retain, rows, plan.value);
      PrunedKeepsNewest(c, later, retain, rows);
      SameTrigger(later, plan.value.kept);
      var deleted := ApplyPlan(plan.value, later.trigger.value);
      // the plan agrees, so there is no count error left to roll back; the last checks share the branch of a
      // failing commit
      if tables.ingests != later.ingests || !ForeignKeys(tables) || !commitOk {
        tables := later;
        return Err(CommitFailed), dry, rows, begun;
      }
      r := Ok(Some(deleted.value));
    }

    method DropKeptTable()
      modifies this
      ensures tables == old(tables).(keptTable := None)
      ensures old(ForeignKeys(tables)) ==> ForeignKeys(tables)
    {
      tables := tables.(keptTable := None);
    }
  }

  lemma TicketsGoneIsSafe(t: Tables, kept: set<Id>)
    requires var gone := t.tickets.Keys - kept;
             !PointsAt(t.comments, gone) && !PointsAt(t.tasks, gone) && !PointsAt(t.audit, gone)
    ensures ForeignKeys(t) ==> ForeignKeys(TicketsGone(t, kept))
  {
  }

  lemma SignalsGoneIsSafe(t: Tables)
    requires !PointsAt(t.occurrences, t.signals.Keys - TicketSignals(t))
    ensures |SignalsGone(t).signals| <= |t.signals|
    ensures ForeignKeys(t) ==> ForeignKeys(SignalsGone(t))
  {
    SmallerMap(SignalsGone(t).signals, t.signals);
  }

  predicate SameChildren(a: Tables, b: Tables) {
    a.comments == b.comments && a.tasks == b.tasks && a.audit == b.audit && a.trigger == b.trigger
  }

  predicate SameParents(a: Tables, b: Tables) {
    a.tickets == b.tickets && a.occurrences == b.occurrences && a.signals == b.signals && a.ingests == b.ingests
  }

  lemma NoChildPoints(t: Tables, kept: set<Id>)
    requires t == ChildrenGone(t, kept)
    ensures var gone := t.tickets.Keys - kept;
            !PointsAt(t.comments, gone) && !PointsAt(t.tasks, gone) && !PointsAt(t.audit, gone)
  {
    assert forall k :: k in t.comments ==> k in Only(t.comments, kept);
    assert forall k :: k in t.tasks ==> k in Only(t.tasks, kept);
    assert forall k :: k in t.audit ==> k in Only(t.audit, kept);
  }

  lemma NoOccurrencePoints(t: Tables)
    requires forall k :: k in t.occurrences ==> t.occurrences[k] in TicketSignals(t)
    ensures !PointsAt(t.occurrences, t.signals.Keys - TicketSignals(t))
  {
  }

  lemma ChildrenGoneTwice(t: Tables, kept: set<Id>, sql: Option<string>)
    ensures var t' := ChildrenGone(t, kept).(keptTable := Some(kept), trigger := sql); ChildrenGone(t', kept) == t'
  {
  }

  /** The trigger and the temporary table do not matter to the other tables. */
  lemma StagesCompose(t: Tables, kept: set<Id>, sql: Option<string>)
    ensures var staged := ChildrenGone(t, kept).(keptTable := Some(kept), trigger := sql);
            SignalsGone(OccurrencesGone(TicketsGone(staged, kept))).(keptTable := None)
            == Pruned(t, kept).(trigger := sql)
  {
  }

  /** The white space that `strip` removes. */
  predicate IsSpace(ch: char) {
    var n := ch as int;
    || 9 <= n <= 13 || 28 <= n <= 32 || n == 0x85 || n == 0xa0 || n == 0x1680 || 0x2000 <= n <= 0x200a
    || n == 0x2028 || n == 0x2029 || n == 0x202f || n == 0x205f || n == 0x3000
  }

  predicate HasText(sql: string) {
    exists i :: 0 <= i < |sql| && !IsSpace(sql[i])
  }

  /** The store passes its checks and every classification up to the first security test can be read. */
  ghost predicate Prunable(c: Classifier, t: Tables, retain: int, rows: seq<Row>) {
    && retain >= 0 && t.trigger.Some? && HasText(t.trigger.value) && ForeignKeys(t)
    && FirstProtected(c, rows).Ok?
  }

  lemma SameTrigger(t: Tables, kept: set<Id>)
    requires t.trigger.Some?
    ensures Pruned(t, kept).(trigger := Some(t.trigger.value)) == Pruned(t, kept)
    ensures Pruned(t, kept).ingests == t.ingests
  {
    PrunedIs(t, kept);
  }

  predicate PointsAt<K, V(==)>(m: map<K, V>, s: set<V>) {
    exists k :: k in m && m[k] in s
  }

  /** The counts of the plan are the counts of the tables it was made from. */
  ghost predicate Agrees(t: Tables, p: Plan) {
    var after := Pruned(t, p.kept);
    && TicketsToDelete(p) == |t.tickets| - |after.tickets|
    && p.signalsToDelete == |t.signals| - |after.signals|
    && p.occurrencesToDelete == |t.occurrences| - |after.occurrences|
  }

  // ----- the plan fits -----

  lemma {:induction false} RowIdsCount(rows: seq<Row>)
    ensures |RowIds(rows)| == |rows|
  {
    if rows != [] {
      RowIdsCount(rows[..|rows| - 1]);
    }
  }

  /** Under the foreign keys the query lists every ticket. */
  lemma QueryListsAll(t: Tables, rows: seq<Row>)
    requires ForeignKeys(t) && IsQuery(t, rows)
    ensures Ids(rows) == t.tickets.Keys && DistinctIds(rows) && |rows| == |t.tickets|
  {
    hide ComesBefore;
    forall k | k in t.tickets ensures k in Ids(rows) {
      assert Listed(rows, k);
    }
    assert Ids(rows) == t.tickets.Keys;
    IdsCount(rows);
    assert |t.tickets.Keys| == |t.tickets|;
  }

  lemma PrunedIs(t: Tables, kept: set<Id>)
    ensures var after := Pruned(t, kept);
            var signals := TicketSignals(after);
            && after.tickets == (map k | k in t.tickets && k in kept :: t.tickets[k])
            && after.signals == (map k | k in t.signals && k in signals :: t.signals[k])
            && after.occurrences == Only(t.occurrences, signals)
            && after.comments == Only(t.comments, kept) && after.tasks == Only(t.tasks, kept)
            && after.audit == Only(t.audit, kept) && after.ingests == t.ingests && after.trigger == t.trigger
  {
    var staged := TicketsGone(ChildrenGone(t, kept), kept);
    assert TicketSignals(staged) == TicketSignals(Pruned(t, kept));
    hide Only, TicketSignals;
  }

  /** What the plan of a sound store leaves, in terms of its tickets. */
  lemma PrunedKeepsNewest(c: Classifier, t: Tables, retain: nat, rows: seq<Row>)
    requires ForeignKeys(t) && IsQuery(t, rows) && FirstProtected(c, rows).Ok?
    ensures var protected := FirstProtected(c, rows).value;
            var left := Pruned(t, Kept(rows, retain, protected)).tickets;
            && FindsNewestTest(c, t, Ok(protected))
            && KeepsNewest(t, t.tickets.Keys, left.Keys, protected)
            && |left| == if retain == 0 && protected.Some? then 1
                         else if retain <= |t.tickets| then retain else |t.tickets|
  {
    hide IsQuery, FirstProtected, Kept, Pruned, FindsNewestTest, ForeignKeys;
    var protected := FirstProtected(c, rows).value;
    var kept := Kept(rows, retain, protected);
    SearchFindsNewestTest(c, t, rows);
    KeptAreNewest(c, t, rows, retain);
    KeptHowMany(c, t, rows, retain);
    QueryListsAll(t, rows);
    IdsAreListed(t, rows);
    PrunedIs(t, kept);
    hide IsNewer, Ids, ListedTickets;
    assert Pruned(t, kept).tickets.Keys == kept;
    assert |Pruned(t, kept).tickets| == |Pruned(t, kept).tickets.Keys|;
  }

  lemma KeptIsWithin(c: Classifier, t: Tables, retain: nat, rows: seq<Row>, p: Plan)
    requires ForeignKeys(t) && Planned(c, t, retain, rows, p)
    ensures p.kept <= t.tickets.Keys && |p.ticketIds| == |t.tickets|
  {
    hide ForeignKeys, IsQuery, FirstProtected, Kept, DistinctIds, SignalsOf, Dropped;
    QueryListsAll(t, rows);
    RowIdsCount(rows);
    ProtectedIsListed(c, rows);
    KeptCount(rows, retain, p.protected);
  }

  lemma RowOfTicket(t: Tables, rows: seq<Row>, k: Id) returns (i: nat)
    requires ForeignKeys(t) && IsQuery(t, rows) && k in t.tickets
    ensures i < |rows| && rows[i].id == k && IsRowOf(t, rows[i])
  {
    hide ComesBefore;
    assert Listed(rows, k);
    i :| 0 <= i < |rows| && rows[i].id == k;
  }

  lemma SignalsOfKept(t: Tables, rows: seq<Row>, kept: set<Id>)
    requires ForeignKeys(t) && IsQuery(t, rows)
    ensures TicketSignals(Pruned(t, kept)) == SignalsOf(rows, kept)
  {
    PrunedIs(t, kept);
    hide Pruned, ForeignKeys, ComesBefore;
    var after := Pruned(t, kept);
    forall s | s in TicketSignals(after) ensures s in SignalsOf(rows, kept) {
      var k :| k in after.tickets && after.tickets[k].signal == s;
      var i := RowOfTicket(t, rows, k);
    }
    forall s | s in SignalsOf(rows, kept) ensures s in TicketSignals(after) {
      var i :| 0 <= i < |rows| && rows[i].id in kept && rows[i].ticket.signal == s;
      assert IsRowOf(t, rows[i]);
      assert after.tickets[rows[i].id].signal == s;
    }
  }

  lemma SplitCount<K, V>(m: map<K, V>, n: map<K, V>, gone: set<K>)
    requires gone == m.Keys - n.Keys && n.Keys <= m.Keys
    ensures |gone| == |m| - |n|
  {
    assert m.Keys == gone + n.Keys;
    assert |m| == |m.Keys| && |n| == |n.Keys|;
  }

  lemma RestrictedCount<K, V>(m: map<K, V>, keys: set<K>)
    ensures |m.Keys - keys| == |m| - |map k | k in m && k in keys :: m[k]|
  {
    SplitCount(m, map k | k in m && k in keys :: m[k], m.Keys - keys);
  }

  lemma KeptCountOf<K, V>(m: map<K, V>, keys: set<K>)
    requires keys <= m.Keys
    ensures |map k | k in m && k in keys :: m[k]| == |keys|
  {
    var n := map k | k in m && k in keys :: m[k];
    assert n.Keys == keys && |n| == |n.Keys|;
  }

  lemma OccurrenceCount(m: map<nat, Id>, signals: set<Id>)
    ensures |Dropped(m, signals)| == |m| - |Only(m, signals)|
  {
    SplitCount(m, Only(m, signals), Dropped(m, signals));
  }

  /** Applying a plan to the tables it was made from deletes exactly what was planned, so none of the three
      count errors can occur. */
  lemma {:induction false} PlanAgrees(c: Classifier, t: Tables, retain: nat, rows: seq<Row>, p: Plan)
    requires ForeignKeys(t) && Planned(c, t, retain, rows, p)
    ensures Agrees(t, p)
  {
    KeptIsWithin(c, t, retain, rows, p);
    SignalsOfKept(t, rows, p.kept);
    PrunedIs(t, p.kept);
    KeptCountOf(t.tickets, p.kept);
    RestrictedCount(t.signals, p.keptSignals);
    OccurrenceCount(t.occurrences, p.keptSignals);
    hide Pruned, ForeignKeys, IsQuery, FirstProtected, Kept, SignalsOf, TicketSignals, Only, Dropped;
  }

  // ----- pruning twice -----

  lemma PrunedKeepsKeys(t: Tables, kept: set<Id>)
    requires ForeignKeys(t)
    ensures ForeignKeys(Pruned(t, kept))
  {
    PrunedIs(t, kept);
    hide Pruned;
    var after := Pruned(t, kept);
    forall k | k in after.tickets ensures after.tickets[k].signal in after.signals {
      assert after.tickets[k].signal in TicketSignals(after);
    }
  }

  /** A row that survives was a row before. */
  lemma SurvivorWasListed(t: Tables, kept: set<Id>, rows: seq<Row>, again: seq<Row>, j: nat) returns (i: nat)
    requires ForeignKeys(t) && IsQuery(t, rows) && IsQuery(Pruned(t, kept), again) && j < |again|
    ensures i < |rows| && rows[i] == again[j] && again[j].id in kept
  {
    PrunedIs(t, kept);
    hide Pruned, ComesBefore;
    assert IsRowOf(Pruned(t, kept), again[j]);
    i := RowOfTicket(t, rows, again[j].id);
  }

  /** And in the same order. */
  lemma SameOrder(t: Tables, kept: set<Id>, rows: seq<Row>, again: seq<Row>, a: nat, b: nat, i: nat, j: nat)
    requires IsQuery(t, rows) && IsQuery(Pruned(t, kept), again)
    requires a < b < |rows| && i < |again| && j < |again| && again[i] == rows[a] && again[j] == rows[b]
    ensures i < j
  {
    hide Pruned, ComesBefore, IsRowOf;
    ComesBeforeTotal(rows[a], rows[b]);
  }

  /** The second search finds the same protected ticket and meets no unreadable row before it. */
  lemma SameProtected(c: Classifier, t: Tables, retain: nat, rows: seq<Row>, p: Plan, again: seq<Row>)
    requires ForeignKeys(t) && Planned(c, t, retain, rows, p) && IsQuery(Pruned(t, p.kept), again)
    ensures FirstProtected(c, again) == Ok(p.protected)
  {
    hide Pruned, IsRowOf, IsSecurityTest, Malformed, FirstProtected;
    FirstProtectedIsFirst(c, rows);
    FirstProtectedIsFirst(c, again);
    PrunedKeepsKeys(t, p.kept);
    QueryListsAll(t, rows);
    if p.protected.Some? {
      var f :| FindsAt(c, rows, f) && rows[f].id == p.protected.value;
      ProtectedSurvives(c, t, retain, rows, p, again, f);
    } else {
      forall j | 0 <= j < |again| ensures !IsSecurityTest(c, again[j]) && !Malformed(c, again[j]) {
        var i := SurvivorWasListed(t, p.kept, rows, again, j);
      }
    }
  }

  lemma SurvivorIsListed(t: Tables, kept: set<Id>, rows: seq<Row>, again: seq<Row>, f: nat) returns (j: nat)
    requires ForeignKeys(t) && IsQuery(t, rows) && IsQuery(Pruned(t, kept), again) && f < |rows| && rows[f].id in kept
    ensures j < |again| && again[j] == rows[f]
  {
    hide ComesBefore;
    assert IsRowOf(t, rows[f]);
    PrunedKeepsKeys(t, kept);
    PrunedIs(t, kept);
    hide Pruned, ForeignKeys;
    j := RowOfTicket(Pruned(t, kept), again, rows[f].id);
    var i := SurvivorWasListed(t, kept, rows, again, j);
    assert i == f;
  }

  /** Only rows that came before a surviving row come before it among the survivors. */
  lemma BeforeSurvivor(t: Tables, kept: set<Id>, rows: seq<Row>, again: seq<Row>, f: nat, j: nat, k: nat)
    returns (l: nat)
    requires ForeignKeys(t) && IsQuery(t, rows) && IsQuery(Pruned(t, kept), again)
    requires f < |rows| && k < j < |again| && again[j] == rows[f]
    ensures l < f && again[k] == rows[l]
  {
    hide ComesBefore, Pruned, IsRowOf, ForeignKeys;
    l := SurvivorWasListed(t, kept, rows, again, k);
    if f < l {
      SameOrder(t, kept, rows, again, f, l, j, k);
    }
    assert again[k].id != again[j].id;
  }

  lemma ProtectedSurvives(c: Classifier, t: Tables, retain: nat, rows: seq<Row>, p: Plan, again: seq<Row>, f: nat)
    requires ForeignKeys(t) && Planned(c, t, retain, rows, p) && IsQuery(Pruned(t, p.kept), again)
    requires FindsAt(c, rows, f) && p.protected == Some(rows[f].id)
    ensures FirstProtected(c, again) == Ok(p.protected)
  {
    ProtectedIsKept(rows, retain, p.protected);
    hide IsQuery, ForeignKeys, Pruned, Kept, FirstProtected, SignalsOf, Dropped, IsSecurityTest, Malformed;
    var j := SurvivorIsListed(t, p.kept, rows, again, f);
    forall k | 0 <= k < j ensures !IsSecurityTest(c, again[k]) && !Malformed(c, again[k]) {
      var l := BeforeSurvivor(t, p.kept, rows, again, f, j, k);
    }
    FoundIsUnique(c, again, j);
  }

  lemma {:induction false} FoundIsUnique(c: Classifier, rows: seq<Row>, i: nat)
    requires FindsAt(c, rows, i)
    ensures FirstProtected(c, rows) == Ok(Some(rows[i].id))
  {
    if i > 0 {
      assert !IsSecurityTest(c, rows[0]) && !Malformed(c, rows[0]);
      ShiftReach(c, rows, i - 1);
      FoundIsUnique(c, rows[1..], i - 1);
    }
  }

  lemma ProtectedIsKept(rows: seq<Row>, retain: nat, protected: Option<Id>)
    requires protected.Some?
    ensures protected.value in Kept(rows, retain, protected)
  {
  }

  /** Planning again after a prune keeps everything: nothing is left to delete. */
  lemma SecondPruneDeletesNothing(c: Classifier, t: Tables, retain: nat, rows: seq<Row>, p: Plan, again: seq<Row>)
    requires ForeignKeys(t) && Planned(c, t, retain, rows, p) && IsQuery(Pruned(t, p.kept), again)
    ensures FirstProtected(c, again) == Ok(p.protected)
    ensures Kept(again, retain, p.protected) == Pruned(t, p.kept).tickets.Keys
    ensures Pruned(Pruned(t, p.kept), Kept(again, retain, p.protected)) == Pruned(t, p.kept)
  {
    SameProtected(c, t, retain, rows, p, again);
    PrunedKeepsKeys(t, p.kept);
    KeepsAllAgain(c, t, retain, rows, p, again);
    NothingLeftToDelete(t, p.kept);
  }

  lemma KeepsAllAgain(c: Classifier, t: Tables, retain: nat, rows: seq<Row>, p: Plan, again: seq<Row>)
    requires ForeignKeys(t) && Planned(c, t, retain, rows, p) && IsQuery(Pruned(t, p.kept), again)
    requires FirstProtected(c, again) == Ok(p.protected)
    ensures Kept(again, retain, p.protected) == Pruned(t, p.kept).tickets.Keys
  {
    QueryListsAll(t, rows);
    PrunedKeepsKeys(t, p.kept);
    QueryListsAll(Pruned(t, p.kept), again);
    ProtectedIsListed(c, rows);
    ProtectedIsListed(c, again);
    KeptIsWithin(c, t, retain, rows, p);
    PrunedIs(t, p.kept);
    KeptCountOf(t.tickets, p.kept);
    hide FirstProtected, IsQuery, ForeignKeys, Pruned, SignalsOf, Dropped;
    hide TicketSignals, Only, Ids, DistinctIds, Listed;
    KeptCount(rows, retain, p.protected);
    KeptCount(again, retain, p.protected);
    hide Kept;
    var after := Pruned(t, p.kept);
    assert |after.tickets.Keys| == |after.tickets|;
    SameSize(Kept(again, retain, p.protected), after.tickets.Keys);
  }

  lemma KeepingAllDrops(t: Tables)
    requires ForeignKeys(t) && t.keptTable.None?
    requires t.signals.Keys <= TicketSignals(t)
    requires forall k :: k in t.occurrences ==> t.occurrences[k] in TicketSignals(t)
    ensures Pruned(t, t.tickets.Keys) == t
  {
    var same := TicketsGone(ChildrenGone(t, t.tickets.Keys), t.tickets.Keys);
    assert same == t by {
      assert same.tickets == t.tickets && same.comments == t.comments && same.tasks == t.tasks && same.audit == t.audit;
    }
    assert OccurrencesGone(t).occurrences == t.occurrences;
    assert SignalsGone(t).signals == t.signals;
  }

  lemma NothingLeftToDelete(t: Tables, kept: set<Id>)
    requires ForeignKeys(t)
    ensures var after := Pruned(t, kept); Pruned(after, after.tickets.Keys) == after
  {
    PrunedIs(t, kept);
    PrunedKeepsKeys(t, kept);
    var after := Pruned(t, kept);
    assert after.keptTable.None?;
    hide Pruned, ForeignKeys, TicketSignals;
    KeepingAllDrops(after);
  }
}
